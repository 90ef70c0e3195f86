/** Runs in which only scheduled work is dispatched: which assignments they can complete. */
module MilestoneRuns {
  import opened Prelude
  import opened Order
  import opened Graph
  import opened Execution
  import opened ExecutionRuns
  import opened Milestones

  /** The edges of each mission's team manifest. */
  type Manifest = string -> seq<Edge>

  /** `answered` collects the assignments that `schedule()` has answered. */
  datatype Session = Session(b: Board, answered: set<string>)

  datatype Turn = Ask(m: string, advanced: bool) | Happens(h: Happening)

  /** Only answered assignments are dispatched. */
  ghost function TakeTurn(s: Session, manifest: Manifest, t: Turn): Session {
    match t
    case Ask(m, advanced) =>
      var (n, answer) := ScheduleNext(s.b, m, manifest(m), advanced);
      Session(n, if answer.Answered? then s.answered + {answer.id} else s.answered)
    case Happens(h) =>
      if h.Operate? && h.op.Dispatch? && h.op.id !in s.answered then s else s.(b := Happen(s.b, h))
  }

  ghost function Play(b: Board, manifest: Manifest, turns: seq<Turn>): Session {
    if turns == [] then Session(b, {})
    else TakeTurn(Play(b, manifest, turns[..|turns| - 1]), manifest, turns[|turns| - 1])
  }

  lemma PlaySnoc(b: Board, manifest: Manifest, turns: seq<Turn>, t: Turn)
    ensures Play(b, manifest, turns + [t]) == TakeTurn(Play(b, manifest, turns), manifest, t)
  {
    assert (turns + [t])[..|turns|] == turns;
  }

  /** What an assignment waits for: its dependencies and the sources of the manifest's edges into it. */
  ghost function Needs(a: Assignments, manifest: Manifest, id: string): set<string>
    requires id in a
  {
    Elements(a[id].deps) + set e | e in manifest(a[id].mission) && e.target == id :: e.source
  }

  // ---------------------------------------------------------------- what can never run

  /** It waits for a member of the set, or for an assignment that does not exist. */
  ghost predicate Starved(a: Assignments, manifest: Manifest, waiting: set<string>, id: string)
    requires id in a
  {
    exists d :: d in Needs(a, manifest, id) && (d in waiting || d !in a)
  }

  /** Every unskipped milestone of its name comes after one that holds a member of the set. */
  ghost predicate Barred(b: Board, waiting: set<string>, id: string)
    requires id in b.w.assignments
  {
    var a := b.w.assignments;
    forall k: nat | k < |b.milestones| && b.milestones[k].id == a[id].milestone && !b.milestones[k].skipped ::
      exists y :: y in waiting && OfMission(a, a[id].mission, y) && Leads(b.milestones, a[y].milestone, k)
  }

  /** Every member is held up by the others. */
  ghost predicate Doomed(b: Board, manifest: Manifest, waiting: set<string>) {
    forall id <- waiting ::
      id in b.w.assignments && (Starved(b.w.assignments, manifest, waiting, id) || Barred(b, waiting, id))
  }

  /** The plan itself: missions, milestones and dependencies of the assignments, and the milestones. */
  ghost predicate SamePlan(b: Board, c: Board) {
    c.milestones == b.milestones && Grows(b.w.assignments, c.w.assignments)
  }

  ghost predicate SameAssignment(x: Assignment, y: Assignment) {
    x.mission == y.mission && x.deps == y.deps && x.milestone == y.milestone
  }

  /** Being doomed depends on the plan alone. */
  lemma DoomedSame(b: Board, c: Board, manifest: Manifest, waiting: set<string>)
    requires c.milestones == b.milestones && b.w.assignments.Keys == c.w.assignments.Keys
    requires forall id <- b.w.assignments :: SameAssignment(b.w.assignments[id], c.w.assignments[id])
    requires Doomed(b, manifest, waiting)
    ensures Doomed(c, manifest, waiting)
  {
    hide Leads;
    forall id <- waiting
      ensures id in c.w.assignments && (Starved(c.w.assignments, manifest, waiting, id) || Barred(c, waiting, id))
    {
      assert Needs(c.w.assignments, manifest, id) == Needs(b.w.assignments, manifest, id);
      if Starved(b.w.assignments, manifest, waiting, id) {
        var d :| d in Needs(b.w.assignments, manifest, id) && (d in waiting || d !in b.w.assignments);
        assert Starved(c.w.assignments, manifest, waiting, id);
      } else {
        BarredSame(b, c, waiting, id);
      }
    }
  }

  lemma BarredSame(b: Board, c: Board, waiting: set<string>, id: string)
    requires c.milestones == b.milestones && b.w.assignments.Keys == c.w.assignments.Keys
    requires forall x <- b.w.assignments :: SameAssignment(b.w.assignments[x], c.w.assignments[x])
    requires id in b.w.assignments && Barred(b, waiting, id)
    ensures Barred(c, waiting, id)
  {
    hide Leads;
    var a := b.w.assignments;
    forall k: nat | k < |c.milestones| && c.milestones[k].id == a[id].milestone && !c.milestones[k].skipped
      ensures exists y :: y in waiting && OfMission(c.w.assignments, a[id].mission, y)
                          && Leads(c.milestones, c.w.assignments[y].milestone, k)
    {
      var y :| y in waiting && OfMission(a, a[id].mission, y) && Leads(b.milestones, a[y].milestone, k);
      assert OfMission(c.w.assignments, a[id].mission, y);
    }
  }

  lemma DoomedExactly(b: Board, c: Board, manifest: Manifest, waiting: set<string>)
    requires SamePlan(b, c)
    ensures Doomed(b, manifest, waiting) <==> Doomed(c, manifest, waiting)
  {
    hide Doomed;
    if Doomed(b, manifest, waiting) {
      DoomedSame(b, c, manifest, waiting);
    }
    if Doomed(c, manifest, waiting) {
      DoomedSame(c, b, manifest, waiting);
    }
  }

  ghost predicate Untouched(s: Session, waiting: set<string>) {
    forall id <- waiting ::
      id !in s.answered && id in s.b.w.assignments && !Entered(s.b.w.assignments[id].status)
  }

  /**
   What is answered waits for nothing, and some unskipped milestone of its name comes after none that
   holds unfinished work of the mission.
   */
  lemma AnsweredFree(b: Board, manifest: Manifest, m: string, advanced: bool, id: string) returns (top: nat)
    requires ScheduleNext(b, m, manifest(m), advanced).1 == Answered(id)
    ensures OfMission(b.w.assignments, m, id)
    ensures forall d <- Needs(b.w.assignments, manifest, id) :: Done(b.w.assignments, d)
    ensures top < |b.milestones| && b.milestones[top].id == b.w.assignments[id].milestone && !b.milestones[top].skipped
    ensures forall y | OfMission(b.w.assignments, m, y) && b.w.assignments[y].status != Completed ::
              !Leads(b.milestones, b.w.assignments[y].milestone, top)
  {
    hide ScheduleNext, Computed, Least;
    top := AnsweredMeans(b, m, manifest(m), advanced, id);
    var n := ScheduleNext(b, m, manifest(m), advanced).0;
    forall y | OfMission(b.w.assignments, m, y) && b.w.assignments[y].status != Completed
      ensures !Leads(b.milestones, b.w.assignments[y].milestone, top)
    {
      forall j: nat | j < |b.milestones| && b.milestones[j].id == b.w.assignments[y].milestone
                      && Earlier(b.milestones, j, top)
        ensures b.milestones[j].skipped
      {
        assert Relevant(b.w.assignments, m, b.milestones[j].id, y);
        assert !Stops(n, m, n.milestones[j]);
      }
    }
  }

  /** No member of a doomed set is ever answered. */
  lemma DoomedUnanswered(b: Board, manifest: Manifest, waiting: set<string>, m: string, advanced: bool, id: string)
    requires Doomed(b, manifest, waiting) && ScheduleNext(b, m, manifest(m), advanced).1 == Answered(id)
    requires forall x <- waiting :: x in b.w.assignments && b.w.assignments[x].status != Completed
    ensures id !in waiting
  {
    hide ScheduleNext, Leads, Needs;
    var top := AnsweredFree(b, manifest, m, advanced, id);
    assert !Starved(b.w.assignments, manifest, waiting, id);
    assert !Barred(b, waiting, id);
  }

  lemma TurnKeepsPlan(s: Session, manifest: Manifest, t: Turn)
    ensures SamePlan(s.b, TakeTurn(s, manifest, t).b)
  {
    hide ScheduleNext, Apply, Grows;
    GrowsReflexive(s.b.w.assignments);
    match t
    case Ask(m, advanced) => AskMovesCursor(s.b, m, manifest(m), advanced);
    case Happens(h) =>
      if h.Operate? {
        ApplyGrows(s.b.w, h.op, h.ok);
      }
  }

  /** Asking changes nothing but the cursor. */
  lemma AskMovesCursor(b: Board, m: string, edges: seq<Edge>, advanced: bool)
    ensures var n := ScheduleNext(b, m, edges, advanced).0; n == b.(current := n.current)
  {
    hide ResumePlan, AnswerPlan;
  }

  lemma TurnUntouched(s: Session, manifest: Manifest, waiting: set<string>, t: Turn)
    requires Doomed(s.b, manifest, waiting) && Untouched(s, waiting)
    ensures Untouched(TakeTurn(s, manifest, t), waiting)
  {
    hide Doomed, ScheduleNext, Apply;
    match t
    case Ask(m, advanced) =>
      AskMovesCursor(s.b, m, manifest(m), advanced);
      var answer := ScheduleNext(s.b, m, manifest(m), advanced).1;
      if answer.Answered? {
        DoomedUnanswered(s.b, manifest, waiting, m, advanced, answer.id);
      }
    case Happens(h) =>
      if h.Operate? && !(h.op.Dispatch? && h.op.id !in s.answered) {
        ApplyGrows(s.b.w, h.op, h.ok);
        forall id <- waiting ensures !Entered(Apply(s.b.w, h.op, h.ok).assignments[id].status) {
          if Entered(Apply(s.b.w, h.op, h.ok).assignments[id].status) {
            EntersFrom(s.b.w, h.op, h.ok, id);
            assert false;
          }
        }
      }
  }

  /**
   However the rest of the world behaves, no run that dispatches only answered work ever puts a member
   of a doomed set in progress.
   */
  lemma {:induction false} DoomedStays(b: Board, manifest: Manifest, waiting: set<string>, turns: seq<Turn>)
    requires Doomed(b, manifest, waiting) && Untouched(Session(b, {}), waiting)
    ensures Untouched(Play(b, manifest, turns), waiting) && SamePlan(b, Play(b, manifest, turns).b)
  {
    hide Doomed, Untouched, TakeTurn, Grows;
    if turns == [] {
      GrowsReflexive(b.w.assignments);
    } else {
      var before := turns[..|turns| - 1];
      var s := Play(b, manifest, before);
      DoomedStays(b, manifest, waiting, before);
      DoomedExactly(b, s.b, manifest, waiting);
      TurnUntouched(s, manifest, waiting, turns[|turns| - 1]);
      TurnKeepsPlan(s, manifest, turns[|turns| - 1]);
      GrowsTransitive(b.w.assignments, s.b.w.assignments, TakeTurn(s, manifest, turns[|turns| - 1]).b.w.assignments);
    }
  }

  /**
   A dependency that crosses the milestones backwards: neither the assignment nor what it depends on
   is ever started.
   */
  lemma StuckForever(b: Board, manifest: Manifest, m: string, d: string, id: string, turns: seq<Turn>)
    requires Initial(b.w) && OfMission(b.w.assignments, m, d) && OfMission(b.w.assignments, m, id)
    requires d in Needs(b.w.assignments, manifest, id)
    requires Inverted(b.milestones, b.w.assignments[d].milestone, b.w.assignments[id].milestone)
    ensures var a := Play(b, manifest, turns).b.w.assignments;
            d in a && id in a && !Entered(a[d].status) && !Entered(a[id].status)
  {
    hide Leads, Play;
    var waiting := {d, id};
    assert Starved(b.w.assignments, manifest, waiting, id);
    assert Barred(b, waiting, d) by {
      assert id in waiting && OfMission(b.w.assignments, m, id);
    }
    DoomedStays(b, manifest, waiting, turns);
    assert d in waiting && id in waiting;
  }

  // ---------------------------------------------------------------- what can run next

  /** Everything that work of the mission waits for is work of the mission. */
  ghost predicate NeedsWithin(a: Assignments, manifest: Manifest, m: string) {
    forall id <- a :: a[id].mission == m ==> forall d <- Needs(a, manifest, id) :: OfMission(a, m, d)
  }

  ghost function Unfinished(a: Assignments, m: string): set<string> {
    set id | id in a && a[id].mission == m && a[id].status != Completed
  }

  ghost predicate AllGreen(b: Board) {
    forall g <- b.gates :: b.gates[g].green
  }

  /** Unless all unfinished work is held up, some of it waits for nothing and lies in the computed milestone. */
  lemma FindNext(b: Board, manifest: Manifest, m: string) returns (id: string)
    requires NeedsWithin(b.w.assignments, manifest, m) && AllGreen(b)
    requires !Doomed(b, manifest, Unfinished(b.w.assignments, m))
    ensures id in Unfinished(b.w.assignments, m) && Computed(b, m) == Some(b.w.assignments[id].milestone)
    ensures forall d <- Needs(b.w.assignments, manifest, id) :: Done(b.w.assignments, d)
  {
    hide Leads, Needs, Computed;
    var a, waiting := b.w.assignments, Unfinished(b.w.assignments, m);
    id :| id in waiting && !Starved(a, manifest, waiting, id) && !Barred(b, waiting, id);
    forall d <- Needs(a, manifest, id) ensures Done(a, d) {
      assert OfMission(a, m, d);
    }
    var k: nat :| k < |b.milestones| && b.milestones[k].id == a[id].milestone && !b.milestones[k].skipped
                  && forall y | y in waiting && OfMission(a, a[id].mission, y) ::
                       !Leads(b.milestones, a[y].milestone, k);
    OpenStopsFirst(b, m, id, k);
    Barrier(b, m);
  }

  lemma OpenStopsFirst(b: Board, m: string, id: string, k: nat)
    requires AllGreen(b) && id in Unfinished(b.w.assignments, m)
    requires k < |b.milestones| && b.milestones[k].id == b.w.assignments[id].milestone && !b.milestones[k].skipped
    requires forall y <- Unfinished(b.w.assignments, m) :: !Leads(b.milestones, b.w.assignments[y].milestone, k)
    ensures StopsFirst(b, m, b.milestones, k)
  {
    var a := b.w.assignments;
    assert Relevant(a, m, b.milestones[k].id, id);
    forall j: nat | j < |b.milestones| && Earlier(b.milestones, j, k) ensures !Stops(b, m, b.milestones[j]) {
      if !b.milestones[j].skipped {
        forall y <- a | Relevant(a, m, b.milestones[j].id, y) ensures a[y].status == Completed {
          assert Leads(b.milestones, a[y].milestone, k);
        }
      }
    }
  }

  /** Nothing outside the mission's own state keeps `schedule()` from answering. */
  ghost predicate Cooperative(b: Board, m: string) {
    b.active == Some(m) && b.sound && !b.halting && b.stranded == {} && b.checkpointed && AllGreen(b)
  }

  ghost predicate AllFit(b: Board, m: string) {
    forall id <- b.w.assignments :: b.w.assignments[id].mission == m ==> id in b.fit
  }

  /** The manifest asks for nothing beyond the dependencies. */
  ghost predicate Covered(a: Assignments, manifest: Manifest, m: string) {
    forall e <- manifest(m) :: e.target in a && a[e.target].mission == m ==> e.source in a[e.target].deps
  }

  /** Work that is already in somebody's hands. */
  ghost predicate Busy(b: Board, m: string) {
    exists id :: OfMission(b.w.assignments, m, id) && b.w.assignments[id].status in {InProgress, Blocked}
  }

  lemma AnswersOrBusy(b: Board, manifest: Manifest, m: string)
    requires OnTrack(b.w, m) && b.w.missions[m] == Active && NeedsWithin(b.w.assignments, manifest, m)
    requires Cooperative(b, m) && AllFit(b, m) && !Busy(b, m)
    requires !Doomed(b, manifest, Unfinished(b.w.assignments, m))
    ensures var answer := ScheduleNext(b, m, manifest(m), true).1;
            (answer.Answered? || answer.Unsatisfied?) && (Covered(b.w.assignments, manifest, m) ==> answer.Answered?)
  {
    hide Computed, Least, Doomed, DepsDone, NeedsWithin;
    var a := b.w.assignments;
    var id := FindNext(b, manifest, m);
    assert OnTrackOne(b.w, m, id);
    NeedsDone(a, manifest, id);
    assert a[id].status == Ready;
    var n := b.(current := Computed(b, m));
    CursorIgnored(b, m, Computed(b, m));
    assert id in EligibleSet(b, m) && id in EligibleSet(n, m);
    LeastIsLeast(EligibleSet(b, m));
    LeastIsLeast(EligibleSet(n, m));
    if Covered(a, manifest, m) {
      CoveredSatisfied(b, manifest, m);
      CoveredSatisfied(n, manifest, m);
    }
  }

  lemma NeedsDone(a: Assignments, manifest: Manifest, id: string)
    requires id in a && forall d <- Needs(a, manifest, id) :: Done(a, d)
    ensures DepsDone(a, a[id].deps) && forall e <- manifest(a[id].mission) :: e.target == id ==> Done(a, e.source)
  {
  }

  lemma CoveredSatisfied(b: Board, manifest: Manifest, m: string)
    requires Covered(b.w.assignments, manifest, m)
    ensures forall id, e | id in EligibleSet(b, m) && e in manifest(m) ::
            e.target == id ==> Done(b.w.assignments, e.source)
  {
    hide Computed;
  }

  // ---------------------------------------------------------------- plain runs

  /** Nothing gives up on the mission's work, pauses it, or turns a gate red. */
  predicate Plain(t: Turn, m: string) {
    t.Happens? ==> !t.h.TurnRed? && (t.h.Operate? ==> !GivesUp(t.h.op, m) && !t.h.op.Pause?)
  }

  lemma TurnOnTrack(s: Session, manifest: Manifest, t: Turn, m: string)
    requires OnTrack(s.b.w, m) && !(t.Happens? && t.h.Operate? && GivesUp(t.h.op, m))
    ensures OnTrack(TakeTurn(s, manifest, t).b.w, m)
  {
    hide OnTrack, ScheduleNext, Apply;
    match t
    case Ask(n, advanced) => AskMovesCursor(s.b, n, manifest(n), advanced);
    case Happens(h) =>
      if h.Operate? {
        ApplyOnTrack(s.b.w, h.op, h.ok, m);
      }
  }

  lemma {:induction false} PlayOnTrack(b: Board, manifest: Manifest, turns: seq<Turn>, m: string)
    requires Initial(b.w) && m in b.w.missions && SelfContained(b.w.assignments, m)
    requires forall t <- turns :: !(t.Happens? && t.h.Operate? && GivesUp(t.h.op, m))
    ensures OnTrack(Play(b, manifest, turns).b.w, m) && SamePlan(b, Play(b, manifest, turns).b)
  {
    hide OnTrack, TakeTurn, Grows, Initial, SelfContained;
    if turns == [] {
      InitialOnTrack(b.w, m);
      GrowsReflexive(b.w.assignments);
    } else {
      var last := turns[|turns| - 1];
      assert last in turns;
      PlayOnTrack(b, manifest, turns[..|turns| - 1], m);
      var s := Play(b, manifest, turns[..|turns| - 1]);
      TurnOnTrack(s, manifest, last, m);
      TurnKeepsPlan(s, manifest, last);
      GrowsTransitive(b.w.assignments, s.b.w.assignments, TakeTurn(s, manifest, last).b.w.assignments);
    }
  }

  /**
   `schedule()` never idles for good: at every point of every run without fail and cancel, with nothing
   in anybody's hands and nothing outside in the way, it answers, unless all unfinished work is held up.
   */
  lemma NeverIdle(b: Board, manifest: Manifest, turns: seq<Turn>, m: string)
    requires Initial(b.w) && m in b.w.missions && NeedsWithin(b.w.assignments, manifest, m)
    requires forall t <- turns :: !(t.Happens? && t.h.Operate? && GivesUp(t.h.op, m))
    requires var c := Play(b, manifest, turns).b;
             m in c.w.missions && c.w.missions[m] == Active && Cooperative(c, m) && AllFit(c, m) && !Busy(c, m)
             && !Doomed(b, manifest, Unfinished(c.w.assignments, m))
    ensures var c := Play(b, manifest, turns).b;
            var answer := ScheduleNext(c, m, manifest(m), true).1;
            (answer.Answered? || answer.Unsatisfied?) && (Covered(c.w.assignments, manifest, m) ==> answer.Answered?)
  {
    hide Play, OnTrack, Initial, Cooperative, AllFit, Busy, Covered, ScheduleNext, NeedsWithin, Doomed;
    var c := Play(b, manifest, turns).b;
    WithinContained(b.w.assignments, manifest, m);
    PlayOnTrack(b, manifest, turns, m);
    SameWithin(b.w.assignments, c.w.assignments, manifest, m);
    DoomedExactly(b, c, manifest, Unfinished(c.w.assignments, m));
    AnswersOrBusy(c, manifest, m);
  }

  lemma WithinContained(a: Assignments, manifest: Manifest, m: string)
    requires NeedsWithin(a, manifest, m)
    ensures SelfContained(a, m)
  {
  }

  lemma SameWithin(a: Assignments, b: Assignments, manifest: Manifest, m: string)
    requires Grows(a, b) && NeedsWithin(a, manifest, m)
    ensures NeedsWithin(b, manifest, m)
  {
    forall id <- b | b[id].mission == m ensures forall d <- Needs(b, manifest, id) :: OfMission(b, m, d) {
      assert Needs(b, manifest, id) == Needs(a, manifest, id);
    }
  }

  // ---------------------------------------------------------------- a run that completes all it can

  /** Between two answers: the mission is active, its work waits or is done, and the gates are green. */
  ghost predicate Calm(b: Board, m: string) {
    OnTrack(b.w, m) && b.w.missions[m] == Active && AllGreen(b) && !Busy(b, m)
  }

  /** The scheduler finds one agent fit, and nothing in the way. */
  function OnlyFit(b: Board, m: string, id: string): Happening {
    Note(b.current, Some(m), {id}, {}, false, true, b.blocked, true)
  }

  lemma FitAnswered(b: Board, manifest: Manifest, m: string, id: string)
    requires m in b.w.missions && b.w.missions[m] == Active && OfMission(b.w.assignments, m, id)
    requires b.w.assignments[id].status == Ready && Computed(b, m) == Some(b.w.assignments[id].milestone)
    requires forall d <- Needs(b.w.assignments, manifest, id) :: Done(b.w.assignments, d)
    ensures ScheduleNext(Happen(b, OnlyFit(b, m, id)), m, manifest(m), true).1 == Answered(id)
  {
    hide Computed, Least, DepsDone, FirstStop;
    NeedsDone(b.w.assignments, manifest, id);
    var c := Happen(b, OnlyFit(b, m, id));
    var n := c.(current := Computed(b, m));
    NotedComputed(b, m, OnlyFit(b, m, id));
    CursorIgnored(c, m, Computed(b, m));
    assert EligibleSet(c, m) == {id} && EligibleSet(n, m) == {id};
    LeastIsLeast({id});
  }

  /** What the scheduler only notes does not enter the computed milestone. */
  lemma NotedComputed(b: Board, m: string, h: Happening)
    requires h.Note?
    ensures Computed(Happen(b, h), m) == Computed(b, m)
  {
    hide ByOrder;
    SameStops(b, Happen(b, h), m, ByOrder(b.milestones));
  }

  /** Dispatching and completing one assignment. */
  lemma Works(w: World, m: string, id: string)
    requires OnTrack(w, m) && w.missions[m] == Active && OfMission(w.assignments, m, id)
             && w.assignments[id].status == Ready
    ensures var u := Apply(Apply(w, Dispatch(m, id), true), Complete(m, id), true);
            && OnTrack(u, m) && u.missions == w.missions && u.assignments.Keys == w.assignments.Keys
            && Unfinished(u.assignments, m) == Unfinished(w.assignments, m) - {id}
            && forall x <- w.assignments :: x != id && u.assignments[x].status != w.assignments[x].status ==>
                 u.assignments[x].status == Ready
  {
    hide Candidates, DepsDone, OnTrack;
    ApplyOnTrack(w, Dispatch(m, id), true, m);
    ApplyOnTrack(Apply(w, Dispatch(m, id), true), Complete(m, id), true, m);
    WorksOn(w, m, id);
  }

  lemma WorksOn(w: World, m: string, id: string)
    requires OfMission(w.assignments, m, id) && w.assignments[id].status == Ready
    ensures var u := Apply(Apply(w, Dispatch(m, id), true), Complete(m, id), true);
            && u.missions == w.missions && u.assignments.Keys == w.assignments.Keys
            && u.assignments[id].status == Completed
            && forall x <- w.assignments :: x != id ==>
                 && u.assignments[x].mission == w.assignments[x].mission
                 && (u.assignments[x].status == w.assignments[x].status
                     || (w.assignments[x].status == Pending && u.assignments[x].status == Ready))
  {
    hide Candidates, DepsDone;
  }

  ghost predicate AllPlain(turns: seq<Turn>, m: string) {
    forall t <- turns :: Plain(t, m)
  }

  /** What a run so far has reached. */
  ghost predicate Reached(b: Board, manifest: Manifest, turns: seq<Turn>, m: string) {
    AllPlain(turns, m) && Calm(Play(b, manifest, turns).b, m) && SamePlan(b, Play(b, manifest, turns).b)
  }

  /** One more assignment: its agent is fit, it is asked for, dispatched and completed. */
  lemma OneMore(b: Board, manifest: Manifest, turns: seq<Turn>, m: string) returns (more: seq<Turn>)
    requires NeedsWithin(b.w.assignments, manifest, m) && Reached(b, manifest, turns, m)
    requires !Doomed(b, manifest, Unfinished(Play(b, manifest, turns).b.w.assignments, m))
    ensures Reached(b, manifest, more, m)
    ensures Unfinished(Play(b, manifest, more).b.w.assignments, m)
            < Unfinished(Play(b, manifest, turns).b.w.assignments, m)
  {
    hide Play, ScheduleNext, OnTrack, Apply, NeedsWithin, Doomed, Grows, Computed, Needs, Busy, GivesUp;
    var s := Play(b, manifest, turns);
    SameWithin(b.w.assignments, s.b.w.assignments, manifest, m);
    DoomedExactly(b, s.b, manifest, Unfinished(s.b.w.assignments, m));
    var id := FindNext(s.b, manifest, m);
    NextReady(s.b, manifest, m, id);
    FitAnswered(s.b, manifest, m, id);
    var c := Happen(s.b, OnlyFit(s.b, m, id));
    AskMovesCursor(c, m, manifest(m), true);
    Works(s.b.w, m, id);
    WorksCalm(s.b, m, id);
    var t1, t2 := Happens(OnlyFit(s.b, m, id)), Ask(m, true);
    var t3, t4 := Happens(Operate(Dispatch(m, id), true)), Happens(Operate(Complete(m, id), true));
    PlainWork(t1, t2, t3, t4, m, id);
    PlayFour(b, manifest, turns, t1, t2, t3, t4);
    more := turns + [t1] + [t2] + [t3] + [t4];
    ApplyGrows(s.b.w, Dispatch(m, id), true);
    ApplyGrows(Apply(s.b.w, Dispatch(m, id), true), Complete(m, id), true);
    GrowsTransitive(b.w.assignments, s.b.w.assignments, Apply(s.b.w, Dispatch(m, id), true).assignments);
    GrowsTransitive(b.w.assignments, Apply(s.b.w, Dispatch(m, id), true).assignments,
                    Play(b, manifest, more).b.w.assignments);
  }

  lemma NextReady(b: Board, manifest: Manifest, m: string, id: string)
    requires Calm(b, m) && id in Unfinished(b.w.assignments, m)
    requires forall d <- Needs(b.w.assignments, manifest, id) :: Done(b.w.assignments, d)
    ensures m in b.w.missions && b.w.missions[m] == Active && b.w.assignments[id].status == Ready
  {
    hide DepsDone, Needs;
    NeedsDone(b.w.assignments, manifest, id);
    assert OnTrackOne(b.w, m, id);
  }

  lemma WorksCalm(b: Board, m: string, id: string)
    requires Calm(b, m) && OfMission(b.w.assignments, m, id) && b.w.assignments[id].status == Ready
    ensures forall c: Board | c.gates == b.gates
              && c.w == Apply(Apply(b.w, Dispatch(m, id), true), Complete(m, id), true) :: Calm(c, m)
  {
    hide OnTrack, Apply;
    Works(b.w, m, id);
    var u := Apply(Apply(b.w, Dispatch(m, id), true), Complete(m, id), true);
    WorksBusy(b.w, u, m, id);
  }

  lemma WorksBusy(w: World, u: World, m: string, id: string)
    requires u.assignments.Keys == w.assignments.Keys
    requires id !in Unfinished(u.assignments, m) && OfMission(w.assignments, m, id)
    requires u == Apply(Apply(w, Dispatch(m, id), true), Complete(m, id), true) && w.assignments[id].status == Ready
    requires forall x :: OfMission(w.assignments, m, x) ==> w.assignments[x].status !in {InProgress, Blocked}
    ensures forall x :: OfMission(u.assignments, m, x) ==> u.assignments[x].status !in {InProgress, Blocked}
  {
    hide Apply;
    WorksOn(w, m, id);
  }

  lemma PlainWork(t1: Turn, t2: Turn, t3: Turn, t4: Turn, m: string, id: string)
    requires t1.Happens? && t1.h.Note? && t2.Ask?
    requires t3 == Happens(Operate(Dispatch(m, id), true)) && t4 == Happens(Operate(Complete(m, id), true))
    ensures Plain(t1, m) && Plain(t2, m) && Plain(t3, m) && Plain(t4, m)
  {
  }

  lemma PlayFour(b: Board, manifest: Manifest, turns: seq<Turn>, t1: Turn, t2: Turn, t3: Turn, t4: Turn)
    ensures Play(b, manifest, turns + [t1] + [t2] + [t3] + [t4])
            == var s := TakeTurn(TakeTurn(Play(b, manifest, turns), manifest, t1), manifest, t2);
               TakeTurn(TakeTurn(s, manifest, t3), manifest, t4)
  {
    hide Play, TakeTurn;
    PlaySnoc(b, manifest, turns, t1);
    PlaySnoc(b, manifest, turns + [t1], t2);
    PlaySnoc(b, manifest, turns + [t1] + [t2], t3);
    PlaySnoc(b, manifest, turns + [t1] + [t2] + [t3], t4);
  }

  lemma {:induction false} AllItCan(b: Board, manifest: Manifest, turns: seq<Turn>, m: string) returns (more: seq<Turn>)
    requires NeedsWithin(b.w.assignments, manifest, m) && Reached(b, manifest, turns, m)
    ensures Reached(b, manifest, more, m)
    ensures Doomed(b, manifest, Unfinished(Play(b, manifest, more).b.w.assignments, m))
    decreases |Unfinished(Play(b, manifest, turns).b.w.assignments, m)|
  {
    hide Play, Reached, Doomed, Unfinished, NeedsWithin;
    if Doomed(b, manifest, Unfinished(Play(b, manifest, turns).b.w.assignments, m)) {
      more := turns;
    } else {
      var next := OneMore(b, manifest, turns, m);
      SubsetSize(Unfinished(Play(b, manifest, next).b.w.assignments, m),
                 Unfinished(Play(b, manifest, turns).b.w.assignments, m));
      more := AllItCan(b, manifest, next, m);
    }
  }

  // ---------------------------------------------------------------- from the beginning

  ghost function Red(b: Board): set<string> {
    set g | g in b.gates && !b.gates[g].green
  }

  lemma {:induction false} TurnAllGreen(b: Board, manifest: Manifest, turns: seq<Turn>, m: string)
    returns (more: seq<Turn>)
    requires AllPlain(turns, m)
    ensures AllPlain(more, m) && AllGreen(Play(b, manifest, more).b)
    ensures Play(b, manifest, more).b.w == Play(b, manifest, turns).b.w
    ensures Play(b, manifest, more).b.milestones == Play(b, manifest, turns).b.milestones
    decreases |Red(Play(b, manifest, turns).b)|
  {
    hide Play, GivesUp;
    var s := Play(b, manifest, turns);
    if Red(s.b) == {} {
      more := turns;
      forall g <- s.b.gates ensures s.b.gates[g].green {
        assert g !in Red(s.b);
      }
    } else {
      var g :| g in Red(s.b);
      var t := Happens(TurnGreen(g));
      PlaySnoc(b, manifest, turns, t);
      assert Red(Play(b, manifest, turns + [t]).b) == Red(s.b) - {g};
      more := TurnAllGreen(b, manifest, turns + [t], m);
    }
  }

  lemma Begun(b: Board, manifest: Manifest, m: string) returns (turns: seq<Turn>)
    requires Initial(b.w) && m in b.w.missions && NeedsWithin(b.w.assignments, manifest, m)
    ensures Reached(b, manifest, turns, m)
  {
    hide Apply, Grows, OnTrack, NeedsWithin, Play, Initial, SelfContained;
    var t := Happens(Operate(Start(m), true));
    PlaySnoc(b, manifest, [], t);
    assert [] + [t] == [t];
    PlayNone(b, manifest);
    assert Plain(t, m);
    turns := TurnAllGreen(b, manifest, [t], m);
    var u := Apply(b.w, Start(m), true);
    ApplyGrows(b.w, Start(m), true);
    WithinContained(b.w.assignments, manifest, m);
    InitialOnTrack(b.w, m);
    ApplyOnTrack(b.w, Start(m), true, m);
    StartsCalm(b.w, m);
  }

  lemma PlayNone(b: Board, manifest: Manifest)
    ensures Play(b, manifest, []) == Session(b, {})
  {
  }

  lemma StartsCalm(w: World, m: string)
    requires Initial(w) && m in w.missions
    ensures var u := Apply(w, Start(m), true);
            m in u.missions && u.missions[m] == Active
            && forall id :: OfMission(u.assignments, m, id) ==> u.assignments[id].status !in {InProgress, Blocked}
  {
    hide Candidates;
  }

  // ---------------------------------------------------------------- exactly what can be completed

  /** Some run that dispatches only answered work completes the assignment. */
  ghost predicate CanComplete(b: Board, manifest: Manifest, id: string) {
    exists turns :: Done(Play(b, manifest, turns).b.w.assignments, id)
  }

  predicate WorkOf(a: Assignments, m: string, ids: set<string>) {
    forall id <- ids :: OfMission(a, m, id)
  }

  /** Some set of the mission's assignments is doomed and holds this one. */
  ghost predicate HeldUp(b: Board, manifest: Manifest, m: string, id: string) {
    exists waiting: set<string> ::
      id in waiting && Doomed(b, manifest, waiting) && WorkOf(b.w.assignments, m, waiting)
  }

  /**
   One run without fail, cancel or pause completes at once every assignment of the mission that any run
   can complete, and an assignment cannot be completed exactly when it belongs to a doomed set.
   */
  lemma CompletableExactly(b: Board, manifest: Manifest, m: string) returns (best: seq<Turn>)
    requires Initial(b.w) && m in b.w.missions && NeedsWithin(b.w.assignments, manifest, m)
    ensures AllPlain(best, m)
    ensures forall id :: OfMission(b.w.assignments, m, id) ==>
              (CanComplete(b, manifest, id) <==> !HeldUp(b, manifest, m, id))
              && (CanComplete(b, manifest, id) <==> Done(Play(b, manifest, best).b.w.assignments, id))
  {
    hide Play, Doomed, NeedsWithin, Initial;
    var start := Begun(b, manifest, m);
    best := AllItCan(b, manifest, start, m);
    var a := Play(b, manifest, best).b.w.assignments;
    forall id | OfMission(b.w.assignments, m, id)
      ensures CanComplete(b, manifest, id) <==> !HeldUp(b, manifest, m, id)
      ensures CanComplete(b, manifest, id) <==> Done(a, id)
    {
      if HeldUp(b, manifest, m, id) {
        HeldUpForever(b, manifest, m, id);
      } else {
        assert id !in Unfinished(a, m);
        assert OfMission(a, m, id);
      }
    }
  }

  lemma HeldUpForever(b: Board, manifest: Manifest, m: string, id: string)
    requires Initial(b.w) && HeldUp(b, manifest, m, id)
    ensures !CanComplete(b, manifest, id)
  {
    hide Doomed;
    var waiting: set<string> :| id in waiting && Doomed(b, manifest, waiting) && WorkOf(b.w.assignments, m, waiting);
    forall turns ensures !Done(Play(b, manifest, turns).b.w.assignments, id) {
      DoomedStays(b, manifest, waiting, turns);
    }
  }

  // ---------------------------------------------------------------- which missions can be finished

  ghost function NeedEdges(a: Assignments, manifest: Manifest, m: string): Edges {
    set id, d | id in a && a[id].mission == m && d in Needs(a, manifest, id) :: (d, id)
  }

  predicate Listed(ms: seq<Milestone>, name: string) {
    exists k: nat :: k < |ms| && ms[k].id == name && !ms[k].skipped
  }

  /**
   What a planner can check before the mission starts: its needs form no cycle and never lead from a
   later milestone to an earlier one, and all its work lies in milestones that are listed and not skipped.
   */
  ghost predicate Orderable(b: Board, manifest: Manifest, m: string) {
    && Acyclic(NeedEdges(b.w.assignments, manifest, m))
    && Aligned(b, NeedEdges(b.w.assignments, manifest, m))
    && forall id <- b.w.assignments ::
       b.w.assignments[id].mission == m ==> Listed(b.milestones, b.w.assignments[id].milestone)
  }

  /** Of finitely many milestones one comes before all others. */
  lemma {:induction false} FirstPlace(ms: seq<Milestone>, places: set<nat>) returns (k: nat)
    requires places != {} && forall p <- places :: p < |ms|
    ensures k in places && forall p <- places :: !Earlier(ms, p, k)
    decreases |places|
  {
    k :| k in places;
    var rest := places - {k};
    if rest != {} {
      var first := FirstPlace(ms, rest);
      EarlierTotal(ms, k, first);
      if Earlier(ms, first, k) {
        k := first;
      }
    }
    forall p <- places ensures !Earlier(ms, p, k) {
      assert p in rest || p !in rest;
    }
  }

  /** The unskipped milestones that hold a member. */
  ghost function Places(b: Board, waiting: set<string>): set<nat> {
    set k: nat | k < |b.milestones| && !b.milestones[k].skipped && HoldsOne(b, waiting, k)
  }

  ghost predicate HoldsOne(b: Board, waiting: set<string>, k: nat)
    requires k < |b.milestones|
  {
    exists y :: y in waiting && y in b.w.assignments && b.w.assignments[y].milestone == b.milestones[k].id
  }

  /** Nothing is doomed in an orderable mission: look at the first milestone that holds a member. */
  lemma OrderableFree(b: Board, manifest: Manifest, m: string, waiting: set<string>)
    requires NeedsWithin(b.w.assignments, manifest, m) && Orderable(b, manifest, m)
    requires Doomed(b, manifest, waiting) && WorkOf(b.w.assignments, m, waiting)
    ensures waiting == {}
  {
    hide Earlier, Needs, Acyclic, Inverted;
    var a, ms := b.w.assignments, b.milestones;
    if waiting != {} {
      var x :| x in waiting;
      var kx: nat :| kx < |ms| && ms[kx].id == a[x].milestone && !ms[kx].skipped;
      assert HoldsOne(b, waiting, kx);
      assert kx in Places(b, waiting);
      var k := FirstPlace(ms, Places(b, waiting));
      var edges := NeedEdges(a, manifest, m);
      var nodes := set y | y in waiting && a[y].milestone == ms[k].id;
      var y :| y in waiting && a[y].milestone == ms[k].id;
      assert y in nodes;
      forall id <- nodes ensures HasPredecessor(edges, nodes, id) {
        FirstStarved(b, manifest, m, waiting, k, id);
      }
      PredecessorsCycle(edges, nodes);
      assert false;
    }
  }

  /** A member in the first milestone of the set waits for another one there. */
  lemma FirstStarved(b: Board, manifest: Manifest, m: string, waiting: set<string>, k: nat, id: string)
    requires NeedsWithin(b.w.assignments, manifest, m) && Orderable(b, manifest, m)
    requires Doomed(b, manifest, waiting) && WorkOf(b.w.assignments, m, waiting)
    requires k in Places(b, waiting) && forall p <- Places(b, waiting) :: !Earlier(b.milestones, p, k)
    requires id in waiting && b.w.assignments[id].milestone == b.milestones[k].id
    ensures exists d :: d in waiting && d in b.w.assignments && b.w.assignments[d].milestone == b.milestones[k].id
                        && (d, id) in NeedEdges(b.w.assignments, manifest, m)
  {
    hide Earlier, Needs, Acyclic;
    var a, ms := b.w.assignments, b.milestones;
    NotBarredFirst(b, m, waiting, k, id);
    assert Starved(a, manifest, waiting, id);
    var d :| d in Needs(a, manifest, id) && (d in waiting || d !in a);
    assert OfMission(a, m, d);
    assert (d, id) in NeedEdges(a, manifest, m);
    if a[d].milestone != ms[k].id {
      var j: nat :| j < |ms| && ms[j].id == a[d].milestone && !ms[j].skipped && !Leads(ms, a[id].milestone, j);
      assert HoldsOne(b, waiting, j);
      assert j in Places(b, waiting);
      assert !Earlier(ms, k, j);
      EarlierTotal(ms, j, k);
      assert false;
    }
  }

  lemma NotBarredFirst(b: Board, m: string, waiting: set<string>, k: nat, id: string)
    requires WorkOf(b.w.assignments, m, waiting)
    requires k in Places(b, waiting) && forall p <- Places(b, waiting) :: !Earlier(b.milestones, p, k)
    requires id in waiting && b.w.assignments[id].milestone == b.milestones[k].id
    ensures !Barred(b, waiting, id)
  {
    hide Earlier;
    var a, ms := b.w.assignments, b.milestones;
    forall y | y in waiting && OfMission(a, a[id].mission, y) ensures !Leads(ms, a[y].milestone, k) {
      forall j: nat | j < |ms| && ms[j].id == a[y].milestone && !ms[j].skipped ensures !Earlier(ms, j, k) {
        assert HoldsOne(b, waiting, j);
        assert j in Places(b, waiting);
      }
    }
  }

  /** Conversely a cycle, an edge against the order and work in no open milestone are doomed. */
  lemma UnorderableDoomed(b: Board, manifest: Manifest, m: string) returns (id: string)
    requires NeedsWithin(b.w.assignments, manifest, m) && !Orderable(b, manifest, m)
    ensures OfMission(b.w.assignments, m, id) && HeldUp(b, manifest, m, id)
  {
    hide Earlier, Needs, Leads;
    var a, edges := b.w.assignments, NeedEdges(b.w.assignments, manifest, m);
    if p :| Cycle(edges, p) {
      id := p[0];
      CycleDoomed(b, manifest, m, p);
    } else if d, x :| (d, x) in edges && d in a && x in a && a[d].milestone != a[x].milestone
                      && Inverted(b.milestones, a[d].milestone, a[x].milestone) {
      id := x;
      var waiting := {d, x};
      assert OfMission(a, m, d) && OfMission(a, m, x);
      assert Starved(a, manifest, waiting, x);
      assert Barred(b, waiting, d) by {
        assert x in waiting && OfMission(a, a[d].mission, x);
      }
      assert Doomed(b, manifest, waiting) && WorkOf(a, m, waiting);
    } else {
      assert Acyclic(edges);
      var x :| x in a && a[x].mission == m && !Listed(b.milestones, a[x].milestone);
      UnlistedDoomed(b, manifest, m, x);
      id := x;
    }
  }

  lemma UnlistedDoomed(b: Board, manifest: Manifest, m: string, id: string)
    requires OfMission(b.w.assignments, m, id) && !Listed(b.milestones, b.w.assignments[id].milestone)
    ensures HeldUp(b, manifest, m, id)
  {
    var waiting := {id};
    assert Barred(b, waiting, id);
    assert id in waiting && Doomed(b, manifest, waiting) && WorkOf(b.w.assignments, m, waiting);
  }

  lemma CycleDoomed(b: Board, manifest: Manifest, m: string, p: seq<string>)
    requires NeedsWithin(b.w.assignments, manifest, m) && Cycle(NeedEdges(b.w.assignments, manifest, m), p)
    ensures OfMission(b.w.assignments, m, p[0]) && HeldUp(b, manifest, m, p[0])
  {
    hide Needs, Barred;
    var a, edges, waiting := b.w.assignments, NeedEdges(b.w.assignments, manifest, m), Elements(p);
    forall id <- waiting ensures OfMission(a, m, id) && Starved(a, manifest, waiting, id) {
      var i :| 0 <= i < |p| && p[i] == id;
      var j := if i == 0 then |p| - 1 else i;
      assert (p[j - 1], p[j - 1 + 1]) in edges;
      assert p[j - 1] in waiting;
    }
    assert Doomed(b, manifest, waiting) && WorkOf(a, m, waiting) && p[0] in waiting;
  }

  // ---------------------------------------------------------------- finishing

  lemma {:induction false} PlayAtRest(b: Board, manifest: Manifest, turns: seq<Turn>)
    requires Initial(b.w)
    ensures AtRest(Play(b, manifest, turns).b.w) && SamePlan(b, Play(b, manifest, turns).b)
  {
    hide AtRest, TakeTurn, Grows, Initial;
    if turns == [] {
      InitialAtRest(b.w);
      GrowsReflexive(b.w.assignments);
    } else {
      PlayAtRest(b, manifest, turns[..|turns| - 1]);
      var s, last := Play(b, manifest, turns[..|turns| - 1]), turns[|turns| - 1];
      TurnAtRest(s, manifest, last);
      TurnKeepsPlan(s, manifest, last);
      GrowsTransitive(b.w.assignments, s.b.w.assignments, TakeTurn(s, manifest, last).b.w.assignments);
    }
  }

  lemma TurnAtRest(s: Session, manifest: Manifest, t: Turn)
    requires AtRest(s.b.w)
    ensures AtRest(TakeTurn(s, manifest, t).b.w)
  {
    hide AtRest, ScheduleNext, Apply;
    match t
    case Ask(m, advanced) => AskMovesCursor(s.b, m, manifest(m), advanced);
    case Happens(h) =>
      if h.Operate? {
        ApplyAtRest(s.b.w, h.op, h.ok);
      }
  }

  /** The mission is handed over to validation, which `complete` does only when all its work is completed. */
  ghost predicate Finishes(b: Board, manifest: Manifest, m: string, turns: seq<Turn>) {
    var w := Play(b, manifest, turns).b.w;
    m in w.missions && w.missions[m] == Validating
  }

  /**
   A mission can be finished by dispatching only what `schedule()` answers exactly when it is orderable,
   and then without a pause, a failure or a cancellation.
   */
  lemma FinishableExactly(b: Board, manifest: Manifest, m: string)
    requires Initial(b.w) && m in b.w.missions && NeedsWithin(b.w.assignments, manifest, m)
    ensures (exists turns :: Finishes(b, manifest, m, turns)) <==> Orderable(b, manifest, m)
    ensures (exists turns :: Finishes(b, manifest, m, turns) && AllPlain(turns, m)) <==> Orderable(b, manifest, m)
  {
    hide Play, Orderable, NeedsWithin, Initial, HeldUp, Finishes, AllPlain;
    if Orderable(b, manifest, m) {
      var turns := FinishingRun(b, manifest, m);
    } else {
      var id := UnorderableDoomed(b, manifest, m);
      forall turns ensures !Finishes(b, manifest, m, turns) {
        if Finishes(b, manifest, m, turns) {
          FinishedDone(b, manifest, m, turns, id);
          HeldUpForever(b, manifest, m, id);
          assert false;
        }
      }
    }
  }

  lemma FinishedDone(b: Board, manifest: Manifest, m: string, turns: seq<Turn>, id: string)
    requires Initial(b.w) && Finishes(b, manifest, m, turns) && OfMission(b.w.assignments, m, id)
    ensures CanComplete(b, manifest, id)
  {
    hide Play;
    PlayAtRest(b, manifest, turns);
    assert Done(Play(b, manifest, turns).b.w.assignments, id);
  }

  lemma FinishingRun(b: Board, manifest: Manifest, m: string) returns (turns: seq<Turn>)
    requires Initial(b.w) && m in b.w.missions && NeedsWithin(b.w.assignments, manifest, m) && Orderable(b, manifest, m)
    ensures Finishes(b, manifest, m, turns) && AllPlain(turns, m)
  {
    hide Play, Orderable, NeedsWithin, Initial, Doomed, OnTrack, Apply, Grows;
    var start := Begun(b, manifest, m);
    turns := AllItCan(b, manifest, start, m);
    var s := Play(b, manifest, turns);
    GrowsKeys(b.w.assignments, s.b.w.assignments);
    OrderableFree(b, manifest, m, Unfinished(s.b.w.assignments, m));
    var t := Happens(Operate(Finish(m), true));
    PlaySnoc(b, manifest, turns, t);
    FinishAccepted(s.b.w, m);
    assert Plain(t, m);
    turns := turns + [t];
  }

  lemma FinishAccepted(w: World, m: string)
    requires OnTrack(w, m) && w.missions[m] == Active && Unfinished(w.assignments, m) == {}
    ensures var u := Apply(w, Finish(m), true); m in u.missions && u.missions[m] == Validating
  {
    forall id <- w.assignments | w.assignments[id].mission == m ensures w.assignments[id].status == Completed {
      assert id !in Unfinished(w.assignments, m);
    }
  }

  /**
   In an orderable mission `schedule()` answers at every point of every run without fail and cancel at
   which work is unfinished, none of it is in anybody's hands, and nothing outside is in the way.
   */
  lemma OrderableAnswers(b: Board, manifest: Manifest, turns: seq<Turn>, m: string)
    requires Initial(b.w) && m in b.w.missions && NeedsWithin(b.w.assignments, manifest, m) && Orderable(b, manifest, m)
    requires forall t <- turns :: !(t.Happens? && t.h.Operate? && GivesUp(t.h.op, m))
    requires var c := Play(b, manifest, turns).b;
             m in c.w.missions && c.w.missions[m] == Active && Cooperative(c, m) && AllFit(c, m) && !Busy(c, m)
             && Unfinished(c.w.assignments, m) != {}
    ensures var c := Play(b, manifest, turns).b;
            var answer := ScheduleNext(c, m, manifest(m), true).1;
            (answer.Answered? || answer.Unsatisfied?) && (Covered(c.w.assignments, manifest, m) ==> answer.Answered?)
  {
    hide Play, OnTrack, Initial, Cooperative, AllFit, Busy, Covered, ScheduleNext, NeedsWithin, Doomed, Orderable,
         Grows;
    var c := Play(b, manifest, turns).b;
    WithinContained(b.w.assignments, manifest, m);
    PlayOnTrack(b, manifest, turns, m);
    GrowsKeys(b.w.assignments, c.w.assignments);
    if Doomed(b, manifest, Unfinished(c.w.assignments, m)) {
      OrderableFree(b, manifest, m, Unfinished(c.w.assignments, m));
    }
    NeverIdle(b, manifest, turns, m);
  }

  // ---------------------------------------------------------------- a mission that gets stuck

  /** Work "a" of the first milestone depends on work "b" of the second one. */
  const BACKWARDS: Board := Board(
    World(map["a" := Assignment("m", Pending, ["b"], "M1"), "b" := Assignment("m", Pending, [], "M2")],
          map["m" := Planned], []),
    [Milestone("M1", 1, false), Milestone("M2", 2, false)],
    map[], Some("M1"), Some("m"), {"a", "b"}, {}, false, true, false, true)

  /** Once started, `schedule()` answers NO_WORK although "b" is ready, and neither is ever begun. */
  lemma IdleWitness(turns: seq<Turn>)
    ensures var c := Happen(BACKWARDS, Operate(Start("m"), true));
            Dispatchable(c, "m", "b") && ScheduleNext(c, "m", [], true).1 == Idle
    ensures var a := Play(BACKWARDS, _ => [], turns).b.w.assignments;
            "a" in a && "b" in a && !Entered(a["a"].status) && !Entered(a["b"].status)
  {
    hide *;
    BackwardsIdle();
    BackwardsStuck(turns);
  }

  lemma BackwardsIdle()
    ensures var c := Happen(BACKWARDS, Operate(Start("m"), true));
            Dispatchable(c, "m", "b") && ScheduleNext(c, "m", [], true).1 == Idle
  {
    hide Computed, ScheduleNext, Apply;
    var c := Happen(BACKWARDS, Operate(Start("m"), true));
    BackwardsStarted(c);
    BackwardsComputed(c);
    IdleExactly(c, "m", [], true);
  }

  lemma BackwardsStuck(turns: seq<Turn>)
    ensures var a := Play(BACKWARDS, _ => [], turns).b.w.assignments;
            "a" in a && "b" in a && !Entered(a["a"].status) && !Entered(a["b"].status)
  {
    hide Play, Inverted;
    var a := BACKWARDS.w.assignments;
    BackwardsInverted();
    assert "b" in a["a"].deps;
    assert "b" in Needs(a, _ => [], "a");
    StuckForever(BACKWARDS, _ => [], "m", "b", "a", turns);
  }

  lemma BackwardsStarted(c: Board)
    requires c == Happen(BACKWARDS, Operate(Start("m"), true))
    ensures c.w.missions == map["m" := Active]
    ensures c.w.assignments
            == map["a" := Assignment("m", Pending, ["b"], "M1"), "b" := Assignment("m", Ready, [], "M2")]
  {
    hide Candidates;
  }

  lemma BackwardsComputed(c: Board)
    requires c.milestones == BACKWARDS.milestones
    requires c.w.assignments
             == map["a" := Assignment("m", Pending, ["b"], "M1"), "b" := Assignment("m", Ready, [], "M2")]
    ensures Computed(c, "m") == Some("M1")
  {
    hide Computed;
    assert Relevant(c.w.assignments, "m", "M1", "a");
    assert Stops(c, "m", c.milestones[0]);
    assert StopsFirst(c, "m", c.milestones, 0);
    Barrier(c, "m");
  }

  lemma BackwardsInverted()
    ensures Inverted(BACKWARDS.milestones, "M2", "M1")
  {
    var ms := BACKWARDS.milestones;
    forall k: nat | k < |ms| && ms[k].id == "M2" ensures Leads(ms, "M1", k) {
      assert ms[0].id == "M1" && Earlier(ms, 0, k);
    }
  }
}
