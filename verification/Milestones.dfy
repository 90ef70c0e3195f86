/** Milestones, the resume plan, and what `schedule()` answers. */
module Milestones {
  import opened Prelude
  import opened Order
  import opened Graph
  import opened Execution
  import opened ExecutionRuns

  datatype Milestone = Milestone(id: string, order: int, skipped: bool)

  datatype Gate = Gate(milestone: string, green: bool)

  /** One dependency edge of the team manifest. */
  datatype Edge = Edge(source: string, target: string)

  /**
   The state that scheduling reads. `fit` holds the assignments whose agent is ready and verified,
   `stranded` those in progress whose agent has failed; `halting` is an unresolved stop risk, `sound`
   the integrity check, `blocked` a mission status of BLOCKED.
   */
  datatype Board = Board(
    w: World, milestones: seq<Milestone>, gates: map<string, Gate>, current: Option<string>, active: Option<string>,
    fit: set<string>, stranded: set<string>, halting: bool, sound: bool, blocked: bool, checkpointed: bool)

  // ---------------------------------------------------------------- the computed milestone

  function InsertByOrder(m: Milestone, s: seq<Milestone>): (r: seq<Milestone>) {
    if s == [] || m.order <= s[0].order then [m] + s else [s[0]] + InsertByOrder(m, s[1..])
  }

  /** `sorted(..., key=order)`, which is stable. */
  function ByOrder(s: seq<Milestone>): (r: seq<Milestone>) {
    if s == [] then [] else InsertByOrder(s[0], ByOrder(s[1..]))
  }

  predicate Relevant(a: Assignments, m: string, milestone: string, id: string) {
    id in a && a[id].milestone == milestone && a[id].mission == m
  }

  predicate HasWork(a: Assignments, m: string, milestone: string) {
    exists id <- a :: Relevant(a, m, milestone, id)
  }

  /** All work of the mission in the milestone is completed and the milestone's gates are green. */
  predicate Passed(b: Board, m: string, milestone: string) {
    && (forall id <- b.w.assignments ::
        Relevant(b.w.assignments, m, milestone, id) ==> b.w.assignments[id].status == Completed)
    && (forall g <- b.gates :: b.gates[g].milestone == milestone ==> b.gates[g].green)
  }

  /** The milestone stops the mission: it is not skipped, holds work, and is not passed. */
  predicate Stops(b: Board, m: string, s: Milestone) {
    !s.skipped && HasWork(b.w.assignments, m, s.id) && !Passed(b, m, s.id)
  }

  /**
   A milestone stops the mission exactly when it is not skipped, holds work of the mission, and some of that
   work is not completed or one of its gates is not green.
   */
  lemma StopsExactly(b: Board, m: string, s: Milestone)
    ensures Stops(b, m, s) <==>
            && !s.skipped
            && (exists id :: OfMission(b.w.assignments, m, id) && b.w.assignments[id].milestone == s.id)
            && ((exists id :: OfMission(b.w.assignments, m, id) && b.w.assignments[id].milestone == s.id
                              && b.w.assignments[id].status != Completed)
                || exists g :: g in b.gates && b.gates[g].milestone == s.id && !b.gates[g].green)
  {
    var a := b.w.assignments;
    assert forall id :: Relevant(a, m, s.id, id) <==> OfMission(a, m, id) && a[id].milestone == s.id;
    if id :| OfMission(a, m, id) && a[id].milestone == s.id {
      assert Relevant(a, m, s.id, id);
    }
  }

  /** The index of the first milestone that stops the mission, or the length. */
  function FirstStop(b: Board, m: string, s: seq<Milestone>): (i: nat)
    ensures i <= |s|
    ensures i < |s| ==> Stops(b, m, s[i])
    ensures forall j :: 0 <= j < i ==> !Stops(b, m, s[j])
  {
    if s == [] || Stops(b, m, s[0]) then 0 else 1 + FirstStop(b, m, s[1..])
  }

  /** `_computed_milestone` for an active mission. */
  function Computed(b: Board, m: string): Option<string> {
    var s := ByOrder(b.milestones);
    var i := FirstStop(b, m, s);
    if i < |s| then Some(s[i].id) else None
  }

  ghost predicate Ascending(s: seq<Milestone>) {
    forall i, j :: 0 <= i < j < |s| ==> s[i].order <= s[j].order
  }

  lemma {:induction false} InsertAscending(m: Milestone, s: seq<Milestone>)
    requires Ascending(s)
    ensures Ascending(InsertByOrder(m, s))
    ensures forall x :: x in InsertByOrder(m, s) <==> x == m || x in s
  {
    if s != [] && m.order > s[0].order {
      var t := InsertByOrder(m, s[1..]);
      InsertAscending(m, s[1..]);
      assert s == [s[0]] + s[1..];
      forall j | 0 <= j < |t| ensures s[0].order <= t[j].order {
        assert t[j] in t;
      }
    } else if s != [] {
      assert forall j :: 0 < j < |s| ==> s[0].order <= s[j].order;
    }
  }

  lemma {:induction false} ByOrderAscending(s: seq<Milestone>)
    ensures Ascending(ByOrder(s)) && forall x :: x in ByOrder(s) <==> x in s
  {
    if s != [] {
      ByOrderAscending(s[1..]);
      InsertAscending(s[0], ByOrder(s[1..]));
      assert s == [s[0]] + s[1..];
    }
  }

  /** The milestone that `FirstStop` finds. */
  function StopOf(b: Board, m: string, s: seq<Milestone>): Option<Milestone> {
    var i := FirstStop(b, m, s);
    if i < |s| then Some(s[i]) else None
  }

  /** A stable sort puts an element before those of its order that follow it in the list. */
  lemma {:induction false} StopInsert(b: Board, m: string, h: Milestone, s: seq<Milestone>)
    requires Ascending(s)
    ensures StopOf(b, m, InsertByOrder(h, s)) ==
            match StopOf(b, m, s)
            case None => if Stops(b, m, h) then Some(h) else None
            case Some(e) => Some(if Stops(b, m, h) && h.order <= e.order then h else e)
  {
    hide Stops;
    if s != [] {
      StopStep(b, m, s);
      StopStep(b, m, InsertByOrder(h, s));
      StopWithin(b, m, s);
      if h.order > s[0].order {
        StopInsert(b, m, h, s[1..]);
        StopStep(b, m, s[1..]);
      } else {
        assert ([h] + s)[1..] == s;
      }
    }
  }

  lemma StopStep(b: Board, m: string, s: seq<Milestone>)
    ensures StopOf(b, m, s) == if s == [] then None else if Stops(b, m, s[0]) then Some(s[0]) else StopOf(b, m, s[1..])
  {
    hide Stops;
  }

  lemma StopWithin(b: Board, m: string, s: seq<Milestone>)
    requires Ascending(s) && s != []
    ensures StopOf(b, m, s).Some? ==> s[0].order <= StopOf(b, m, s).value.order
  {
  }

  /** Milestone `j` comes before milestone `i`: lower order, or the same order and listed first. */
  predicate Earlier(ms: seq<Milestone>, j: nat, i: nat)
    requires i < |ms| && j < |ms|
  {
    ms[j].order < ms[i].order || (ms[j].order == ms[i].order && j < i)
  }

  lemma EarlierTotal(ms: seq<Milestone>, j: nat, i: nat)
    requires i < |ms| && j < |ms|
    ensures i == j || Earlier(ms, j, i) || Earlier(ms, i, j)
  {
  }

  /** Milestone `i` stops the mission and none before it does. */
  ghost predicate StopsFirst(b: Board, m: string, ms: seq<Milestone>, i: nat) {
    i < |ms| && Stops(b, m, ms[i]) && forall j: nat | j < |ms| && Earlier(ms, j, i) :: !Stops(b, m, ms[j])
  }

  lemma {:induction false} StopPlace(b: Board, m: string, ms: seq<Milestone>) returns (i: nat)
    ensures match StopOf(b, m, ByOrder(ms))
            case None => forall s <- ms :: !Stops(b, m, s)
            case Some(e) => StopsFirst(b, m, ms, i) && ms[i] == e
  {
    hide Stops, StopOf;
    i := 0;
    if ms == [] {
      StopStep(b, m, []);
    } else {
      var k := StopPlace(b, m, ms[1..]);
      ByOrderAscending(ms[1..]);
      StopInsert(b, m, ms[0], ByOrder(ms[1..]));
      assert forall j: nat | 0 < j < |ms| :: ms[j] == ms[1..][j - 1];
      match StopOf(b, m, ByOrder(ms[1..]))
      case None =>
        assert forall j: nat | 0 < j < |ms| :: !Stops(b, m, ms[j]);
      case Some(e) =>
        if !(Stops(b, m, ms[0]) && ms[0].order <= e.order) {
          i := k + 1;
        }
        forall j: nat | j < |ms| && Earlier(ms, j, i) ensures !Stops(b, m, ms[j]) {
          if j > 0 {
            assert Earlier(ms[1..], j - 1, k);
          }
        }
    }
  }

  /**
   The barrier: a milestone is computed exactly when it is not skipped, holds unfinished work or a gate
   that is not green, and every milestone before it, in the order and then in the list, is skipped,
   holds no work of the mission, or is passed; nothing is computed exactly when that is true of all.
   */
  lemma Barrier(b: Board, m: string)
    ensures forall c :: Computed(b, m) == Some(c) <==>
                        exists i: nat ::
                          i < |b.milestones| && StopsFirst(b, m, b.milestones, i) && b.milestones[i].id == c
    ensures Computed(b, m).None? <==> forall s <- b.milestones :: !Stops(b, m, s)
  {
    hide Stops, ByOrder;
    var k := StopPlace(b, m, b.milestones);
    forall i: nat | StopsFirst(b, m, b.milestones, i) ensures Computed(b, m) == Some(b.milestones[i].id) {
      assert b.milestones[i] in b.milestones;
      if StopsFirst(b, m, b.milestones, k) {
        EarlierTotal(b.milestones, i, k);
      }
    }
  }

  // ---------------------------------------------------------------- the computed milestone never moves back

  /** Work progressed and no gate that was green turned. */
  ghost predicate Progressed(b: Board, c: Board) {
    && Grows(b.w.assignments, c.w.assignments)
    && c.milestones == b.milestones
    && b.gates.Keys == c.gates.Keys
    && forall g <- b.gates :: c.gates[g].milestone == b.gates[g].milestone && (b.gates[g].green ==> c.gates[g].green)
  }

  lemma PassedStays(b: Board, c: Board, m: string, milestone: string)
    requires Progressed(b, c)
    ensures HasWork(c.w.assignments, m, milestone) == HasWork(b.w.assignments, m, milestone)
    ensures Passed(b, m, milestone) ==> Passed(c, m, milestone)
  {
    var x, y := b.w.assignments, c.w.assignments;
    assert forall id :: Relevant(x, m, milestone, id) <==> Relevant(y, m, milestone, id);
    assert x.Keys == y.Keys;
    hide Relevant;
    if HasWork(x, m, milestone) {
      var id :| id in x && Relevant(x, m, milestone, id);
      assert id in y && Relevant(y, m, milestone, id);
    }
    if HasWork(y, m, milestone) {
      var id :| id in y && Relevant(y, m, milestone, id);
      assert id in x && Relevant(x, m, milestone, id);
    }
  }

  lemma {:induction false} StopForward(b: Board, c: Board, m: string, s: seq<Milestone>)
    requires Progressed(b, c)
    ensures FirstStop(b, m, s) <= FirstStop(c, m, s)
  {
    hide Progressed, Passed, HasWork;
    var i := FirstStop(c, m, s);
    if i < |s| {
      PassedStays(b, c, m, s[i].id);
      assert Stops(b, m, s[i]);
    }
  }

  /** `Note` replaces what the scheduler only reads besides work, milestones and gates. */
  datatype Happening =
    | Operate(op: Op, ok: bool)
    | TurnGreen(gate: string)
    | TurnRed(gate: string)
    | Note(current: Option<string>, active: Option<string>, fit: set<string>, stranded: set<string>,
           halting: bool, sound: bool, blocked: bool, checkpointed: bool)

  ghost function Happen(b: Board, h: Happening): Board {
    match h
    case Operate(op, ok) => b.(w := Apply(b.w, op, ok))
    case TurnGreen(g) => if g in b.gates then b.(gates := b.gates[g := b.gates[g].(green := true)]) else b
    case TurnRed(g) => if g in b.gates then b.(gates := b.gates[g := b.gates[g].(green := false)]) else b
    case Note(current, active, fit, stranded, halting, sound, blocked, checkpointed) =>
      Board(b.w, b.milestones, b.gates, current, active, fit, stranded, halting, sound, blocked, checkpointed)
  }

  ghost function RunBoard(b: Board, events: seq<Happening>): Board {
    if events == [] then b else Happen(RunBoard(b, events[..|events| - 1]), events[|events| - 1])
  }

  lemma HappenProgressed(b: Board, h: Happening)
    requires !h.TurnRed?
    ensures Progressed(b, Happen(b, h))
  {
    hide Apply, Grows;
    GrowsReflexive(b.w.assignments);
    if h.Operate? {
      ApplyGrows(b.w, h.op, h.ok);
    }
  }

  lemma ProgressedTransitive(b: Board, c: Board, d: Board)
    requires Progressed(b, c) && Progressed(c, d)
    ensures Progressed(b, d)
  {
    hide Grows;
    GrowsTransitive(b.w.assignments, c.w.assignments, d.w.assignments);
  }

  lemma {:induction false} RunProgressed(b: Board, events: seq<Happening>)
    requires forall h <- events :: !h.TurnRed?
    ensures Progressed(b, RunBoard(b, events))
  {
    hide Progressed, Happen;
    if events == [] {
      ProgressedReflexive(b);
    } else {
      var n := |events| - 1;
      assert events[n] in events;
      RunProgressed(b, events[..n]);
      HappenProgressed(RunBoard(b, events[..n]), events[n]);
      ProgressedTransitive(b, RunBoard(b, events[..n]), RunBoard(b, events));
    }
  }

  lemma ProgressedReflexive(b: Board)
    ensures Progressed(b, b)
  {
    hide Grows;
    GrowsReflexive(b.w.assignments);
  }

  /**
   Over every run of operations, gates turning green, and anything else the scheduler reads changing,
   the computed milestone never moves back.
   */
  lemma MilestoneForward(b: Board, m: string, events: seq<Happening>)
    requires forall h <- events :: !h.TurnRed?
    ensures var s := ByOrder(b.milestones);
            RunBoard(b, events).milestones == b.milestones && FirstStop(b, m, s) <= FirstStop(RunBoard(b, events), m, s)
  {
    hide RunBoard, FirstStop, Grows;
    RunProgressed(b, events);
    StopForward(b, RunBoard(b, events), m, ByOrder(b.milestones));
  }

  /**
   A gate that turns red moves it back exactly when it belongs to a milestone before the computed one
   that is not skipped and holds work of the mission.
   */
  lemma InvalidatedExactly(b: Board, m: string, gate: string)
    requires gate in b.gates
    ensures var s := ByOrder(b.milestones); var i := FirstStop(b, m, s);
            FirstStop(Happen(b, TurnRed(gate)), m, s) < i <==>
            exists j :: 0 <= j < i && s[j].id == b.gates[gate].milestone && !s[j].skipped
                        && HasWork(b.w.assignments, m, s[j].id)
  {
    hide HasWork, Passed;
    var c := Happen(b, TurnRed(gate));
    var s := ByOrder(b.milestones);
    var i, k := FirstStop(b, m, s), FirstStop(c, m, s);
    if k < i {
      assert Stops(c, m, s[k]) && !Stops(b, m, s[k]);
      if s[k].id != b.gates[gate].milestone {
        RedElsewhere(b, m, gate, s[k].id);
      }
    }
    if j :| 0 <= j < i && s[j].id == b.gates[gate].milestone && !s[j].skipped && HasWork(b.w.assignments, m, s[j].id) {
      RedHere(b, m, gate);
      assert Stops(c, m, s[j]);
    }
  }

  lemma RedElsewhere(b: Board, m: string, gate: string, milestone: string)
    requires gate in b.gates && milestone != b.gates[gate].milestone && Passed(b, m, milestone)
    ensures Passed(Happen(b, TurnRed(gate)), m, milestone)
  {
  }

  lemma RedHere(b: Board, m: string, gate: string)
    requires gate in b.gates
    ensures !Passed(Happen(b, TurnRed(gate)), m, b.gates[gate].milestone)
  {
    assert gate in Happen(b, TurnRed(gate)).gates;
  }

  // ---------------------------------------------------------------- the resume plan

  datatype Resumed =
    | SafetyHalt | NoWork | Mismatch(computed: Option<string>) | Stranded | NoCheckpoint | Plan(id: string)

  predicate Resumable(b: Board, m: string) {
    m in b.w.missions
    && match b.w.missions[m]
       case Dropped => false
       case Other => b.blocked
       case _ => true
  }

  /** What `resume` may plan next. */
  predicate Eligible(b: Board, m: string, id: string) {
    && id in b.w.assignments && b.w.assignments[id].mission == m
    && b.w.assignments[id].status == Ready
    && Computed(b, m) == Some(b.w.assignments[id].milestone)
    && id in b.fit
    && DepsDone(b.w.assignments, b.w.assignments[id].deps)
    && !b.halting
  }

  function EligibleSet(b: Board, m: string): set<string> {
    set id | id in b.w.assignments && Eligible(b, m, id)
  }

  /** The least id, whatever the order in which the dictionary lists them. */
  ghost function Least(ids: set<string>): Option<string> {
    if ids == {} then None else Some(SortedKeys(ids)[0])
  }

  ghost function ResumePlan(b: Board): Resumed {
    if !b.sound then SafetyHalt
    else if b.active.None? then NoWork
    else
      var m := b.active.value;
      if !Resumable(b, m) then SafetyHalt
      else if Computed(b, m) != b.current then Mismatch(Computed(b, m))
      else if b.stranded != {} then Stranded
      else
        match Least(EligibleSet(b, m))
        case None => NoWork
        case Some(id) => if b.checkpointed then Plan(id) else NoCheckpoint
  }

  lemma LeastIsLeast(ids: set<string>)
    ensures ids == {} <==> Least(ids).None?
    ensures ids != {} ==>
              Least(ids).value in ids && forall x <- ids :: x == Least(ids).value || Less(Least(ids).value, x)
  {
    var s := SortedKeys(ids);
    assert Elements(s) == ids;
    if ids != {} {
      assert s != [] by {
        var x :| x in ids;
        assert x in Elements(s);
      }
      assert s[0] in Elements(s);
      forall x <- ids ensures x == s[0] || Less(s[0], x) {
        assert x in Elements(s);
      }
    }
  }

  /** The candidate loop and `min`, over the dictionary in any order. */
  method Pick(b: Board, m: string, order: seq<string>) returns (best: Option<string>)
    requires Elements(order) == b.w.assignments.Keys
    ensures best == Least(EligibleSet(b, m))
    ensures best.None? <==> forall x :: x in b.w.assignments ==> !Eligible(b, m, x)
    ensures best.Some? ==> Eligible(b, m, best.value)
    ensures best.Some? ==> forall x :: Eligible(b, m, x) ==> x == best.value || Before(best.value, x)
  {
    hide Eligible, Less, SortedKeys, Before;
    best := None;
    for i := 0 to |order|
      invariant best.None? ==> forall x :: x in order[..i] ==> !Eligible(b, m, x)
      invariant best.Some? ==> best.value in order[..i] && Eligible(b, m, best.value)
      invariant best.Some? ==>
        forall x :: x in order[..i] && Eligible(b, m, x) ==> x == best.value || Less(best.value, x)
    {
      var id := order[i];
      assert order[..i + 1] == order[..i] + [id];
      if Eligible(b, m, id) {
        if best.None? {
          best := Some(id);
        } else if Less(id, best.value) {
          forall x | x in order[..i] && Eligible(b, m, x) ensures Less(id, x) {
            if x != best.value {
              LessTransitive(id, best.value, x);
            }
          }
          best := Some(id);
        } else {
          LessTotal(id, best.value);
        }
      }
    }
    assert order[..|order|] == order;
    assert forall x :: x in b.w.assignments <==> x in Elements(order);
    UniqueLeast(EligibleSet(b, m), best);
    if best.Some? {
      forall x | Eligible(b, m, x) ensures x == best.value || Before(best.value, x) {
        EligibleKnown(b, m, x);
        LessIsBefore(best.value, x);
      }
    }
  }

  lemma EligibleKnown(b: Board, m: string, id: string)
    requires Eligible(b, m, id)
    ensures id in b.w.assignments
  {
  }

  lemma UniqueLeast(ids: set<string>, best: Option<string>)
    requires best.None? ==> ids == {}
    requires best.Some? ==> best.value in ids && forall x <- ids :: x == best.value || Less(best.value, x)
    ensures best == Least(ids)
  {
    LeastIsLeast(ids);
    if best.Some? {
      LessTotal(best.value, Least(ids).value);
    }
  }

  // ---------------------------------------------------------------- schedule

  datatype Answer =
    | Halted | NoActiveMission | Recovery(computed: Option<string>) | Unsafe | Idle
    | Unsatisfied(id: string) | Answered(id: string)

  /** `schedule` for mission `m`: one milestone advance at most, then the plan. */
  ghost function ScheduleNext(b: Board, m: string, edges: seq<Edge>, advanced: bool): (Board, Answer) {
    if b.active != Some(m) then (b, NoActiveMission)
    else
      match ResumePlan(b)
      case Mismatch(Some(c)) =>
        if !advanced then (b, Halted)
        else
          var n := b.(current := Some(c));
          (n, AnswerPlan(n, edges, ResumePlan(n)))
      case plan => (b, AnswerPlan(b, edges, plan))
  }

  ghost function AnswerPlan(b: Board, edges: seq<Edge>, plan: Resumed): Answer {
    match plan
    case SafetyHalt => Unsafe
    case Mismatch(c) => Recovery(c)
    case Stranded => Recovery(b.current)
    case NoCheckpoint => Recovery(b.current)
    case NoWork => Idle
    case Plan(id) =>
      if exists e <- edges :: e.target == id && !Done(b.w.assignments, e.source) then Unsatisfied(id) else Answered(id)
  }

  /** The cursor does not enter the computation it is compared with. */
  lemma {:induction false} CursorIgnored(b: Board, m: string, c: Option<string>)
    ensures Computed(b.(current := c), m) == Computed(b, m)
  {
    hide ByOrder;
    SameStops(b, b.(current := c), m, ByOrder(b.milestones));
  }

  lemma {:induction false} SameStops(b: Board, c: Board, m: string, s: seq<Milestone>)
    requires c.w == b.w && c.gates == b.gates
    ensures FirstStop(c, m, s) == FirstStop(b, m, s)
  {
    if s != [] {
      assert Stops(c, m, s[0]) == Stops(b, m, s[0]);
      SameStops(b, c, m, s[1..]);
    }
  }

  /** The first eligible id, and nothing before it is eligible. */
  ghost predicate FirstEligible(b: Board, m: string, id: string) {
    Eligible(b, m, id) && forall x :: Eligible(b, m, x) ==> x == id || Before(id, x)
  }

  /**
   Every answer of `schedule` and the board it leaves, from what can be read off the board: the checks in
   their order, the milestone advance, and then the first eligible id.
   */
  lemma ScheduleTable(b: Board, m: string, edges: seq<Edge>, advanced: bool)
    ensures var (n, answer) := ScheduleNext(b, m, edges, advanced); var c := Computed(b, m);
            if b.active != Some(m) then answer == NoActiveMission && n == b
            else if !b.sound || m !in b.w.missions || b.w.missions[m] == Dropped
                    || (b.w.missions[m] == Other && !b.blocked) then answer == Unsafe && n == b
            else if c != b.current && c.Some? && !advanced then answer == Halted && n == b
            else if c != b.current && c.None? then answer == Recovery(None) && n == b
            else
              n == b.(current := c)
              && if b.stranded != {} then answer == Recovery(c)
                 else if forall x :: !Eligible(b, m, x) then answer == Idle
                 else if !b.checkpointed then answer == Recovery(c)
                 else exists id ::
                   FirstEligible(b, m, id)
                   && answer == if exists e <- edges :: e.target == id && !Done(b.w.assignments, e.source)
                                then Unsatisfied(id) else Answered(id)
  {
    hide Computed, Least, Eligible, DepsDone, Before;
    var c := Computed(b, m);
    var n := b.(current := c);
    CursorIgnored(b, m, c);
    SameEligible(b, n, m);
    LeastFirst(b, m);
    assert EligibleSet(n, m) == EligibleSet(b, m);
    if b.current == c {
      assert n == b;
    }
  }

  lemma SameEligible(b: Board, n: Board, m: string)
    requires n == b.(current := n.current)
    ensures forall x :: Eligible(n, m, x) <==> Eligible(b, m, x)
  {
    hide Computed, DepsDone;
    CursorIgnored(b, m, n.current);
  }

  lemma LeastFirst(b: Board, m: string)
    ensures EligibleSet(b, m) == {} <==> forall x :: !Eligible(b, m, x)
    ensures EligibleSet(b, m) == {} <==> Least(EligibleSet(b, m)) == None
    ensures EligibleSet(b, m) != {} ==>
              Least(EligibleSet(b, m)).Some? && FirstEligible(b, m, Least(EligibleSet(b, m)).value)
  {
    hide Eligible, Less, Least, Before;
    LeastIsLeast(EligibleSet(b, m));
    forall x | Eligible(b, m, x) ensures x in EligibleSet(b, m) {
      EligibleKnown(b, m, x);
    }
    if EligibleSet(b, m) != {} {
      var id := Least(EligibleSet(b, m)).value;
      forall x | Eligible(b, m, x) ensures x == id || Before(id, x) {
        LessIsBefore(id, x);
      }
    }
  }

  /** After a successful advance the retried plan cannot report a mismatch again. */
  lemma AdvanceSettles(b: Board, m: string)
    requires b.active == Some(m) && ResumePlan(b) == Mismatch(Computed(b, m)) && Computed(b, m).Some?
    ensures !ResumePlan(b.(current := Computed(b, m))).Mismatch?
  {
    hide Computed, EligibleSet, Least;
    CursorIgnored(b, m, Computed(b, m));
  }

  /**
   A mismatch is answered exactly when every milestone is passed while the cursor still points at
   one: then there is nothing to advance to.
   */
  lemma MismatchExactly(b: Board, m: string, edges: seq<Edge>)
    requires b.active == Some(m) && b.sound && Resumable(b, m) && b.stranded == {} && b.checkpointed
    ensures ScheduleNext(b, m, edges, true).1.Recovery? <==> Computed(b, m).None? && b.current.Some?
  {
    hide Computed, EligibleSet, Least;
    CursorIgnored(b, m, Computed(b, m));
  }

  /**
   When an assignment is answered it is the least eligible id: ready, of this mission and of the
   current milestone, with all dependencies completed; the cursor is the computed milestone, and every
   milestone before it is skipped, holds no work of the mission, or is passed; and each edge of the
   manifest into it is satisfied.
   */
  lemma AnsweredMeans(b: Board, m: string, edges: seq<Edge>, advanced: bool, id: string) returns (top: nat)
    requires ScheduleNext(b, m, edges, advanced).1 == Answered(id)
    ensures var n := ScheduleNext(b, m, edges, advanced).0;
            && n == b.(current := n.current) && n.current == Computed(n, m) == Computed(b, m)
            && Schedulable(n.w.assignments, id) && n.w.assignments[id].mission == m
            && StopsFirst(n, m, n.milestones, top) && n.w.assignments[id].milestone == n.milestones[top].id
            && n.current == Some(n.milestones[top].id)
            && (forall x <- EligibleSet(n, m) :: x == id || Before(id, x))
            && (forall e <- edges :: e.target == id ==> Done(n.w.assignments, e.source))
  {
    hide Computed, Least, Less, Before, DepsDone, StopsFirst;
    var n := ScheduleNext(b, m, edges, advanced).0;
    CursorIgnored(b, m, n.current);
    LeastIsLeast(EligibleSet(n, m));
    forall x <- EligibleSet(n, m) ensures x == id || Before(id, x) {
      LessIsBefore(id, x);
    }
    Barrier(n, m);
    top :| top < |n.milestones| && StopsFirst(n, m, n.milestones, top) && n.milestones[top].id == n.current.value;
  }

  // ---------------------------------------------------------------- no work to answer

  /** Work that could be dispatched now, in whatever milestone it is. */
  predicate Dispatchable(b: Board, m: string, id: string) {
    Schedulable(b.w.assignments, id) && b.w.assignments[id].mission == m && id in b.fit
  }

  /** `schedule` reaches the candidate loop, after its milestone advance if there is one. */
  ghost predicate Settled(b: Board, m: string, advanced: bool) {
    && b.active == Some(m) && b.sound && Resumable(b, m) && b.stranded == {}
    && (b.current == Computed(b, m) || (advanced && Computed(b, m).Some?))
  }

  /**
   `schedule` answers NO_WORK exactly when it reaches the candidate loop and either a stop risk is
   open or all runnable work of the mission lies outside the computed milestone.
   */
  lemma IdleExactly(b: Board, m: string, edges: seq<Edge>, advanced: bool)
    ensures ScheduleNext(b, m, edges, advanced).1 == Idle <==>
            && Settled(b, m, advanced)
            && (b.halting || forall id <- b.w.assignments ::
                  Dispatchable(b, m, id) ==> Computed(b, m) != Some(b.w.assignments[id].milestone))
  {
    hide Computed, Least, DepsDone;
    var n := b.(current := Computed(b, m));
    CursorIgnored(b, m, Computed(b, m));
    LeastIsLeast(EligibleSet(b, m));
    LeastIsLeast(EligibleSet(n, m));
    EligibleExactly(b, m);
    EligibleExactly(n, m);
  }

  lemma EligibleExactly(b: Board, m: string)
    ensures EligibleSet(b, m) == {} <==>
            b.halting || forall id <- b.w.assignments ::
              Dispatchable(b, m, id) ==> Computed(b, m) != Some(b.w.assignments[id].milestone)
  {
    hide Computed, DepsDone;
    if EligibleSet(b, m) == {} && !b.halting {
      forall id <- b.w.assignments | Dispatchable(b, m, id)
        ensures Computed(b, m) != Some(b.w.assignments[id].milestone)
      {
        assert id !in EligibleSet(b, m);
        assert !Eligible(b, m, id);
      }
    }
  }

  /**
   Where unfinished work outside the computed milestone lies: every milestone of that name is skipped,
   or comes after the computed one.
   */
  lemma UnfinishedElsewhere(b: Board, m: string, id: string, top: nat)
    requires StopsFirst(b, m, b.milestones, top)
    requires OfMission(b.w.assignments, m, id) && b.w.assignments[id].status != Completed
    requires b.w.assignments[id].milestone != b.milestones[top].id
    ensures forall j: nat | j < |b.milestones| && b.milestones[j].id == b.w.assignments[id].milestone ::
              b.milestones[j].skipped || Earlier(b.milestones, top, j)
  {
    forall j: nat | j < |b.milestones| && b.milestones[j].id == b.w.assignments[id].milestone
      ensures b.milestones[j].skipped || Earlier(b.milestones, top, j)
    {
      assert Relevant(b.w.assignments, m, b.milestones[j].id, id);
      EarlierTotal(b.milestones, j, top);
    }
  }

  /** The work of the mission in one milestone. */
  predicate Within(a: Assignments, m: string, milestone: string, id: string) {
    OfMission(a, m, id) && a[id].milestone == milestone
  }

  /** Some unfinished work of the milestone waits for nothing inside the milestone. */
  lemma FreeWithin(a: Assignments, m: string, milestone: string) returns (id: string)
    requires Acyclic(DependencyEdges(a, m))
    requires exists x :: Within(a, m, milestone, x) && a[x].status != Completed
    ensures Within(a, m, milestone, id) && a[id].status != Completed
    ensures forall d <- a[id].deps :: Within(a, m, milestone, d) ==> a[d].status == Completed
  {
    hide Acyclic;
    var edges := DependencyEdges(a, m);
    var nodes := set x | x in a && Within(a, m, milestone, x) && a[x].status != Completed;
    var unfinished :| Within(a, m, milestone, unfinished) && a[unfinished].status != Completed;
    assert unfinished in nodes;
    if forall v <- nodes :: HasPredecessor(edges, nodes, v) {
      PredecessorsCycle(edges, nodes);
      assert false;
    }
    id :| id in nodes && !HasPredecessor(edges, nodes, id);
    forall d <- a[id].deps | Within(a, m, milestone, d) ensures a[d].status == Completed {
      assert (d, id) in edges;
    }
  }

  /**
   When work of a milestone is unfinished and none of it can move, some of it waits for an unfinished
   assignment of another milestone.
   */
  lemma WaitsElsewhere(w: World, m: string, milestone: string) returns (id: string, dep: string)
    requires OnTrack(w, m) && w.missions[m] == Active && Acyclic(DependencyEdges(w.assignments, m))
    requires exists x :: Within(w.assignments, m, milestone, x) && w.assignments[x].status != Completed
    requires forall x :: Within(w.assignments, m, milestone, x) ==> !Actionable(w.assignments, m, x)
    ensures Within(w.assignments, m, milestone, id) && w.assignments[id].status != Completed
    ensures dep in w.assignments[id].deps && OfMission(w.assignments, m, dep) && w.assignments[dep].status != Completed
    ensures w.assignments[dep].milestone != milestone
  {
    hide Acyclic, DependencyEdges;
    id := FreeWithin(w.assignments, m, milestone);
    assert OnTrackOne(w, m, id) && !Actionable(w.assignments, m, id);
    dep :| dep in w.assignments[id].deps && !Done(w.assignments, dep);
    assert OfMission(w.assignments, m, dep);
  }

  /** An unskipped milestone of this name comes before milestone `k`. */
  ghost predicate Leads(ms: seq<Milestone>, name: string, k: nat)
    requires k < |ms|
  {
    exists j: nat :: j < |ms| && ms[j].id == name && !ms[j].skipped && Earlier(ms, j, k)
  }

  /** Every unskipped milestone of name `before` comes after one of name `after`. */
  ghost predicate Inverted(ms: seq<Milestone>, before: string, after: string) {
    forall k: nat | k < |ms| && ms[k].id == before && !ms[k].skipped :: Leads(ms, after, k)
  }

  /** No edge between different milestones leads from a later one to an earlier one. */
  ghost predicate Aligned(b: Board, edges: Edges) {
    forall d, id | (d, id) in edges && d in b.w.assignments && id in b.w.assignments ::
      b.w.assignments[d].milestone == b.w.assignments[id].milestone
      || !Inverted(b.milestones, b.w.assignments[d].milestone, b.w.assignments[id].milestone)
  }

  /**
   No deadlock at the barrier: on runs without fail or cancel, with dependencies that respect the
   milestones, the computed milestone always holds work that can move, unless all its work is completed
   and only a gate is missing.
   */
  lemma BarrierMoves(w: World, events: seq<(Op, bool)>, b: Board, m: string, c: string) returns (id: string)
    requires Initial(w) && m in w.missions && SelfContained(w.assignments, m)
    requires Acyclic(DependencyEdges(w.assignments, m)) && forall e <- events :: !GivesUp(e.0, m)
    requires b.w == RunWorld(w, events) && m in b.w.missions && b.w.missions[m] == Active
    requires Aligned(b, DependencyEdges(w.assignments, m)) && Computed(b, m) == Some(c)
    requires exists x :: Within(b.w.assignments, m, c, x) && b.w.assignments[x].status != Completed
    ensures Within(b.w.assignments, m, c, id) && Actionable(b.w.assignments, m, id)
  {
    hide Acyclic, RunWorld, DepsDone, Initial, SelfContained, Grows, Computed, StopsFirst, Earlier, Actionable,
         Inverted;
    RunOnTrack(w, events, m);
    SameEdges(w.assignments, b.w.assignments, m);
    Barrier(b, m);
    var top: nat :| top < |b.milestones| && StopsFirst(b, m, b.milestones, top) && b.milestones[top].id == c;
    if forall x :: Within(b.w.assignments, m, c, x) ==> !Actionable(b.w.assignments, m, x) {
      var x, d := WaitsElsewhere(b.w, m, c);
      assert (d, x) in DependencyEdges(b.w.assignments, m);
      UnfinishedElsewhere(b, m, d, top);
      LaterInverted(b, m, top, d);
      assert false;
    }
    id :| Within(b.w.assignments, m, c, id) && Actionable(b.w.assignments, m, id);
  }

  lemma LaterInverted(b: Board, m: string, top: nat, d: string)
    requires StopsFirst(b, m, b.milestones, top) && d in b.w.assignments
    requires forall j: nat | j < |b.milestones| && b.milestones[j].id == b.w.assignments[d].milestone ::
               b.milestones[j].skipped || Earlier(b.milestones, top, j)
    ensures Inverted(b.milestones, b.w.assignments[d].milestone, b.milestones[top].id)
  {
    hide Earlier;
  }
}
