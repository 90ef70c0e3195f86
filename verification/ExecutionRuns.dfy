/** What holds over every run of the execution operations. */
module ExecutionRuns {
  import opened Prelude
  import opened Order
  import opened Graph
  import opened Execution

  // ---------------------------------------------------------------- one operation

  /** Assignments keep their mission, milestone and dependencies, and a completed one stays completed. */
  ghost predicate Grows(a: Assignments, b: Assignments) {
    && a.Keys == b.Keys
    && forall id <- a ::
       b[id].mission == a[id].mission && b[id].deps == a[id].deps && b[id].milestone == a[id].milestone
                         && (a[id].status == Completed ==> b[id].status == Completed)
  }

  lemma SetStatusGrows(a: Assignments, ids: set<string>, s: Status)
    requires forall id <- ids :: id in a ==> a[id].status != Completed
    ensures Grows(a, SetStatus(a, ids, s))
  {
  }

  lemma GrowsTransitive(a: Assignments, b: Assignments, c: Assignments)
    requires Grows(a, b) && Grows(b, c)
    ensures Grows(a, c)
  {
  }

  /** No operation leaves COMPLETED, whatever it is applied to. */
  lemma ApplyGrows(w: World, op: Op, ok: bool)
    ensures Grows(w.assignments, Apply(w, op, ok).assignments)
  {
    hide SetStatus, Candidates, DepsDone, Grows;
    var a := w.assignments;
    SetStatusGrows(a, {}, Ready);
    if ok && Accepts(w, op) && StoreAllows(w, op) {
      match op
      case Start(m) => SetStatusGrows(a, Roots(a, m), Ready);
      case Pause(m) => SetStatusGrows(a, Open(a, m), Interrupted);
      case Resume(m) => SetStatusGrows(a, WithStatus(a, m, Interrupted), Ready);
      case Cancel(m) => SetStatusGrows(a, Open(a, m), Cancelled);
      case Finish(_) =>
      case Complete(m, id) =>
        var done := SetStatus(a, {id}, Completed);
        SetStatusGrows(a, {id}, Completed);
        SetStatusGrows(done, Unlocked(done, m), Ready);
        GrowsTransitive(a, done, SetStatus(done, Unlocked(done, m), Ready));
      case Dispatch(_, id) => SetStatusGrows(a, {id}, InProgress);
      case Fail(_, id) => SetStatusGrows(a, {id}, Failed);
      case Block(_, id) => SetStatusGrows(a, {id}, Blocked);
      case Unblock(_, id) => SetStatusGrows(a, {id}, Ready);
    }
    RaiseNone(a, Ready);
  }

  lemma DepsStayDone(a: Assignments, b: Assignments, deps: seq<string>)
    requires Grows(a, b) && DepsDone(a, deps)
    ensures DepsDone(b, deps)
  {
    assert forall d <- deps :: Done(a, d);
  }

  // ---------------------------------------------------------------- runs in which scheduled work is dispatched

  /**
   `scheduled` collects the assignments that `schedule()` has answered, `offered` every id ever
   stored among the candidates.
   */
  datatype Track = Track(w: World, scheduled: set<string>, offered: set<string>)

  datatype Event = Do(op: Op, ok: bool) | Schedule(id: string)

  /** What an answer of `schedule()` has passed: ready, with every dependency completed. */
  predicate Schedulable(a: Assignments, id: string) {
    id in a && a[id].status == Ready && DepsDone(a, a[id].deps)
  }

  /** Only scheduled assignments are dispatched. */
  ghost function Advance(t: Track, e: Event): Track {
    match e
    case Schedule(id) => if Schedulable(t.w.assignments, id) then t.(scheduled := t.scheduled + {id}) else t
    case Do(op, ok) =>
      if op.Dispatch? && op.id !in t.scheduled then t
      else
        var w := Apply(t.w, op, ok);
        t.(w := w, offered := t.offered + Elements(w.candidates))
  }

  ghost function RunTrack(w: World, events: seq<Event>): Track {
    if events == [] then Track(w, {}, {}) else Advance(RunTrack(w, events[..|events| - 1]), events[|events| - 1])
  }

  /** Nothing has started: every mission is planned and every assignment pending. */
  ghost predicate Initial(w: World) {
    (forall id <- w.assignments :: w.assignments[id].status == Pending)
    && (forall m <- w.missions :: w.missions[m] == Planned)
    && w.candidates == []
  }

  ghost predicate AllDepsDone(a: Assignments, ids: set<string>) {
    forall id <- ids :: id in a && DepsDone(a, a[id].deps)
  }

  predicate Entered(s: Status) {
    s == InProgress || s == Completed
  }

  /** The completed set is closed under dependencies, and so is the work in progress. */
  ghost predicate Closed(a: Assignments) {
    forall id <- a :: Entered(a[id].status) ==> DepsDone(a, a[id].deps)
  }

  lemma AllDepsStay(a: Assignments, b: Assignments, ids: set<string>)
    requires Grows(a, b) && AllDepsDone(a, ids)
    ensures AllDepsDone(b, ids)
  {
    hide DepsDone;
    forall id <- ids ensures id in b && DepsDone(b, b[id].deps) {
      DepsStayDone(a, b, a[id].deps);
    }
  }

  /** Only a dispatch puts an assignment in progress, and only work in progress is completed. */
  lemma EntersFrom(w: World, op: Op, ok: bool, id: string)
    requires id in w.assignments && !Entered(w.assignments[id].status)
    requires id in Apply(w, op, ok).assignments && Entered(Apply(w, op, ok).assignments[id].status)
    ensures op.Dispatch? && op.id == id
  {
    hide Candidates, DepsDone;
  }

  lemma CandidatesDone(w: World, op: Op, ok: bool)
    requires Apply(w, op, ok).candidates != w.candidates
    ensures AllDepsDone(Apply(w, op, ok).assignments, Elements(Apply(w, op, ok).candidates))
  {
    hide DepsDone, SetStatus;
  }

  /**
   In every run in which each dispatch is of an assignment that `schedule()` answered, pauses and
   resumptions included: whatever is in progress or completed has all its dependencies completed,
   and so has every id ever stored among the candidates.
   */
  lemma {:induction false} ScheduledRuns(w: World, events: seq<Event>)
    requires Initial(w)
    ensures var t := RunTrack(w, events);
            && Closed(t.w.assignments)
            && AllDepsDone(t.w.assignments, t.scheduled)
            && AllDepsDone(t.w.assignments, t.offered + Elements(t.w.candidates))
  {
    hide Apply, DepsDone, Grows;
    if events != [] {
      var before := events[..|events| - 1];
      ScheduledRuns(w, before);
      AdvanceClosed(RunTrack(w, before), events[|events| - 1]);
    }
  }

  lemma AdvanceClosed(t: Track, e: Event)
    requires Closed(t.w.assignments) && AllDepsDone(t.w.assignments, t.scheduled)
    requires AllDepsDone(t.w.assignments, t.offered + Elements(t.w.candidates))
    ensures var u := Advance(t, e);
            && Closed(u.w.assignments)
            && AllDepsDone(u.w.assignments, u.scheduled)
            && AllDepsDone(u.w.assignments, u.offered + Elements(u.w.candidates))
  {
    hide Apply, DepsDone, Grows;
    if e.Do? && !(e.op.Dispatch? && e.op.id !in t.scheduled) {
      var a, u := t.w.assignments, Apply(t.w, e.op, e.ok);
      var b := u.assignments;
      ApplyGrows(t.w, e.op, e.ok);
      GrowsKeys(a, b);
      AllDepsStay(a, b, t.scheduled);
      AllDepsStay(a, b, t.offered + Elements(t.w.candidates));
      if u.candidates != t.w.candidates {
        CandidatesDone(t.w, e.op, e.ok);
      }
      forall id <- b | Entered(b[id].status) ensures DepsDone(b, b[id].deps) {
        if Entered(a[id].status) {
          DepsStayDone(a, b, a[id].deps);
        } else {
          EntersFrom(t.w, e.op, e.ok, id);
          assert id in t.scheduled;
        }
      }
    }
  }

  lemma GrowsKeys(a: Assignments, b: Assignments)
    requires Grows(a, b)
    ensures a.Keys == b.Keys && forall id <- a :: b[id].deps == a[id].deps && b[id].mission == a[id].mission
  {
  }

  // ---------------------------------------------------------------- runs without pause

  ghost function RunWorld(w: World, events: seq<(Op, bool)>): World {
    if events == [] then w
    else Apply(RunWorld(w, events[..|events| - 1]), events[|events| - 1].0, events[|events| - 1].1)
  }

  predicate Activated(s: Status) {
    s == Ready || s == InProgress || s == Completed || s == Blocked
  }

  /** Whatever has been activated has its dependencies completed, and nothing is interrupted. */
  ghost predicate Sequential(a: Assignments) {
    forall id <- a :: (Activated(a[id].status) ==> DepsDone(a, a[id].deps)) && a[id].status != Interrupted
  }

  lemma ApplySequential(w: World, op: Op, ok: bool)
    requires Sequential(w.assignments) && !op.Pause?
    ensures Sequential(Apply(w, op, ok).assignments)
  {
    hide DepsDone, Candidates, Grows;
    var a, b := w.assignments, Apply(w, op, ok).assignments;
    ApplyGrows(w, op, ok);
    GrowsKeys(a, b);
    forall id <- b ensures (Activated(b[id].status) ==> DepsDone(b, b[id].deps)) && b[id].status != Interrupted {
      if DepsDone(a, a[id].deps) {
        DepsStayDone(a, b, a[id].deps);
      }
      ActivatedFrom(w, op, ok, id);
    }
  }

  /** An assignment becomes active only as a root, by promotion, or by resumption. */
  lemma ActivatedFrom(w: World, op: Op, ok: bool, id: string)
    requires id in w.assignments && !op.Pause?
    ensures var a, b := w.assignments, Apply(w, op, ok).assignments;
            && id in b
            && (a[id].status != Interrupted ==> b[id].status != Interrupted)
            && (a[id].status != Interrupted && Activated(b[id].status) ==>
                Activated(a[id].status) || DepsDone(b, a[id].deps))
  {
    hide Candidates;
    var a, b := w.assignments, Apply(w, op, ok).assignments;
    if op.Complete? && ok && Accepts(w, op) {
      var done := SetStatus(a, {op.id}, Completed);
      if id in Unlocked(done, op.m) {
        assert forall d <- a[id].deps :: Done(done, d);
        assert forall d <- a[id].deps :: Done(b, d);
      }
    }
  }

  /** Without a pause, readiness alone implies that the dependencies are completed, for any dispatch. */
  lemma {:induction false} UnpausedRuns(w: World, events: seq<(Op, bool)>)
    requires Initial(w) && forall e <- events :: !e.0.Pause?
    ensures Sequential(RunWorld(w, events).assignments)
  {
    hide Apply, DepsDone;
    if events != [] {
      var last := events[|events| - 1];
      assert last in events;
      UnpausedRuns(w, events[..|events| - 1]);
      ApplySequential(RunWorld(w, events[..|events| - 1]), last.0, last.1);
    }
  }

  /** After a pause and a resumption it does not: pending work comes back ready. */
  lemma PauseBreaksOrder(w: World, id: string, dep: string, m: string)
    requires Initial(w) && m in w.missions && id in w.assignments && dep in w.assignments
    requires w.assignments[id].mission == m && dep in w.assignments[id].deps
    ensures var t := RunWorld(w, [(Start(m), true), (Pause(m), true), (Resume(m), true), (Dispatch(m, id), true)]);
            id in t.assignments && t.assignments[id].status == InProgress
            && dep in t.assignments && t.assignments[dep].status != Completed
            && !DepsDone(t.assignments, t.assignments[id].deps)
  {
    hide Candidates, DepsDone, SetStatus;
    var s1, s2, s3, s4 := (Start(m), true), (Pause(m), true), (Resume(m), true), (Dispatch(m, id), true);
    var w1 := Apply(w, s1.0, true);
    var w2 := Apply(w1, s2.0, true);
    var w3 := Apply(w2, s3.0, true);
    var w4 := Apply(w3, s4.0, true);
    assert RunWorld(w, [s1, s2, s3, s4]) == w4 by {
      hide Apply;
      assert [s1, s2, s3, s4][..3] == [s1, s2, s3] && [s1, s2, s3][..2] == [s1, s2];
      assert [s1, s2][..1] == [s1] && [s1][..0] == [];
      assert RunWorld(w, [s1]) == w1;
      assert RunWorld(w, [s1, s2]) == w2;
      assert RunWorld(w, [s1, s2, s3]) == w3;
    }
    assert w.missions[m] == Planned && w1.missions[m] == Active;
    assert w2.missions[m] == Paused && w3.missions[m] == Active;
    StartStatus(w, m, id);
    StartStatus(w, m, dep);
    PauseStatus(w1, m, id);
    ResumeStatus(w2, m, id);
    DispatchStatus(w3, m, id);
    NotCompleted(w1, Pause(m), dep);
    NotCompleted(w2, Resume(m), dep);
    NotCompleted(w3, Dispatch(m, id), dep);
    NotDone(w4.assignments, id, dep);
  }

  // ---------------------------------------------------------------- exactly which pauses are harmless

  /** What a caller can check before pausing: no pending assignment of the mission still waits for a dependency. */
  predicate PauseSafe(a: Assignments, m: string) {
    forall id <- a :: a[id].mission == m && a[id].status == Pending ==> DepsDone(a, a[id].deps)
  }

  /** Whatever is active, or will become ready by a resumption, has its dependencies completed. */
  ghost predicate Orderly(a: Assignments) {
    forall id <- a :: Activated(a[id].status) || a[id].status == Interrupted ==> DepsDone(a, a[id].deps)
  }

  /** A pause, entry by entry; it completes nothing. */
  lemma PauseEffect(w: World, m: string)
    requires m in w.missions && w.missions[m] == Active
    ensures var b := Apply(w, Pause(m), true).assignments;
            && b == SetStatus(w.assignments, Open(w.assignments, m), Interrupted)
            && (forall x :: Done(b, x) <==> Done(w.assignments, x))
  {
    hide Candidates;
  }

  /** A resumption, entry by entry; it completes nothing. */
  lemma ResumeEffect(w: World, m: string)
    requires m in w.missions && w.missions[m] == Paused
    ensures var b := Apply(w, Resume(m), true).assignments;
            && b == SetStatus(w.assignments, WithStatus(w.assignments, m, Interrupted), Ready)
            && (forall x :: Done(b, x) <==> Done(w.assignments, x))
  {
    hide Candidates;
  }

  /** A pause keeps the order exactly when it is safe. */
  lemma PauseExactly(w: World, m: string)
    requires m in w.missions && w.missions[m] == Active && Orderly(w.assignments)
    ensures Orderly(Apply(w, Pause(m), true).assignments) <==> PauseSafe(w.assignments, m)
  {
    hide Apply, Candidates, DepsDone, Done;
    var a, b := w.assignments, Apply(w, Pause(m), true).assignments;
    PauseEffect(w, m);
    forall id | id in a ensures DepsDone(b, a[id].deps) <==> DepsDone(a, a[id].deps) {
      SameDone(a, b, a[id].deps);
    }
    assert forall id <- a :: b[id].deps == a[id].deps;
    if Orderly(b) {
      forall id <- a | a[id].mission == m && a[id].status == Pending ensures DepsDone(a, a[id].deps) {
        assert b[id].status == Interrupted;
      }
    }
  }

  lemma SameDone(a: Assignments, b: Assignments, deps: seq<string>)
    requires forall x :: Done(b, x) <==> Done(a, x)
    ensures DepsDone(b, deps) <==> DepsDone(a, deps)
  {
  }

  /**
   Readiness still implies completed dependencies after a pause and a resumption exactly when, before
   the pause, no pending assignment of the mission waited for a dependency.
   */
  lemma PauseResumeExactly(w: World, m: string)
    requires m in w.missions && w.missions[m] == Active && Sequential(w.assignments)
    ensures Sequential(Apply(Apply(w, Pause(m), true), Resume(m), true).assignments) <==> PauseSafe(w.assignments, m)
  {
    hide Apply, Candidates, DepsDone, Done;
    var a := w.assignments;
    var v := Apply(w, Pause(m), true);
    var b, c := v.assignments, Apply(v, Resume(m), true).assignments;
    PauseEffect(w, m);
    PauseMission(w, m);
    ResumeEffect(v, m);
    forall id | id in a ensures DepsDone(c, a[id].deps) <==> DepsDone(a, a[id].deps) {
      SameDone(a, c, a[id].deps);
    }
    forall id | id in a
      ensures id in c && c[id].deps == a[id].deps
      ensures c[id].status == if a[id].mission == m && NonTerminal(a[id].status) then Ready else a[id].status
    {
      assert id in b && b[id].mission == a[id].mission && b[id].deps == a[id].deps;
      assert b[id].status == if a[id].mission == m && NonTerminal(a[id].status) then Interrupted else a[id].status;
    }
    assert c.Keys == a.Keys;
    if Sequential(c) {
      forall id <- a | a[id].mission == m && a[id].status == Pending ensures DepsDone(a, a[id].deps) {
        assert c[id].status == Ready;
      }
    }
  }

  lemma PauseMission(w: World, m: string)
    requires m in w.missions && w.missions[m] == Active
    ensures var v := Apply(w, Pause(m), true); m in v.missions && v.missions[m] == Paused
  {
    hide Candidates, SetStatus;
  }

  lemma ApplyOrderly(w: World, op: Op, ok: bool)
    requires Orderly(w.assignments) && (op.Pause? && ok && Accepts(w, op) ==> PauseSafe(w.assignments, op.m))
    ensures Orderly(Apply(w, op, ok).assignments)
  {
    hide DepsDone, Candidates, Grows, Apply;
    var a, b := w.assignments, Apply(w, op, ok).assignments;
    if op.Pause? {
      if ok && Accepts(w, op) {
        PauseExactly(w, op.m);
      } else {
        Unaccepted(w, op, ok);
      }
    } else {
      ApplyGrows(w, op, ok);
      GrowsKeys(a, b);
      forall id <- b | Activated(b[id].status) || b[id].status == Interrupted ensures DepsDone(b, b[id].deps) {
        if DepsDone(a, a[id].deps) {
          DepsStayDone(a, b, a[id].deps);
        }
        ActivatedFrom(w, op, ok, id);
      }
    }
  }

  lemma Unaccepted(w: World, op: Op, ok: bool)
    requires !(ok && Accepts(w, op))
    ensures Apply(w, op, ok) == w
  {
    hide Effect;
  }

  /** Event `n` of the run is a pause that takes effect. */
  ghost predicate Pauses(w: World, events: seq<(Op, bool)>, n: nat)
    requires n < |events|
  {
    events[n].0.Pause? && events[n].1 && Accepts(RunWorld(w, events[..n]), events[n].0)
  }

  /** All pauses of the run are safe at the moment they happen. */
  ghost predicate SafePauses(w: World, events: seq<(Op, bool)>) {
    forall n | 0 <= n < |events| && Pauses(w, events, n) ::
        PauseSafe(RunWorld(w, events[..n]).assignments, events[n].0.m)
  }

  /** The order holds at every point of the run. */
  ghost predicate AlwaysOrderly(w: World, events: seq<(Op, bool)>) {
    forall n | 0 <= n <= |events| :: Orderly(RunWorld(w, events[..n]).assignments)
  }

  /** Over every run the order holds at every point exactly when every pause is safe. */
  lemma OrderlyExactly(w: World, events: seq<(Op, bool)>)
    requires Initial(w)
    ensures AlwaysOrderly(w, events) <==> SafePauses(w, events)
  {
    hide Apply, Orderly, PauseSafe, RunWorld, Initial, Accepts;
    if SafePauses(w, events) {
      forall n | 0 <= n <= |events| ensures Orderly(RunWorld(w, events[..n]).assignments) {
        SafeOrderly(w, events, n);
      }
    }
    if AlwaysOrderly(w, events) {
      forall n | 0 <= n < |events| && Pauses(w, events, n)
        ensures PauseSafe(RunWorld(w, events[..n]).assignments, events[n].0.m)
      {
        RunStep(w, events, n);
        var v := RunWorld(w, events[..n]);
        assert Orderly(v.assignments) && Orderly(RunWorld(w, events[..n + 1]).assignments);
        PauseAccepted(v, events[n].0);
        PauseExactly(v, events[n].0.m);
        assert events[n] == (Pause(events[n].0.m), true);
      }
    }
  }

  lemma PauseAccepted(w: World, op: Op)
    requires op.Pause? && Accepts(w, op)
    ensures op.m in w.missions && w.missions[op.m] == Active && op == Pause(op.m)
  {
  }

  lemma RunStep(w: World, events: seq<(Op, bool)>, n: nat)
    requires n < |events|
    ensures RunWorld(w, events[..n + 1]) == Apply(RunWorld(w, events[..n]), events[n].0, events[n].1)
  {
    hide Apply;
    assert events[..n + 1][..n] == events[..n];
  }

  lemma {:induction false} SafeOrderly(w: World, events: seq<(Op, bool)>, n: nat)
    requires Initial(w) && SafePauses(w, events) && n <= |events|
    ensures Orderly(RunWorld(w, events[..n]).assignments)
  {
    hide Apply, Orderly, PauseSafe, Accepts;
    if n == 0 {
      assert events[..0] == [];
      InitialOrderly(w);
    } else {
      SafeOrderly(w, events, n - 1);
      RunStep(w, events, n - 1);
      hide RunWorld;
      assert Pauses(w, events, n - 1) ==> PauseSafe(RunWorld(w, events[..n - 1]).assignments, events[n - 1].0.m);
      ApplyOrderly(RunWorld(w, events[..n - 1]), events[n - 1].0, events[n - 1].1);
    }
  }

  // ---------------------------------------------------------------- exactly which resumptions are harmless

  /** Readiness implies completed dependencies. */
  ghost predicate Grounded(a: Assignments) {
    forall id <- a :: Activated(a[id].status) ==> DepsDone(a, a[id].deps)
  }

  /** What a caller can check before resuming: the dependencies of the interrupted work are completed. */
  predicate ResumeSafe(a: Assignments, m: string) {
    forall id <- a :: a[id].mission == m && a[id].status == Interrupted ==> DepsDone(a, a[id].deps)
  }

  lemma ResumeExactly(w: World, m: string)
    requires m in w.missions && w.missions[m] == Paused && Grounded(w.assignments)
    ensures Grounded(Apply(w, Resume(m), true).assignments) <==> ResumeSafe(w.assignments, m)
  {
    hide Apply, Candidates, DepsDone, Done;
    var a, b := w.assignments, Apply(w, Resume(m), true).assignments;
    ResumeEffect(w, m);
    forall id | id in a ensures DepsDone(b, a[id].deps) <==> DepsDone(a, a[id].deps) {
      SameDone(a, b, a[id].deps);
    }
    assert forall id <- a :: b[id].deps == a[id].deps;
    if Grounded(b) {
      forall id <- a | a[id].mission == m && a[id].status == Interrupted ensures DepsDone(a, a[id].deps) {
        assert b[id].status == Ready;
      }
    }
  }

  lemma ApplyGrounded(w: World, op: Op, ok: bool)
    requires Grounded(w.assignments) && (op.Resume? && ok && Accepts(w, op) ==> ResumeSafe(w.assignments, op.m))
    ensures Grounded(Apply(w, op, ok).assignments)
  {
    hide DepsDone, Candidates, Grows, Apply;
    var a, b := w.assignments, Apply(w, op, ok).assignments;
    if op.Resume? {
      if ok && Accepts(w, op) {
        ResumeExactly(w, op.m);
      } else {
        Unaccepted(w, op, ok);
      }
    } else {
      ApplyGrows(w, op, ok);
      GrowsKeys(a, b);
      forall id <- b | Activated(b[id].status) ensures DepsDone(b, b[id].deps) {
        if DepsDone(a, a[id].deps) {
          DepsStayDone(a, b, a[id].deps);
        }
        GroundedFrom(w, op, ok, id);
      }
    }
  }

  lemma GroundedFrom(w: World, op: Op, ok: bool, id: string)
    requires id in w.assignments && !op.Resume?
    ensures var a, b := w.assignments, Apply(w, op, ok).assignments;
            id in b && (Activated(b[id].status) ==> Activated(a[id].status) || DepsDone(b, a[id].deps))
  {
    hide Candidates;
    if !op.Pause? && w.assignments[id].status != Interrupted {
      hide Apply, DepsDone;
      ActivatedFrom(w, op, ok, id);
    }
  }

  /** Event `n` of the run is a resumption that takes effect. */
  ghost predicate Resumes(w: World, events: seq<(Op, bool)>, n: nat)
    requires n < |events|
  {
    events[n].0.Resume? && events[n].1 && Accepts(RunWorld(w, events[..n]), events[n].0)
  }

  /** All resumptions of the run are safe at the moment they happen. */
  ghost predicate SafeResumes(w: World, events: seq<(Op, bool)>) {
    forall n | 0 <= n < |events| && Resumes(w, events, n) ::
        ResumeSafe(RunWorld(w, events[..n]).assignments, events[n].0.m)
  }

  ghost predicate AlwaysGrounded(w: World, events: seq<(Op, bool)>) {
    forall n | 0 <= n <= |events| :: Grounded(RunWorld(w, events[..n]).assignments)
  }

  /**
   Over every run readiness implies completed dependencies at every point exactly when, at every
   resumption, the dependencies of the work it makes ready are completed.
   */
  lemma GroundedExactly(w: World, events: seq<(Op, bool)>)
    requires Initial(w)
    ensures AlwaysGrounded(w, events) <==> SafeResumes(w, events)
  {
    hide Apply, Grounded, ResumeSafe, RunWorld, Initial, Accepts;
    if SafeResumes(w, events) {
      forall n | 0 <= n <= |events| ensures Grounded(RunWorld(w, events[..n]).assignments) {
        SafeGrounded(w, events, n);
      }
    }
    if AlwaysGrounded(w, events) {
      forall n | 0 <= n < |events| && Resumes(w, events, n)
        ensures ResumeSafe(RunWorld(w, events[..n]).assignments, events[n].0.m)
      {
        RunStep(w, events, n);
        var v := RunWorld(w, events[..n]);
        assert Grounded(v.assignments) && Grounded(RunWorld(w, events[..n + 1]).assignments);
        ResumeAccepted(v, events[n].0);
        ResumeExactly(v, events[n].0.m);
        assert events[n] == (Resume(events[n].0.m), true);
      }
    }
  }

  lemma ResumeAccepted(w: World, op: Op)
    requires op.Resume? && Accepts(w, op)
    ensures op.m in w.missions && w.missions[op.m] == Paused && op == Resume(op.m)
  {
  }

  lemma {:induction false} SafeGrounded(w: World, events: seq<(Op, bool)>, n: nat)
    requires Initial(w) && SafeResumes(w, events) && n <= |events|
    ensures Grounded(RunWorld(w, events[..n]).assignments)
  {
    hide Apply, Grounded, ResumeSafe, Accepts;
    if n == 0 {
      assert events[..0] == [];
      InitialGrounded(w);
    } else {
      SafeGrounded(w, events, n - 1);
      RunStep(w, events, n - 1);
      hide RunWorld;
      assert Resumes(w, events, n - 1) ==> ResumeSafe(RunWorld(w, events[..n - 1]).assignments, events[n - 1].0.m);
      ApplyGrounded(RunWorld(w, events[..n - 1]), events[n - 1].0, events[n - 1].1);
    }
  }

  lemma InitialGrounded(w: World)
    requires Initial(w)
    ensures Grounded(w.assignments)
  {
    hide DepsDone;
  }

  lemma InitialOrderly(w: World)
    requires Initial(w)
    ensures Orderly(w.assignments)
  {
    hide DepsDone;
  }

  lemma NotDone(a: Assignments, id: string, dep: string)
    requires id in a && dep in a[id].deps && dep in a && a[dep].status != Completed
    ensures !DepsDone(a, a[id].deps)
  {
    assert !Done(a, dep);
  }

  lemma StartStatus(w: World, m: string, id: string)
    requires Initial(w) && m in w.missions && id in w.assignments
    ensures var a := Apply(w, Start(m), true).assignments;
            id in a && a[id].mission == w.assignments[id].mission && a[id].deps == w.assignments[id].deps
            && (a[id].status == Pending || a[id].status == Ready)
  {
    hide Candidates;
  }

  lemma PauseStatus(w: World, m: string, id: string)
    requires m in w.missions && w.missions[m] == Active && id in w.assignments && w.assignments[id].mission == m
    requires NonTerminal(w.assignments[id].status)
    ensures var a := Apply(w, Pause(m), true).assignments;
            id in a && a[id] == w.assignments[id].(status := Interrupted)
  {
    hide Candidates;
  }

  lemma ResumeStatus(w: World, m: string, id: string)
    requires m in w.missions && w.missions[m] == Paused && id in w.assignments && w.assignments[id].mission == m
    requires w.assignments[id].status == Interrupted
    ensures var a := Apply(w, Resume(m), true).assignments;
            id in a && a[id] == w.assignments[id].(status := Ready)
  {
    hide Candidates;
  }

  lemma DispatchStatus(w: World, m: string, id: string)
    requires id in w.assignments && w.assignments[id].mission == m && w.assignments[id].status == Ready
    ensures var a := Apply(w, Dispatch(m, id), true).assignments;
            id in a && a[id] == w.assignments[id].(status := InProgress)
  {
  }

  /** Only `complete` completes. */
  lemma NotCompleted(w: World, op: Op, id: string)
    requires id in w.assignments && w.assignments[id].status != Completed && !op.Complete?
    ensures var a := Apply(w, op, true).assignments;
            id in a && a[id].status != Completed
  {
    hide Candidates, DepsDone;
  }

  /** `cancel` accepts paused missions, yet it drops a mission exactly when that mission is active. */
  lemma CancelNeedsActive(w: World, m: string, ok: bool)
    requires m in w.missions && w.missions[m] != Dropped
    ensures Accepts(w, Cancel(m)) <==> w.missions[m] == Active || w.missions[m] == Paused
    ensures Apply(w, Cancel(m), ok).missions[m] == Dropped <==> ok && w.missions[m] == Active
    ensures Apply(w, Cancel(m), ok).missions[m] != Dropped ==> Apply(w, Cancel(m), ok) == w
  {
    hide SetStatus;
  }

  // ---------------------------------------------------------------- missions at rest

  /** A validating mission has only completed work; a paused or dropped one has nothing open. */
  ghost predicate AtRest(w: World) {
    && (forall id <- w.assignments :: w.assignments[id].mission in w.missions ==>
          && (w.missions[w.assignments[id].mission] == Validating ==> w.assignments[id].status == Completed)
          && (w.missions[w.assignments[id].mission] in {Paused, Dropped} ==> !NonTerminal(w.assignments[id].status)))
  }

  lemma ApplyAtRest(w: World, op: Op, ok: bool)
    requires AtRest(w)
    ensures AtRest(Apply(w, op, ok))
  {
    hide Candidates, DepsDone;
    ApplyGrows(w, op, ok);
    var u := Apply(w, op, ok);
    forall id <- u.assignments | u.assignments[id].mission in u.missions
      ensures (u.missions[u.assignments[id].mission] == Validating ==> u.assignments[id].status == Completed)
              && (u.missions[u.assignments[id].mission] in {Paused, Dropped} ==> !NonTerminal(u.assignments[id].status))
    {
      RestOne(w, op, ok, id);
    }
  }

  lemma RestOne(w: World, op: Op, ok: bool, id: string)
    requires AtRest(w) && id in w.assignments
    ensures var u := Apply(w, op, ok); var m := w.assignments[id].mission;
            id in u.assignments && u.assignments[id].mission == m
            && (m in u.missions ==>
                  && (u.missions[m] == Validating ==> u.assignments[id].status == Completed)
                  && (u.missions[m] in {Paused, Dropped} ==> !NonTerminal(u.assignments[id].status)))
  {
    hide Candidates, DepsDone;
  }

  /** While a mission is paused or dropped none of its assignments changes, except by its resumption. */
  lemma Frozen(w: World, op: Op, ok: bool, id: string)
    requires AtRest(w) && id in w.assignments
    requires var m := w.assignments[id].mission;
             m in w.missions && w.missions[m] in {Paused, Dropped} && op != Resume(m)
    ensures id in Apply(w, op, ok).assignments && Apply(w, op, ok).assignments[id] == w.assignments[id]
    ensures w.missions[w.assignments[id].mission] == Dropped ==>
              Apply(w, op, ok).missions[w.assignments[id].mission] == Dropped
  {
    hide Candidates, DepsDone;
  }

  /** In every run: completed work stays completed, and missions at rest really are. */
  lemma {:induction false} EveryRunAtRest(w: World, events: seq<(Op, bool)>, later: seq<(Op, bool)>)
    requires Initial(w)
    ensures AtRest(RunWorld(w, events + later))
    ensures Grows(RunWorld(w, events).assignments, RunWorld(w, events + later).assignments)
    decreases |events| + |later|
  {
    hide Apply, AtRest, Grows;
    if later != [] {
      var n := |later| - 1;
      EveryRunAtRest(w, events, later[..n]);
      assert (events + later)[..|events + later| - 1] == events + later[..n];
      var v := RunWorld(w, events + later[..n]);
      ApplyAtRest(v, later[n].0, later[n].1);
      ApplyGrows(v, later[n].0, later[n].1);
      GrowsTransitive(RunWorld(w, events).assignments, v.assignments, RunWorld(w, events + later).assignments);
    } else {
      assert events + later == events;
      GrowsReflexive(RunWorld(w, events).assignments);
      if events == [] {
        InitialAtRest(w);
      } else {
        EveryRunAtRest(w, events[..|events| - 1], []);
        assert events[..|events| - 1] + [] == events[..|events| - 1];
        var last := events[|events| - 1];
        ApplyAtRest(RunWorld(w, events[..|events| - 1]), last.0, last.1);
      }
    }
  }

  lemma GrowsReflexive(a: Assignments)
    ensures Grows(a, a)
  {
  }

  lemma InitialAtRest(w: World)
    requires Initial(w)
    ensures AtRest(w)
  {
  }

  // ---------------------------------------------------------------- no deadlock

  /** Every dependency of an assignment of the mission is an assignment of the mission. */
  ghost predicate SelfContained(a: Assignments, m: string) {
    forall id <- a :: a[id].mission == m ==> forall d <- a[id].deps :: OfMission(a, m, d)
  }

  ghost function DependencyEdges(a: Assignments, m: string): Edges {
    set id, d | id in a && a[id].mission == m && d in a[id].deps :: (d, id)
  }

  /** Work that can move: its dependencies are done and somebody may act on it. */
  ghost predicate Actionable(a: Assignments, m: string, id: string) {
    OfMission(a, m, id) && a[id].status in {Ready, InProgress, Blocked} && DepsDone(a, a[id].deps)
  }

  /** What every status of the mission means for its assignments, as long as nothing fails or is cancelled. */
  ghost predicate OnTrack(w: World, m: string) {
    && m in w.missions && w.missions[m] in {Planned, Active, Paused, Validating}
    && SelfContained(w.assignments, m)
    && forall id <- w.assignments :: w.assignments[id].mission == m ==> OnTrackOne(w, m, id)
  }

  ghost predicate OnTrackOne(w: World, m: string, id: string)
    requires m in w.missions && id in w.assignments
  {
    var a := w.assignments[id];
    && a.status != Failed && a.status != Cancelled
    && (w.missions[m] == Planned ==> a.status == Pending)
    && (w.missions[m] in {Active, Validating} ==> a.status != Interrupted)
    && (w.missions[m] == Active && a.status == Pending ==> !DepsDone(w.assignments, a.deps))
    && (w.missions[m] == Paused ==> a.status != Pending)
    && (w.missions[m] == Validating ==> a.status == Completed)
  }

  /** Operations that give up on work of the mission. */
  predicate GivesUp(op: Op, m: string) {
    (op.Fail? || op.Cancel?) && op.m == m
  }

  lemma ApplyOnTrack(w: World, op: Op, ok: bool, m: string)
    requires OnTrack(w, m) && !GivesUp(op, m)
    ensures OnTrack(Apply(w, op, ok), m)
  {
    hide Candidates, DepsDone, Grows, Apply;
    var u := Apply(w, op, ok);
    ApplyGrows(w, op, ok);
    GrowsKeys(w.assignments, u.assignments);
    MissionMoves(w, op, ok, m);
    forall id <- u.assignments | u.assignments[id].mission == m ensures OnTrackOne(u, m, id) {
      assert OnTrackOne(w, m, id);
      if op.m == m {
        if op.Complete? {
          CompletionOnTrack(w, op, ok, m, id);
        } else {
          OwnMission(w, op, ok, m, id);
        }
      } else {
        OtherMission(w, op, ok, m, id);
      }
    }
  }

  lemma MissionMoves(w: World, op: Op, ok: bool, m: string)
    requires m in w.missions && w.missions[m] in {Planned, Active, Paused, Validating} && !GivesUp(op, m)
    ensures var u := Apply(w, op, ok);
            m in u.missions && u.missions[m] in {Planned, Active, Paused, Validating}
            && (op.m != m || op.Complete? ==> u.missions[m] == w.missions[m])
  {
    hide Candidates, SetStatus, DepsDone;
  }

  /** Operations on other missions leave these assignments, and what they depend on, alone. */
  lemma OtherMission(w: World, op: Op, ok: bool, m: string, id: string)
    requires OnTrack(w, m) && op.m != m && id in w.assignments && w.assignments[id].mission == m
    ensures var u := Apply(w, op, ok);
            m in u.missions && u.missions[m] == w.missions[m]
            && id in u.assignments && u.assignments[id] == w.assignments[id]
            && (DepsDone(u.assignments, w.assignments[id].deps) ==> DepsDone(w.assignments, w.assignments[id].deps))
  {
    hide Candidates;
    var u := Apply(w, op, ok);
    if DepsDone(u.assignments, w.assignments[id].deps) {
      forall d <- w.assignments[id].deps ensures Done(w.assignments, d) {
        assert OfMission(w.assignments, m, d);
        assert Done(u.assignments, d);
        SameElsewhere(w, op, ok, m, d);
      }
    }
    SameElsewhere(w, op, ok, m, id);
  }

  lemma SameElsewhere(w: World, op: Op, ok: bool, m: string, id: string)
    requires op.m != m && id in w.assignments && w.assignments[id].mission == m
    ensures var u := Apply(w, op, ok); id in u.assignments && u.assignments[id] == w.assignments[id]
  {
    hide Candidates, DepsDone;
  }

  /** Operations other than a completion, on the mission itself. */
  lemma OwnMission(w: World, op: Op, ok: bool, m: string, id: string)
    requires OnTrack(w, m) && op.m == m && !op.Complete? && !GivesUp(op, m)
    requires id in w.assignments && w.assignments[id].mission == m && OnTrackOne(w, m, id)
    ensures var u := Apply(w, op, ok);
            m in u.missions && id in u.assignments && OnTrackOne(u, m, id)
  {
    hide Candidates;
    var u := Apply(w, op, ok);
    assert forall d :: Done(u.assignments, d) ==> Done(w.assignments, d) by { NobodyCompletes(w, op, ok); }
    if op.Start? && ok && Accepts(w, op) && w.assignments[id].deps != [] {
      StartLeavesDependents(w, m, id);
    }
  }

  lemma NobodyCompletes(w: World, op: Op, ok: bool)
    requires !op.Complete?
    ensures forall d :: Done(Apply(w, op, ok).assignments, d) ==> Done(w.assignments, d)
  {
    hide Candidates, DepsDone;
  }

  /** What is still pending after the start has an uncompleted dependency. */
  lemma StartLeavesDependents(w: World, m: string, id: string)
    requires OnTrack(w, m) && w.missions[m] == Planned && id in w.assignments && w.assignments[id].mission == m
    requires w.assignments[id].deps != []
    ensures !DepsDone(w.assignments, w.assignments[id].deps)
  {
    var d := w.assignments[id].deps[0];
    assert OfMission(w.assignments, m, d);
    assert OnTrackOne(w, m, d);
    assert !Done(w.assignments, d);
  }

  /** A completion promotes whatever it unlocks. */
  lemma CompletionOnTrack(w: World, op: Op, ok: bool, m: string, id: string)
    requires OnTrack(w, m) && op.Complete? && op.m == m
    requires id in w.assignments && w.assignments[id].mission == m && OnTrackOne(w, m, id)
    ensures var u := Apply(w, op, ok);
            m in u.missions && id in u.assignments && OnTrackOne(u, m, id)
  {
    hide Candidates;
    if ok && Accepts(w, op) {
      var done := SetStatus(w.assignments, {op.id}, Completed);
      var u := Apply(w, op, ok);
      assert OnTrackOne(w, m, op.id);
      assert forall d :: Done(u.assignments, d) <==> Done(done, d);
      if u.assignments[id].status == Pending {
        assert id !in Unlocked(done, m);
        assert w.assignments[id].deps == [] ==> DepsDone(w.assignments, w.assignments[id].deps);
      }
    }
  }

  /** In an unfinished set of assignments with acyclic dependencies something has all its dependencies done. */
  lemma SomethingFree(a: Assignments, m: string) returns (id: string)
    requires SelfContained(a, m) && Acyclic(DependencyEdges(a, m))
    requires exists x :: OfMission(a, m, x) && a[x].status != Completed
    ensures OfMission(a, m, id) && a[id].status != Completed && DepsDone(a, a[id].deps)
  {
    hide Acyclic;
    var nodes := set x | x in a && a[x].mission == m && a[x].status != Completed;
    var edges := DependencyEdges(a, m);
    var unfinished :| OfMission(a, m, unfinished) && a[unfinished].status != Completed;
    assert unfinished in nodes;
    if forall v <- nodes :: HasPredecessor(edges, nodes, v) {
      PredecessorsCycle(edges, nodes);
      assert false;
    }
    id :| id in nodes && !HasPredecessor(edges, nodes, id);
    forall d <- a[id].deps ensures Done(a, d) {
      assert (d, id) in edges;
      assert OfMission(a, m, d);
    }
  }

  /**
   No deadlock: start from nothing, never fail or cancel work of the mission, and let everything else
   happen. Whenever the mission is active and unfinished, some assignment of it is ready, in progress
   or blocked with all its dependencies completed.
   */
  lemma NoDeadlock(w: World, events: seq<(Op, bool)>, m: string) returns (id: string)
    requires Initial(w) && m in w.missions && SelfContained(w.assignments, m)
    requires Acyclic(DependencyEdges(w.assignments, m))
    requires forall e <- events :: !GivesUp(e.0, m)
    requires var u := RunWorld(w, events);
             m in u.missions && u.missions[m] == Active
             && exists x :: OfMission(u.assignments, m, x) && u.assignments[x].status != Completed
    ensures Actionable(RunWorld(w, events).assignments, m, id)
  {
    hide Acyclic, RunWorld, DepsDone, Initial, SelfContained, Grows;
    var u := RunWorld(w, events);
    RunOnTrack(w, events, m);
    SameEdges(w.assignments, u.assignments, m);
    assert SelfContained(u.assignments, m) by { assert OnTrack(u, m); }
    id := SomethingFree(u.assignments, m);
    assert OnTrackOne(u, m, id);
  }

  lemma SameEdges(a: Assignments, b: Assignments, m: string)
    requires Grows(a, b)
    ensures DependencyEdges(a, m) == DependencyEdges(b, m)
  {
  }

  lemma {:induction false} RunOnTrack(w: World, events: seq<(Op, bool)>, m: string)
    requires Initial(w) && m in w.missions && SelfContained(w.assignments, m)
    requires forall e <- events :: !GivesUp(e.0, m)
    ensures OnTrack(RunWorld(w, events), m) && Grows(w.assignments, RunWorld(w, events).assignments)
  {
    hide Apply, OnTrack, Grows, SelfContained;
    if events == [] {
      InitialOnTrack(w, m);
      GrowsReflexive(w.assignments);
    } else {
      var last := events[|events| - 1];
      assert last in events;
      RunOnTrack(w, events[..|events| - 1], m);
      var v := RunWorld(w, events[..|events| - 1]);
      ApplyOnTrack(v, last.0, last.1, m);
      ApplyGrows(v, last.0, last.1);
      GrowsTransitive(w.assignments, v.assignments, RunWorld(w, events).assignments);
    }
  }

  lemma InitialOnTrack(w: World, m: string)
    requires Initial(w) && m in w.missions && SelfContained(w.assignments, m)
    ensures OnTrack(w, m)
  {
  }

  /**
   On runs without fail and cancel a pause is harmless exactly when the mission has no pending
   assignment left: what is pending in an active mission always waits for a dependency.
   */
  lemma PauseHarmlessExactly(w: World, events: seq<(Op, bool)>, m: string)
    requires Initial(w) && m in w.missions && SelfContained(w.assignments, m)
    requires forall e <- events :: !GivesUp(e.0, m)
    requires var u := RunWorld(w, events); m in u.missions && u.missions[m] == Active && Orderly(u.assignments)
    ensures var u := RunWorld(w, events);
            Orderly(Apply(u, Pause(m), true).assignments) <==> WithStatus(u.assignments, m, Pending) == {}
  {
    hide Apply, RunWorld, Initial, SelfContained, DepsDone, Orderly, Grows;
    var u := RunWorld(w, events);
    RunOnTrack(w, events, m);
    PauseExactly(u, m);
    assert forall id <- u.assignments :: u.assignments[id].mission == m ==> OnTrackOne(u, m, id);
    if PauseSafe(u.assignments, m) {
      assert forall id <- u.assignments :: u.assignments[id].mission == m ==> u.assignments[id].status != Pending;
    } else {
      var id :| id in u.assignments && u.assignments[id].mission == m && u.assignments[id].status == Pending;
      assert id in WithStatus(u.assignments, m, Pending);
    }
  }
}
