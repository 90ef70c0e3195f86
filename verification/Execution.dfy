/** Mission execution: assignments, their dependencies, and the operations that move them. */
module Execution {
  import opened Prelude
  import opened Order

  datatype Status = Pending | Ready | InProgress | Completed | Failed | Blocked | Cancelled | Interrupted

  datatype Assignment = Assignment(mission: string, status: Status, deps: seq<string>, milestone: string)

  datatype MissionStatus = Planned | Active | Paused | Validating | Dropped | Other

  type Assignments = map<string, Assignment>

  /** The part of the state that execution reads and writes. */
  datatype World = World(assignments: Assignments, missions: map<string, MissionStatus>, candidates: seq<string>)

  // ---------------------------------------------------------------- assignments

  predicate Done(a: Assignments, id: string) {
    id in a && a[id].status == Completed
  }

  /** A dependency that does not exist is not done. */
  predicate DepsDone(a: Assignments, deps: seq<string>) {
    forall d <- deps :: Done(a, d)
  }

  predicate OfMission(a: Assignments, m: string, id: string) {
    id in a && a[id].mission == m
  }

  predicate NonTerminal(s: Status) {
    s == Pending || s == Ready || s == InProgress || s == Blocked
  }

  function SetStatus(a: Assignments, ids: set<string>, s: Status): Assignments {
    map id <- a :: if id in ids then a[id].(status := s) else a[id]
  }

  function Roots(a: Assignments, m: string): set<string> {
    set id | id in a && a[id].mission == m && a[id].status == Pending && a[id].deps == []
  }

  /** What a completion unlocks: pending, with dependencies, all of them done. */
  function Unlocked(a: Assignments, m: string): set<string> {
    set id | id in a && a[id].mission == m && a[id].status == Pending && a[id].deps != [] && DepsDone(a, a[id].deps)
  }

  function WithStatus(a: Assignments, m: string, s: Status): set<string> {
    set id | id in a && a[id].mission == m && a[id].status == s
  }

  function Open(a: Assignments, m: string): set<string> {
    set id | id in a && a[id].mission == m && NonTerminal(a[id].status)
  }

  function Runnable(a: Assignments, m: string): set<string> {
    set id | id in a && a[id].mission == m && a[id].status == Ready && DepsDone(a, a[id].deps)
  }

  /** `_recompute_candidates`: ready, dependencies done, in increasing order of id. */
  ghost function Candidates(a: Assignments, m: string): seq<string> {
    SortedKeys(Runnable(a, m))
  }

  // ---------------------------------------------------------------- operations

  datatype Op =
    | Start(m: string)
    | Pause(m: string)
    | Resume(m: string)
    | Cancel(m: string)
    | Finish(m: string)
    | Dispatch(m: string, id: string)
    | Complete(m: string, id: string)
    | Fail(m: string, id: string)
    | Block(m: string, id: string)
    | Unblock(m: string, id: string)

  /** The store's table of mission transitions; it has no row for an interrupted mission. */
  predicate LegalMission(from: MissionStatus, to: MissionStatus) {
    match from
    case Planned => to == Active
    case Active => to == Validating || to == Paused || to == Dropped || to == Other
    case Validating => to == Paused || to == Dropped || to == Other
    case _ => false
  }

  /** What the operation itself requires of the state. */
  predicate Accepts(w: World, op: Op) {
    match op
    case Start(m) => m in w.missions && w.missions[m] == Planned
    case Pause(m) => m in w.missions && w.missions[m] == Active
    case Resume(m) => m in w.missions && w.missions[m] == Paused
    case Cancel(m) => m in w.missions && (w.missions[m] == Active || w.missions[m] == Paused)
    case Finish(m) =>
      m in w.missions && w.missions[m] == Active
      && forall id <- w.assignments :: w.assignments[id].mission == m ==> w.assignments[id].status == Completed
    case Dispatch(m, id) => OfMission(w.assignments, m, id) && w.assignments[id].status == Ready
    case Complete(m, id) => OfMission(w.assignments, m, id) && w.assignments[id].status == InProgress
    case Fail(m, id) => OfMission(w.assignments, m, id) && w.assignments[id].status == InProgress
    case Block(m, id) =>
      OfMission(w.assignments, m, id) && (w.assignments[id].status == Ready || w.assignments[id].status == InProgress)
    case Unblock(m, id) => OfMission(w.assignments, m, id) && w.assignments[id].status == Blocked
  }

  /** What the store adds: only the mission transitions of its table. */
  predicate StoreAllows(w: World, op: Op) {
    match op
    case Cancel(m) => m in w.missions && LegalMission(w.missions[m], Dropped)
    case _ => true
  }

  function SetMission(w: World, m: string, s: MissionStatus): World {
    w.(missions := w.missions[m := s])
  }

  function SetOne(w: World, id: string, s: Status): World {
    w.(assignments := SetStatus(w.assignments, {id}, s))
  }

  ghost function Recomputed(w: World, m: string): World {
    w.(candidates := Candidates(w.assignments, m))
  }

  /** The mutation of an accepted operation. */
  ghost function Effect(w: World, op: Op): World {
    match op
    case Start(m) =>
      Recomputed(SetMission(w, m, Active).(assignments := SetStatus(w.assignments, Roots(w.assignments, m), Ready)), m)
    case Pause(m) =>
      Recomputed(SetMission(w, m, Paused).(
                   assignments := SetStatus(w.assignments, Open(w.assignments, m), Interrupted)), m)
    case Resume(m) =>
      Recomputed(SetMission(w, m, Active).(
                   assignments := SetStatus(w.assignments, WithStatus(w.assignments, m, Interrupted), Ready)), m)
    case Cancel(m) =>
      SetMission(w, m, Dropped).(assignments := SetStatus(w.assignments, Open(w.assignments, m), Cancelled))
    case Finish(m) => SetMission(w, m, Validating)
    case Dispatch(_, id) => SetOne(w, id, InProgress)
    case Complete(m, id) =>
      var done := SetStatus(w.assignments, {id}, Completed);
      Recomputed(w.(assignments := SetStatus(done, Unlocked(done, m), Ready)), m)
    case Fail(_, id) => SetOne(w, id, Failed)
    case Block(_, id) => SetOne(w, id, Blocked)
    case Unblock(_, id) => SetOne(w, id, Ready)
  }

  /** One operation; `ok` stands for the gates outside this model (authority, manifest, store integrity). */
  ghost function Apply(w: World, op: Op, ok: bool): World {
    if ok && Accepts(w, op) && StoreAllows(w, op) then Effect(w, op) else w
  }

  predicate IsOpen(s: Status) {
    s in {Pending, Ready, InProgress, Blocked}
  }

  /** The status of assignment `x` after an accepted operation. */
  ghost function After(a: Assignments, op: Op, x: string): Status
    requires x in a
  {
    var was := a[x].status;
    var own := a[x].mission == op.m;
    match op
    case Start(_) => if own && was == Pending && a[x].deps == [] then Ready else was
    case Pause(_) => if own && IsOpen(was) then Interrupted else was
    case Resume(_) => if own && was == Interrupted then Ready else was
    case Cancel(_) => if own && IsOpen(was) then Cancelled else was
    case Finish(_) => was
    case Dispatch(_, id) => if x == id then InProgress else was
    case Complete(_, id) =>
      if x == id then Completed
      else if own && was == Pending && a[x].deps != []
              && forall d <- a[x].deps :: d in a && (d == id || a[d].status == Completed) then Ready
      else was
    case Fail(_, id) => if x == id then Failed else was
    case Block(_, id) => if x == id then Blocked else was
    case Unblock(_, id) => if x == id then Ready else was
  }

  /**
   What an accepted operation does, entry by entry: the status of every assignment, the status of the
   mission, and the candidates, which four of the operations compute anew.
   */
  lemma ApplyEntries(w: World, op: Op)
    requires Accepts(w, op) && StoreAllows(w, op)
    ensures var u := Apply(w, op, true); var a := w.assignments;
            && u.assignments.Keys == a.Keys
            && (forall x <- a :: u.assignments[x] == a[x].(status := After(a, op, x)))
            && u.missions == (match op
                              case Start(m) => w.missions[m := Active]
                              case Pause(m) => w.missions[m := Paused]
                              case Resume(m) => w.missions[m := Active]
                              case Cancel(m) => w.missions[m := Dropped]
                              case Finish(m) => w.missions[m := Validating]
                              case _ => w.missions)
            && (if op.Start? || op.Pause? || op.Resume? || op.Complete?
                then InOrder(u.candidates) && Elements(u.candidates) == Runnable(u.assignments, op.m)
                else u.candidates == w.candidates)
  {
    hide InOrder, Runnable, DepsDone, Sorted, Less, Candidates;
    var u := Apply(w, op, true);
    CandidatesInOrder(u.assignments, op.m);
    if op.Complete? {
      CompleteEntries(w.assignments, op.m, op.id);
    }
  }

  lemma CandidatesInOrder(a: Assignments, m: string)
    ensures InOrder(Candidates(a, m)) && Elements(Candidates(a, m)) == Runnable(a, m)
  {
    hide InOrder, Runnable, Sorted;
    SortedInOrder(Candidates(a, m));
  }

  lemma CompleteEntries(a: Assignments, m: string, id: string)
    requires OfMission(a, m, id) && a[id].status == InProgress
    ensures var done := SetStatus(a, {id}, Completed);
            forall x <- a ::
              SetStatus(done, Unlocked(done, m), Ready)[x] == a[x].(status := After(a, Complete(m, id), x))
  {
    var done := SetStatus(a, {id}, Completed);
    assert forall d :: Done(done, d) <==> d in a && (d == id || a[d].status == Completed);
  }

  // ---------------------------------------------------------------- the mutable state

  class State {
    var assignments: Assignments
    var missions: map<string, MissionStatus>
    var candidates: seq<string>
    /** The ids in dictionary order. */
    const order: seq<string>

    constructor (assignments: Assignments, missions: map<string, MissionStatus>, order: seq<string>)
      requires Distinct(order) && Elements(order) == assignments.Keys
      ensures Valid() && Snapshot() == World(assignments, missions, [])
    {
      this.assignments, this.missions, this.candidates, this.order := assignments, missions, [], order;
    }

    ghost predicate Valid()
      reads this
    {
      Distinct(order) && Elements(order) == assignments.Keys
    }

    ghost function Snapshot(): World
      reads this
    {
      World(assignments, missions, candidates)
    }

    method Put(id: string, s: Status)
      requires id in assignments
      modifies this`assignments
      ensures assignments == SetStatus(old(assignments), {id}, s) && assignments.Keys == old(assignments).Keys
    {
      assignments := assignments[id := assignments[id].(status := s)];
    }

    /** `_activate_root_assignments`: the number of roots that were activated. */
    method ActivateRoots(m: string) returns (count: nat)
      requires Valid()
      modifies this`assignments
      ensures Valid() && assignments == SetStatus(old(assignments), Roots(old(assignments), m), Ready)
      ensures count == |Roots(old(assignments), m)|
    {
      hide Roots, SetStatus, Raised, Elements, Distinct;
      count := 0;
      ghost var was, roots := assignments, Roots(assignments, m);
      RaisedStart(was, roots, order);
      for i := 0 to |order|
        invariant Valid() && Raised(was, roots, order, i, assignments, count)
      {
        var id := order[i];
        RaisedStep(was, roots, order, i, assignments, count);
        RootsMean(was, m, id);
        if assignments[id].mission == m && assignments[id].status == Pending && assignments[id].deps == [] {
          Put(id, Ready);
          count := count + 1;
        }
      }
      RootsIn(was, m);
      RaisedEnd(was, roots, order, assignments, count);
    }

    /** One pass over the dictionary; promoting some entries makes no others eligible. */
    method Sweep(m: string) returns (promoted: nat)
      requires Valid()
      modifies this`assignments
      ensures Valid() && assignments == SetStatus(old(assignments), Unlocked(old(assignments), m), Ready)
      ensures promoted == |Unlocked(old(assignments), m)|
    {
      hide Unlocked, SetStatus, DepsDone, Raised, Elements, Distinct;
      promoted := 0;
      ghost var was, unlocked := assignments, Unlocked(assignments, m);
      RaisedStart(was, unlocked, order);
      for i := 0 to |order|
        invariant Valid() && Raised(was, unlocked, order, i, assignments, promoted)
      {
        var id := order[i];
        RaisedStep(was, unlocked, order, i, assignments, promoted);
        UnlockedSoFar(was, m, order, i, assignments, promoted);
        if assignments[id].mission == m && assignments[id].status == Pending
           && assignments[id].deps != [] && DepsDone(assignments, assignments[id].deps)
        {
          Put(id, Ready);
          promoted := promoted + 1;
        }
      }
      UnlockedIn(was, m);
      RaisedEnd(was, unlocked, order, assignments, promoted);
    }

    /**
     `_promote_ready_dependents`: sweep until a sweep changes nothing. The fixpoint is that of one
     sweep, whatever the dictionary order, and the count is exact.
     */
    method PromoteDependents(m: string) returns (promoted: nat)
      requires Valid()
      modifies this`assignments
      ensures Valid() && assignments == SetStatus(old(assignments), Unlocked(old(assignments), m), Ready)
      ensures promoted == |Unlocked(old(assignments), m)|
    {
      hide Unlocked, SetStatus;
      promoted := 0;
      var changed := true;
      while changed
        invariant Valid()
        invariant || (changed && assignments == old(assignments) && promoted == 0)
                  || (assignments == SetStatus(old(assignments), Unlocked(old(assignments), m), Ready)
                      && promoted == |Unlocked(old(assignments), m)| && Unlocked(assignments, m) == {})
        decreases |Unlocked(assignments, m)|, changed
      {
        SweepSettles(assignments, m);
        RaiseNone(assignments, Ready);
        var raised := Sweep(m);
        promoted := promoted + raised;
        changed := raised > 0;
      }
    }

    /** `_recompute_candidates`. */
    method Recompute(m: string)
      requires Valid()
      modifies this`candidates
      ensures Snapshot() == Recomputed(old(Snapshot()), m)
      ensures InOrder(candidates)
      ensures forall id :: id in candidates <==>
                (id in assignments && assignments[id].mission == m && assignments[id].status == Ready
                 && DepsDone(assignments, assignments[id].deps))
    {
      hide Runnable, DepsDone, InOrder, Sorted, Sort, SortedKeys;
      var found: seq<string> := [];
      for i := 0 to |order|
        invariant Distinct(found) && Elements(found) == Runnable(assignments, m) * Elements(order[..i])
      {
        var id := order[i];
        PrefixStep(order, i);
        assert id in Elements(order);
        RunnableMeans(assignments, m, id);
        if assignments[id].mission == m && assignments[id].status == Ready
           && DepsDone(assignments, assignments[id].deps)
        {
          ElementsSnoc(found, id);
          NewElement(order, i, found);
          found := found + [id];
        }
      }
      assert order[..|order|] == order;
      RunnableIn(assignments, m);
      assert Elements(found) == Runnable(assignments, m);
      SortForgetsOrder(found);
      candidates := Sort(found);
      forall id ensures id in candidates <==> id in Runnable(assignments, m) {
        assert id in candidates <==> id in Elements(candidates);
      }
      forall id ensures id in candidates <==>
                (id in assignments && assignments[id].mission == m && assignments[id].status == Ready
                 && DepsDone(assignments, assignments[id].deps))
      {
        if id in assignments {
          RunnableMeans(assignments, m, id);
        }
      }
    }

    /** `_set_assignment_status` over a list of ids collected beforehand. */
    method PutAll(ids: seq<string>, s: Status)
      requires Valid() && forall id <- ids :: id in assignments
      modifies this`assignments
      ensures Valid() && assignments == SetStatus(old(assignments), Elements(ids), s)
    {
      hide SetStatus;
      RaiseNone(assignments, s);
      for i := 0 to |ids|
        invariant Valid() && assignments == SetStatus(old(assignments), Elements(ids[..i]), s)
      {
        SetStatusKeys(old(assignments), Elements(ids[..i]), s);
        PrefixStep(ids, i);
        Put(ids[i], s);
        RaiseMore(old(assignments), Elements(ids[..i]), s, ids[i]);
      }
      assert ids[..|ids|] == ids;
    }

    /** Collecting the ids of a mission whose status is in a given set. */
    method Collect(m: string, statuses: set<Status>) returns (ids: seq<string>)
      requires Valid()
      ensures Elements(ids) ==
              set id | id in assignments && assignments[id].mission == m && assignments[id].status in statuses
      ensures forall id <- ids :: id in assignments
    {
      ids := [];
      for i := 0 to |order|
        invariant Elements(ids) ==
          set id | id in assignments && id in order[..i]
                   && assignments[id].mission == m && assignments[id].status in statuses
        invariant forall id <- ids :: id in assignments
      {
        var id := order[i];
        assert order[..i + 1] == order[..i] + [id];
        assert id in Elements(order);
        if assignments[id].mission == m && assignments[id].status in statuses {
          ElementsSnoc(ids, id);
          ids := ids + [id];
        }
      }
      assert order[..|order|] == order;
      assert forall id :: id in assignments ==> id in Elements(order);
    }

    // -------------------------------------------------------------- the operations

    method StartMission(m: string, ok: bool) returns (updated: bool)
      requires Valid()
      modifies this
      ensures Valid() && Snapshot() == Apply(old(Snapshot()), Start(m), ok)
      ensures updated == (ok && Accepts(old(Snapshot()), Start(m)))
    {
      hide Roots, SetStatus, Candidates;
      updated := ok && m in missions && missions[m] == Planned;
      if updated {
        missions := missions[m := Active];
        var count := ActivateRoots(m);
        Recompute(m);
      }
    }

    method PauseMission(m: string, ok: bool) returns (updated: bool)
      requires Valid()
      modifies this
      ensures Valid() && Snapshot() == Apply(old(Snapshot()), Pause(m), ok)
      ensures updated == (ok && Accepts(old(Snapshot()), Pause(m)))
    {
      hide SetStatus, Candidates;
      updated := ok && m in missions && missions[m] == Active;
      if updated {
        var interrupted := Collect(m, {Pending, Ready, InProgress, Blocked});
        assert Elements(interrupted) == Open(assignments, m);
        missions := missions[m := Paused];
        PutAll(interrupted, Interrupted);
        Recompute(m);
      }
    }

    method ResumeMission(m: string, ok: bool) returns (updated: bool)
      requires Valid()
      modifies this
      ensures Valid() && Snapshot() == Apply(old(Snapshot()), Resume(m), ok)
      ensures updated == (ok && Accepts(old(Snapshot()), Resume(m)))
    {
      hide SetStatus, Candidates;
      updated := ok && m in missions && missions[m] == Paused;
      if updated {
        var interrupted := Collect(m, {Interrupted});
        assert Elements(interrupted) == WithStatus(assignments, m, Interrupted);
        missions := missions[m := Active];
        PutAll(interrupted, Ready);
        Recompute(m);
      }
    }

    /** `cancel` accepts a paused mission, but the store then refuses the transition. */
    method CancelMission(m: string, ok: bool) returns (updated: bool)
      requires Valid()
      modifies this
      ensures Valid() && Snapshot() == Apply(old(Snapshot()), Cancel(m), ok)
      ensures updated == (ok && m in old(missions) && old(missions)[m] == Active)
    {
      hide SetStatus, Candidates;
      updated := ok && m in missions && (missions[m] == Active || missions[m] == Paused)
                 && LegalMission(missions[m], Dropped);
      if updated {
        var open := Collect(m, {Pending, Ready, InProgress, Blocked});
        assert Elements(open) == Open(assignments, m);
        missions := missions[m := Dropped];
        PutAll(open, Cancelled);
      }
    }

    method FinishMission(m: string, ok: bool) returns (updated: bool)
      requires Valid()
      modifies this
      ensures Valid() && Snapshot() == Apply(old(Snapshot()), Finish(m), ok)
      ensures updated == (ok && Accepts(old(Snapshot()), Finish(m)))
    {
      hide Candidates;
      updated := ok && m in missions && missions[m] == Active;
      if updated {
        var unfinished := Collect(m, {Pending, Ready, InProgress, Failed, Blocked, Cancelled, Interrupted});
        UnfinishedMeans(assignments, m, unfinished);
        updated := unfinished == [];
      }
      if updated {
        missions := missions[m := Validating];
      }
    }

    /** `dispatch`; like the next three it leaves the candidate list as it was. */
    method DispatchAssignment(m: string, id: string, ok: bool) returns (updated: bool)
      requires Valid()
      modifies this
      ensures Valid() && Snapshot() == Apply(old(Snapshot()), Dispatch(m, id), ok)
      ensures updated == (ok && Accepts(old(Snapshot()), Dispatch(m, id)))
    {
      hide SetStatus;
      updated := ok && id in assignments && assignments[id].mission == m && assignments[id].status == Ready;
      if updated {
        Put(id, InProgress);
      }
    }

    /** `fail`. */
    method FailAssignment(m: string, id: string, ok: bool) returns (updated: bool)
      requires Valid()
      modifies this
      ensures Valid() && Snapshot() == Apply(old(Snapshot()), Fail(m, id), ok)
      ensures updated == (ok && Accepts(old(Snapshot()), Fail(m, id)))
    {
      hide SetStatus;
      updated := ok && id in assignments && assignments[id].mission == m && assignments[id].status == InProgress;
      if updated {
        Put(id, Failed);
      }
    }

    /** `block`. */
    method BlockAssignment(m: string, id: string, ok: bool) returns (updated: bool)
      requires Valid()
      modifies this
      ensures Valid() && Snapshot() == Apply(old(Snapshot()), Block(m, id), ok)
      ensures updated == (ok && Accepts(old(Snapshot()), Block(m, id)))
    {
      hide SetStatus;
      updated := ok && id in assignments && assignments[id].mission == m
                 && (assignments[id].status == Ready || assignments[id].status == InProgress);
      if updated {
        Put(id, Blocked);
      }
    }

    /** `unblock`. */
    method UnblockAssignment(m: string, id: string, ok: bool) returns (updated: bool)
      requires Valid()
      modifies this
      ensures Valid() && Snapshot() == Apply(old(Snapshot()), Unblock(m, id), ok)
      ensures updated == (ok && Accepts(old(Snapshot()), Unblock(m, id)))
    {
      hide SetStatus;
      updated := ok && id in assignments && assignments[id].mission == m && assignments[id].status == Blocked;
      if updated {
        Put(id, Ready);
      }
    }

    method CompleteAssignment(m: string, id: string, ok: bool) returns (updated: bool)
      requires Valid()
      modifies this
      ensures Valid() && Snapshot() == Apply(old(Snapshot()), Complete(m, id), ok)
      ensures updated == (ok && Accepts(old(Snapshot()), Complete(m, id)))
    {
      hide SetStatus, Candidates, Unlocked;
      updated := ok && id in assignments && assignments[id].mission == m && assignments[id].status == InProgress;
      if updated {
        Put(id, Completed);
        var promoted := PromoteDependents(m);
        Recompute(m);
      }
    }
  }

  lemma UnfinishedMeans(a: Assignments, m: string, ids: seq<string>)
    requires Elements(ids) == set id | id in a && a[id].mission == m
                                       && a[id].status in {Pending, Ready, InProgress, Failed,
                                                           Blocked, Cancelled, Interrupted}
    ensures ids == [] <==> forall id <- a :: a[id].mission == m ==> a[id].status == Completed
  {
    if ids == [] {
      forall id <- a | a[id].mission == m ensures a[id].status == Completed {
        assert id !in Elements(ids);
      }
    } else {
      assert ids[0] in Elements(ids);
    }
  }

  // ---------------------------------------------------------------- facts about status maps

  /** The targets among the first `i` ids have been made ready, and counted. */
  ghost predicate Raised(was: Assignments, targets: set<string>, order: seq<string>, i: nat, now: Assignments,
                         count: nat)
    requires i <= |order|
  {
    var raised := targets * Elements(order[..i]);
    now == SetStatus(was, raised, Ready) && count == |raised|
  }

  lemma RaisedStart(was: Assignments, targets: set<string>, order: seq<string>)
    ensures Raised(was, targets, order, 0, was, 0)
  {
    assert targets * Elements(order[..0]) == {};
    RaiseNone(was, Ready);
  }

  lemma RaisedStep(was: Assignments, targets: set<string>, order: seq<string>, i: nat, now: Assignments, count: nat)
    requires i < |order| && Distinct(order) && Elements(order) == was.Keys && Raised(was, targets, order, i, now, count)
    ensures order[i] in was && order[i] in now && now[order[i]] == was[order[i]] && order[i] !in order[..i]
    ensures order[i] in targets ==> Raised(was, targets, order, i + 1, SetStatus(now, {order[i]}, Ready), count + 1)
    ensures order[i] !in targets ==> Raised(was, targets, order, i + 1, now, count)
  {
    hide SetStatus;
    var id, raised := order[i], targets * Elements(order[..i]);
    assert id in Elements(order);
    assert id !in order[..i];
    PrefixStep(order, i);
    SetStatusKeys(was, raised, Ready);
    RaisedEntry(was, raised, Ready, id);
    var next := targets * Elements(order[..i + 1]);
    if id in targets {
      assert next == raised + {id};
      RaiseMore(was, raised, Ready, id);
    } else {
      assert next == raised;
    }
  }

  lemma RaisedEnd(was: Assignments, targets: set<string>, order: seq<string>, now: Assignments, count: nat)
    requires Elements(order) == was.Keys && targets <= was.Keys && Raised(was, targets, order, |order|, now, count)
    ensures now == SetStatus(was, targets, Ready) && count == |targets|
  {
    assert order[..|order|] == order;
    assert targets * Elements(order) == targets;
  }

  /** In the middle of a sweep the next entry is eligible exactly when it was at the start. */
  lemma UnlockedSoFar(was: Assignments, m: string, order: seq<string>, i: nat, now: Assignments, count: nat)
    requires i < |order| && order[i] in was && order[i] in now && order[i] !in order[..i]
    requires Raised(was, Unlocked(was, m), order, i, now, count)
    ensures order[i] in Unlocked(was, m) <==>
            var a := now[order[i]];
            a.mission == m && a.status == Pending && a.deps != [] && DepsDone(now, a.deps)
  {
    hide Unlocked, SetStatus, DepsDone;
    UnlockedMeans(was, m, Unlocked(was, m) * Elements(order[..i]), order[i]);
  }

  lemma PrefixStep(s: seq<string>, i: nat)
    requires i < |s|
    ensures Elements(s[..i + 1]) == Elements(s[..i]) + {s[i]}
  {
    assert s[..i + 1] == s[..i] + [s[i]];
    ElementsSnoc(s[..i], s[i]);
  }

  lemma NewElement(order: seq<string>, i: nat, found: seq<string>)
    requires Distinct(order) && i < |order| && Distinct(found) && Elements(found) <= Elements(order[..i])
    ensures Distinct(found + [order[i]])
  {
    forall j | 0 <= j < |found| ensures found[j] != order[i] {
      assert found[j] in Elements(found);
      assert found[j] in order[..i];
      var k :| 0 <= k < i && order[..i][k] == found[j];
    }
  }

  lemma SetStatusKeys(a: Assignments, ids: set<string>, s: Status)
    ensures SetStatus(a, ids, s).Keys == a.Keys
  {
  }

  lemma RaiseNone(a: Assignments, s: Status)
    ensures SetStatus(a, {}, s) == a
    ensures Elements<string>([]) == {}
  {
  }

  lemma RaiseMore(a: Assignments, ids: set<string>, s: Status, id: string)
    ensures SetStatus(SetStatus(a, ids, s), {id}, s) == SetStatus(a, ids + {id}, s)
  {
  }

  lemma RaisedEntry(a: Assignments, ids: set<string>, s: Status, id: string)
    requires id in SetStatus(a, ids, s)
    ensures SetStatus(a, ids, s).Keys == a.Keys
    ensures SetStatus(a, ids, s)[id] == if id in ids then a[id].(status := s) else a[id]
  {
  }

  lemma RootsMean(a: Assignments, m: string, id: string)
    requires id in a
    ensures id in Roots(a, m) <==> a[id].mission == m && a[id].status == Pending && a[id].deps == []
  {
  }

  lemma RootsIn(a: Assignments, m: string)
    ensures Roots(a, m) <= a.Keys
  {
  }

  lemma UnlockedIn(a: Assignments, m: string)
    ensures Unlocked(a, m) <= a.Keys
  {
  }

  lemma RunnableIn(a: Assignments, m: string)
    ensures Runnable(a, m) <= a.Keys
  {
  }

  lemma RunnableMeans(a: Assignments, m: string, id: string)
    requires id in a
    ensures id in Runnable(a, m) <==> a[id].mission == m && a[id].status == Ready && DepsDone(a, a[id].deps)
  {
  }

  /** Raising unlocked ids completes nothing, so it unlocks nothing. */
  lemma UnlockedMeans(a: Assignments, m: string, raised: set<string>, id: string)
    requires id in a && raised <= Unlocked(a, m)
    ensures id in Unlocked(a, m) && id !in raised <==>
            var b := SetStatus(a, raised, Ready);
            id in b && b[id].mission == m && b[id].status == Pending && b[id].deps != [] && DepsDone(b, b[id].deps)
  {
    var b := SetStatus(a, raised, Ready);
    assert forall x :: Done(b, x) <==> Done(a, x);
  }

  /** After one sweep nothing is left to promote. */
  lemma SweepSettles(a: Assignments, m: string)
    ensures Unlocked(SetStatus(a, Unlocked(a, m), Ready), m) == {}
  {
    var u := Unlocked(a, m);
    var b := SetStatus(a, u, Ready);
    UnlockedIn(a, m);
    assert b.Keys == a.Keys;
    hide Unlocked, SetStatus;
    forall id | id in a ensures id !in Unlocked(b, m) {
      UnlockedMeans(a, m, u, id);
      UnlockedMeans(b, m, {}, id);
      RaiseNone(b, Ready);
    }
    UnlockedIn(b, m);
  }
}
