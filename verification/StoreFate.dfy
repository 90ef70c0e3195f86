/** When recovery and initialisation can succeed, and when the store is wedged for good. */
module StoreFate {
  import opened Prelude
  import opened CanonicalJson
  import opened StoreModel
  import opened StoreSafety
  import opened StoreRecovery
  import opened StoreWitness

  // ---------------------------------------------------------------- recoverers have seen a history

  /** A recovery that has passed its validation and does not hold the lock yet. */
  predicate Validated(pc: Pc) {
    pc.Checked? || pc.Taking? || pc.Acquiring?
  }

  ghost predicate SawHistory(s: System) {
    forall p <- s.procs :: Validated(s.procs[p].pc) ==> s.disk.history != map[]
  }

  /** Validation is passed only on a history that is not empty. */
  lemma ActValidated(d: Digest, s: System, p: Pid, ok: bool, pick: nat)
    requires p in s.procs
    ensures var t := Act(d, s, p, ok, pick);
            p in t.procs && (Validated(t.procs[p].pc) ==> Validated(s.procs[p].pc) || s.disk.history != map[])
  {
    hide Begun, Inspect, Take, SettleOne, WriteVerdict, Finish, Release, WriteStarted, WriteLive, WriteHistory, Acquire;
    hide Read, Transform, ChainOk, Highest;
    ActOps(d, s, p, ok, pick);
    match s.procs[p].pc
    case Start => BegunValidated(d, s, p, ok);
    case Holding => ReadValidated(d, s.disk, p, s.procs[p].op, ok, pick);
    case Journaling(base) => StartedValidated(s, p, base, pick);
    case Transforming(base, id) => TransformValidated(d, s.disk, p, s.procs[p].op, base, id, ok);
    case Publish(e, mig) => HistoryValidated(s, p, e, mig);
    case PublishLive(e, mig) => LiveValidated(s, p, e, Finishing(e, mig));
    case Finishing(e, mig) => FinishGoes(s, p, e, mig, EndingOf(ok, pick));
    case Promoting(e) => LiveValidated(s, p, e, Settling(e));
    case Settling(e) => SettleValidated(s, p, e, ok, pick);
    case Releasing(code) => ReleaseValidated(s, p, code);
    case _ =>
  }

  lemma BegunValidated(d: Digest, s: System, p: Pid, ok: bool)
    requires p in s.procs
    ensures Validated(Begun(d, s, p, ok).procs[p].pc) ==> s.disk.history != map[]
  {
    hide ChainOk;
  }

  lemma ReadValidated(d: Digest, k: Disk, p: Pid, op: Op, ok: bool, pick: nat)
    ensures !Validated(Read(d, k, p, op, ok, pick))
  {
    hide ChainOk, NoStarted;
  }

  lemma TransformValidated(d: Digest, k: Disk, p: Pid, op: Op, base: Envelope, id: nat, ok: bool)
    ensures !Validated(Transform(d, k, p, op, base, id, ok))
  {
    hide ChainOk, Mutation, NoStarted;
  }

  lemma StartedValidated(s: System, p: Pid, base: Envelope, id: nat)
    requires p in s.procs
    ensures !Validated(WriteStarted(s, p, base, id).procs[p].pc)
  {
  }

  lemma HistoryValidated(s: System, p: Pid, e: Envelope, mig: Option<nat>)
    requires p in s.procs
    ensures !Validated(WriteHistory(s, p, e, mig).procs[p].pc)
  {
    hide OtherStarted;
  }

  lemma LiveValidated(s: System, p: Pid, e: Envelope, next: Pc)
    requires p in s.procs
    ensures WriteLive(s, p, e, next).procs[p].pc == next
  {
  }

  lemma SettleValidated(s: System, p: Pid, e: Envelope, ok: bool, id: nat)
    requires p in s.procs && s.procs[p].pc == Settling(e)
    ensures !Validated(SettleOne(s, p, e, ok, id).procs[p].pc)
  {
    hide NoStarted, Settle;
  }

  lemma ReleaseValidated(s: System, p: Pid, code: Code)
    requires p in s.procs
    ensures !Validated(Release(s, p, code).procs[p].pc)
  {
  }

  lemma NextSawHistory(d: Digest, s: System, e: Event)
    requires SawHistory(s)
    ensures SawHistory(Next(d, s, e))
  {
    hide Act, Recovering;
    NextExtends(d, s, e);
    if e.Step? && e.p in s.procs {
      ActOps(d, s, e.p, e.ok, e.pick);
      ActValidated(d, s, e.p, e.ok, e.pick);
    }
  }

  lemma {:induction false} EveryRunSawHistory(d: Digest, events: seq<Event>)
    ensures SawHistory(Run(d, events))
  {
    hide Next, SawHistory;
    if events == [] {
      NobodyValidated();
    } else {
      EveryRunSawHistory(d, events[..|events| - 1]);
      NextSawHistory(d, Run(d, events[..|events| - 1]), events[|events| - 1]);
    }
  }

  lemma NobodyValidated()
    ensures SawHistory(EMPTY)
  {
  }

  // ---------------------------------------------------------------- the wedge

  /** Nothing is published and the lock belongs to a process that died. */
  ghost predicate Abandoned(s: System) {
    s.disk.history == map[] && s.disk.lock.Some?
    && s.disk.lock.value in s.procs && !s.procs[s.disk.lock.value].alive
  }

  /** What every process that comes too late is told. */
  predicate Refused(pc: Pc) {
    pc == Start || pc == Finished(Locked) || pc == Finished(SafetyHalt)
  }

  /** In a wedged store nobody alive is past its first action. */
  ghost predicate Wedged(s: System) {
    Abandoned(s) && forall p <- s.procs :: s.procs[p].alive ==> s.procs[p].pc.Start? || s.procs[p].pc.Finished?
  }

  /** Every reachable store without history whose lock owner died is wedged. */
  lemma AbandonedWedged(d: Digest, events: seq<Event>)
    requires Abandoned(Run(d, events))
    ensures Wedged(Run(d, events))
  {
    hide Run, ChainOk, OwnerOk, LiveOk, Lineage, OutcomeOk, MigrationsOk;
    EveryRunInv(d, events);
    EveryRunSawHistory(d, events);
    var s := Run(d, events);
    forall p <- s.procs | s.procs[p].alive ensures s.procs[p].pc.Start? || s.procs[p].pc.Finished? {
      assert !Critical(s.procs[p].pc);
      assert !Validated(s.procs[p].pc);
    }
  }

  /** A first action on a wedged store is refused. */
  lemma WedgedBegun(d: Digest, s: System, p: Pid, ok: bool)
    requires Wedged(s) && p in s.procs
    ensures Begun(d, s, p, ok) == Goto(s, p, Finished(if s.procs[p].op.Recover? then SafetyHalt else Locked))
  {
    hide ChainOk;
  }

  lemma WedgedNext(d: Digest, s: System, e: Event)
    requires Wedged(s)
    ensures var t := Next(d, s, e);
            && Wedged(t) && t.disk == s.disk && s.procs.Keys <= t.procs.Keys
            && (forall p <- t.procs :: p in s.procs ==> t.procs[p].op == s.procs[p].op)
            && (forall p <- t.procs :: (p in s.procs ==> Refused(s.procs[p].pc)) ==> Refused(t.procs[p].pc))
  {
    hide Begun, Recovering;
    if e.Step? && e.p in s.procs && s.procs[e.p].alive && s.procs[e.p].pc.Start? {
      WedgedBegun(d, s, e.p, e.ok);
    }
  }

  /**
   A store that was left without history under the lock of a dead process stays as it is forever,
   whatever anybody does: every later operation, recovery included, is answered LOCKED or SAFETY_HALT.
   */
  lemma {:induction false} WedgedForever(d: Digest, before: seq<Event>, later: seq<Event>)
    requires Abandoned(Run(d, before))
    ensures var s, t := Run(d, before), Run(d, before + later);
            && t.disk == s.disk && Wedged(t) && s.procs.Keys <= t.procs.Keys
            && (forall p <- t.procs :: p !in s.procs ==> Refused(t.procs[p].pc))
  {
    hide Run, Next, Wedged, Abandoned;
    AbandonedWedged(d, before);
    if later == [] {
      assert before + later == before;
    } else {
      var n := |later| - 1;
      WedgedForever(d, before, later[..n]);
      assert (before + later)[..|before + later| - 1] == before + later[..n];
      RunLast(d, before + later);
      WedgedNext(d, Run(d, before + later[..n]), later[n]);
    }
  }

  lemma RunLast(d: Digest, events: seq<Event>)
    requires events != []
    ensures Run(d, events) == Next(d, Run(d, events[..|events| - 1]), events[|events| - 1])
  {
    hide Next;
  }

  /** Any operation but a recovery that dies with the lock on an empty store wedges it. */
  lemma WedgeReachable(d: Digest, op: Op) returns (events: seq<Event>)
    requires !op.Recover?
    ensures Abandoned(Run(d, events))
  {
    hide Run, Next, Now, Continue;
    var s := EMPTY;
    var k := s.disk.(lock := Some(0));
    ContinueNone(d, s);
    Begins(d, s, 0, op);
    events := Do(d, s, [], Begin(0, op), s, Now(s, 0, op, s.disk, Start));
    Locks(d, s, 0, op);
    events := Do(d, s, events, Step(0, true, 0), Now(s, 0, op, s.disk, Start), Now(s, 0, op, k, Holding));
    NowMeans(s, 0, op, k, Holding);
    Crashes(d, Now(s, 0, op, k, Holding), 0);
    events := Do(d, s, events, Crash(0), Now(s, 0, op, k, Holding), Killed(Now(s, 0, op, k, Holding), 0));
    RunContinue(d, [], events);
    assert [] + events == events;
    RunNone(d);
  }

  lemma RunNone(d: Digest)
    ensures Run(d, []) == EMPTY
  {
  }

  // ---------------------------------------------------------------- exactly when an operation can succeed

  /** The events of one initialisation by process `p`, and of nobody else. */
  ghost predicate InitializationBy(p: Pid, events: seq<Event>) {
    forall e <- events :: e.p == p && (e.Step? || (e.Begin? && e.op.Initialize?))
  }

  ghost predicate Reports(s: System, p: Pid, code: Code) {
    p in s.procs && s.procs[p].pc == Finished(code)
  }

  ghost predicate CanRecover(d: Digest, before: seq<Event>, p: Pid) {
    exists events :: RecoveryBy(p, events) && Reports(Run(d, before + events), p, Recovered)
  }

  ghost predicate CanInitialize(d: Digest, before: seq<Event>, p: Pid) {
    exists events :: InitializationBy(p, events) && Reports(Run(d, before + events), p, Initialized)
  }

  /** On an empty history a recovery by `p` gets no further than its validation. */
  lemma {:induction false} EmptyHalts(d: Digest, before: seq<Event>, p: Pid, events: seq<Event>)
    requires Run(d, before).disk.history == map[] && p !in Run(d, before).procs && RecoveryBy(p, events)
    ensures var s, t := Run(d, before), Run(d, before + events);
            t.disk == s.disk
            && (p in t.procs ==> t.procs[p].op.Recover? && t.procs[p].pc in {Start, Finished(SafetyHalt)})
  {
    hide Run, Next;
    if events == [] {
      assert before + events == before;
    } else {
      var n := |events| - 1;
      assert forall e <- events[..n] :: e in events;
      EmptyHalts(d, before, p, events[..n]);
      assert (before + events)[..|before + events| - 1] == before + events[..n];
      RunLast(d, before + events);
      assert events[n] in events;
      EmptyHaltsNext(d, Run(d, before + events[..n]), p, events[n]);
    }
  }

  lemma EmptyHaltsNext(d: Digest, s: System, p: Pid, e: Event)
    requires s.disk.history == map[] && e.p == p && (e.Step? || (e.Begin? && e.op.Recover?))
    requires p in s.procs ==> s.procs[p].op.Recover? && s.procs[p].pc in {Start, Finished(SafetyHalt)}
    ensures var t := Next(d, s, e);
            t.disk == s.disk
            && (p in t.procs ==> t.procs[p].op.Recover? && t.procs[p].pc in {Start, Finished(SafetyHalt)})
  {
    hide ChainOk, Recovering;
  }

  // What a recovery that nobody disturbs has done to the disk `k` at each of its points.

  /** Some of the STARTED records are settled, and nothing else is changed. */
  ghost predicate PartlySettled(was: map<nat, Migration>, now: map<nat, Migration>, top: Envelope) {
    now.Keys == was.Keys && forall id <- was :: now[id] == was[id] || now[id] == SettleAll(was, top)[id]
  }

  ghost predicate SoFar(k: Disk, now: Disk, p: Pid, pc: Pc)
    requires |k.history| in k.history
  {
    var top := k.history[|k.history|];
    match pc
    case Start => now == k
    case Checked => now == k
    case Taking(_) => now == k
    case Acquiring => now == k.(lock := None)
    case Reading => now == k.(lock := Some(p))
    case Promoting(e) => now == k.(lock := Some(p)) && e == top
    case Settling(e) =>
      e == top && now == k.(lock := Some(p), live := Some(top), migrations := now.migrations)
      && PartlySettled(k.migrations, now.migrations, top)
    case Releasing(code) => code == Recovered ==> now.lock == Some(p) && now.(lock := None) == RecoveredDisk(k)
    case Finished(code) => code == Recovered ==> now == RecoveredDisk(k)
    case _ => false
  }

  ghost predicate Along(s: System, p: Pid, t: System)
    requires |s.disk.history| in s.disk.history
  {
    if p in t.procs then t.procs[p].op.Recover? && SoFar(s.disk, t.disk, p, t.procs[p].pc) else t == s
  }

  lemma SettleOneSoFar(k: Disk, now: Disk, p: Pid, id: nat)
    requires |k.history| in k.history && SoFar(k, now, p, Settling(k.history[|k.history|]))
    requires id in now.migrations && now.migrations[id].result == Started
    ensures var top := k.history[|k.history|];
            var m := now.migrations[id].(result := Settle(top, now.migrations[id]));
            SoFar(k, now.(migrations := now.migrations[id := m]), p, Settling(top))
  {
    SettleEnds(k.history[|k.history|], k.migrations[id]);
    hide Settle;
  }

  lemma AllSettled(k: Disk, now: Disk, p: Pid)
    requires |k.history| in k.history && SoFar(k, now, p, Settling(k.history[|k.history|])) && NoStarted(now)
    ensures now.(lock := None) == RecoveredDisk(k) && now.lock == Some(p)
  {
    hide Settle;
    var top := k.history[|k.history|];
    forall id <- k.migrations ensures now.migrations[id] == SettleAll(k.migrations, top)[id] {
      assert now.migrations[id].result != Started;
    }
    assert now.migrations == SettleAll(k.migrations, top);
  }

  lemma AlongSettling(s: System, p: Pid, t: System, e: Envelope, ok: bool, id: nat)
    requires |s.disk.history| in s.disk.history && p in t.procs && t.procs[p].pc == Settling(e) && Along(s, p, t)
    ensures Along(s, p, SettleOne(t, p, e, ok, id))
  {
    hide Settle, SettleAll, NoStarted, RecoveredDisk, PartlySettled;
    if NoStarted(t.disk) {
      AllSettled(s.disk, t.disk, p);
    } else if id in t.disk.migrations && t.disk.migrations[id].result == Started {
      SettleOneSoFar(s.disk, t.disk, p, id);
    }
  }

  lemma AlongEarly(d: Digest, s: System, p: Pid, t: System, ok: bool)
    requires |s.disk.history| in s.disk.history && p in t.procs && Along(s, p, t)
    requires t.procs[p].pc.Start? || Validated(t.procs[p].pc)
    ensures Along(s, p, Act(d, t, p, ok, 0))
    ensures forall pick :: Act(d, t, p, ok, pick) == Act(d, t, p, ok, 0)
  {
    hide ChainOk, Behind, RecoveredDisk, PartlySettled;
    var op := t.procs[p].op;
    assert op.Recover?;
  }

  lemma AlongLate(d: Digest, s: System, p: Pid, t: System, ok: bool)
    requires ChainOk(d, s.disk.history) && s.disk.history != map[] && |s.disk.history| in s.disk.history
    requires p in t.procs && Along(s, p, t)
    requires t.procs[p].pc.Reading? || t.procs[p].pc.Promoting? || t.procs[p].pc.Releasing? || t.procs[p].pc.Finished?
    ensures Along(s, p, Act(d, t, p, ok, 0))
    ensures forall pick :: Act(d, t, p, ok, pick) == Act(d, t, p, ok, 0)
  {
    hide ChainOk, RecoveredDisk, PartlySettled, Highest;
    HighestTop(d, s.disk.history);
    PartlyNone(s.disk.migrations, s.disk.history[|s.disk.history|]);
    assert t.procs[p].pc.Reading? || t.procs[p].pc.Promoting? ==> t.disk.history == s.disk.history;
  }

  lemma AlongSettles(d: Digest, s: System, p: Pid, t: System, ok: bool, pick: nat)
    requires |s.disk.history| in s.disk.history && p in t.procs && t.procs[p].pc.Settling? && Along(s, p, t)
    ensures Along(s, p, Act(d, t, p, ok, pick))
  {
    hide Along, SettleOne;
    AlongSettling(s, p, t, t.procs[p].pc.highest, ok, pick);
  }

  /** A recovery is never at any other point. */
  lemma AlongPoints(s: System, p: Pid, t: System)
    requires |s.disk.history| in s.disk.history && p in t.procs && Along(s, p, t)
    ensures var pc := t.procs[p].pc;
            pc.Start? || Validated(pc) || pc.Reading? || pc.Promoting? || pc.Settling? || pc.Releasing? || pc.Finished?
  {
    hide RecoveredDisk, PartlySettled;
  }

  lemma AlongNext(d: Digest, s: System, p: Pid, t: System, e: Event)
    requires ChainOk(d, s.disk.history) && s.disk.history != map[] && |s.disk.history| in s.disk.history
    requires p !in s.procs && Along(s, p, t) && e.p == p && (e.Step? || (e.Begin? && e.op.Recover?))
    ensures Along(s, p, Next(d, t, e))
  {
    if e.Begin? {
      hide ChainOk, RecoveredDisk, PartlySettled, Recovering;
    } else if p in t.procs && t.procs[p].alive {
      hide Along, Act, ChainOk;
      AlongPoints(s, p, t);
      var pc := t.procs[p].pc;
      if pc.Start? || Validated(pc) {
        AlongEarly(d, s, p, t, e.ok);
      } else if pc.Settling? {
        AlongSettles(d, s, p, t, e.ok, e.pick);
      } else {
        AlongLate(d, s, p, t, e.ok);
      }
    }
  }

  lemma PartlyNone(m: map<nat, Migration>, top: Envelope)
    ensures PartlySettled(m, m, top)
  {
  }

  lemma PublishedTop(d: Digest, events: seq<Event>)
    requires Run(d, events).disk.history != map[]
    ensures var h := Run(d, events).disk.history; ChainOk(d, h) && |h| in h
  {
    hide Run, Inv;
    EveryRunInv(d, events);
    InvChain(d, Run(d, events));
    HighestTop(d, Run(d, events).disk.history);
  }

  lemma {:induction false} EveryAlong(d: Digest, before: seq<Event>, p: Pid, events: seq<Event>)
    requires var s := Run(d, before); p !in s.procs && s.disk.history != map[] && RecoveryBy(p, events)
    ensures var s := Run(d, before);
            |s.disk.history| in s.disk.history && Along(s, p, Run(d, before + events))
  {
    hide Run, Next, ChainOk, SoFar;
    var s := Run(d, before);
    PublishedTop(d, before);
    if events == [] {
      assert before + events == before;
    } else {
      hide Along;
      var n := |events| - 1;
      assert forall e <- events[..n] :: e in events;
      EveryAlong(d, before, p, events[..n]);
      assert (before + events)[..|before + events| - 1] == before + events[..n];
      RunLast(d, before + events);
      assert events[n] in events;
      AlongNext(d, s, p, Run(d, before + events[..n]), events[n]);
    }
  }

  /**
   Once nobody else is running a recovery can succeed exactly when something has been published.
   However it gets to report RECOVERED, live is then the highest revision, the history is as it was,
   every STARTED record is settled and the lock is free; on an empty history it never changes the disk.
   */
  lemma RecoveryExactly(d: Digest, before: seq<Event>, p: Pid)
    requires Quiet(Run(d, before)) && p !in Run(d, before).procs
    ensures CanRecover(d, before, p) <==> Run(d, before).disk.history != map[]
    ensures forall events :: RecoveryBy(p, events) && Reports(Run(d, before + events), p, Recovered) ==>
              var k := Run(d, before).disk;
              |k.history| in k.history && Run(d, before + events).disk == RecoveredDisk(k)
    ensures forall events :: RecoveryBy(p, events) && Run(d, before).disk.history == map[] ==>
              Run(d, before + events).disk == Run(d, before).disk
  {
    hide Run, Quiet, RecoveryBy, RecoveredDisk;
    if Run(d, before).disk.history != map[] {
      var events := RecoveryCompletes(d, before, p);
      assert Reports(Run(d, before + events), p, Recovered);
      forall events | RecoveryBy(p, events) && Reports(Run(d, before + events), p, Recovered)
        ensures var k := Run(d, before).disk;
                |k.history| in k.history && Run(d, before + events).disk == RecoveredDisk(k)
      {
        EveryAlong(d, before, p, events);
      }
    } else {
      forall events | RecoveryBy(p, events)
        ensures !Reports(Run(d, before + events), p, Recovered)
        ensures Run(d, before + events).disk == Run(d, before).disk
      {
        EmptyHalts(d, before, p, events);
      }
    }
  }

  /** On an empty store an initialisation can succeed exactly when no dead process owns the lock. */
  lemma InitializationExactly(d: Digest, before: seq<Event>, p: Pid)
    requires var s := Run(d, before); Quiet(s) && p !in s.procs && s.disk.history == map[]
    ensures CanInitialize(d, before, p) <==> !Abandoned(Run(d, before))
  {
    hide Run, Quiet, InitializationBy, Wedged;
    var s := Run(d, before);
    if Abandoned(s) {
      forall events | InitializationBy(p, events) ensures !Reports(Run(d, before + events), p, Initialized) {
        WedgedForever(d, before, events);
      }
    } else {
      EveryRunInv(d, before);
      QuietLock(d, s);
      var events := InitializeCompletes(d, before, p, Null);
      assert InitializationBy(p, events) by { InitializationEvents(p, events); }
      assert Reports(Run(d, before + events), p, Initialized);
    }
  }

  lemma InitializationEvents(p: Pid, events: seq<Event>)
    requires forall v <- events :: v.p == p && (v.Step? || v == Begin(p, Initialize(Null)))
    ensures InitializationBy(p, events)
  {
  }

  lemma QuietLock(d: Digest, s: System)
    requires Inv(d, s) && Quiet(s) && s.disk.history == map[] && !Abandoned(s)
    ensures s.disk.lock.None?
  {
    hide Inv;
    if s.disk.lock.Some? {
      LockOwnerDead(d, s);
    }
  }
}
