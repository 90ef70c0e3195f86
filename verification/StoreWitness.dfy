/** Runs of the store: an update carried through, and the runs in which weaker promises fail. */
module StoreWitness {
  import opened Prelude
  import opened CanonicalJson
  import opened StoreModel
  import opened StoreSafety
  import opened StoreRecovery

  /** `s` with process `p` running `op` at `pc` over disk `k`. */
  ghost function Now(s: System, p: Pid, op: Op, k: Disk, pc: Pc): System {
    System(k, s.procs[p := Proc(op, pc, true)], s.torn, s.crossed)
  }

  /** One more event. */
  lemma Do(d: Digest, s: System, events: seq<Event>, e: Event, cur: System, next: System) returns (more: seq<Event>)
    requires Continue(d, s, events) == cur && Next(d, cur, e) == next
    ensures more == events + [e] && Continue(d, s, more) == next
  {
    hide Next;
    ContinueSnoc(d, s, events, e);
    more := events + [e];
  }

  lemma NowNow(s: System, p: Pid, op: Op, k: Disk, pc: Pc, l: Disk, qc: Pc)
    ensures Now(Now(s, p, op, k, pc), p, op, l, qc) == Now(s, p, op, l, qc)
  {
  }

  lemma Begins(d: Digest, s: System, p: Pid, op: Op)
    requires p !in s.procs && !op.Recover?
    ensures Next(d, s, Begin(p, op)) == Now(s, p, op, s.disk, Start)
  {
    hide Act;
  }

  lemma Locks(d: Digest, s: System, p: Pid, op: Op)
    requires s.disk.lock.None? && !op.Recover?
    ensures Next(d, Now(s, p, op, s.disk, Start), Step(p, true, 0))
            == Now(s, p, op, s.disk.(lock := Some(p)), Holding)
  {
    NowNow(s, p, op, s.disk, Start, s.disk, Holding);
  }

  /** An update that may go ahead: the store is healthy, the expectation current, the mutation accepted. */
  ghost predicate MayUpdate(s: System, op: Op) {
    && s.disk.lock.None? && InSync(s.disk) && NoStarted(s.disk)
    && op.Update? && op.expected == |s.disk.history|
    && op.mutate(s.disk.history[|s.disk.history|].state).Some?
  }

  /** The envelope such an update publishes. */
  ghost function NextEnvelope(d: Digest, s: System, p: Pid, op: Op): Envelope
    requires |s.disk.history| in s.disk.history && Mutation(op, s.disk.history[|s.disk.history|].state).Some?
  {
    var top := s.disk.history[|s.disk.history|];
    NewEnvelope(d, Mutation(op, top.state).value, |s.disk.history| + 1, p, top.stateHash)
  }

  lemma UpdateReads(d: Digest, s: System, p: Pid, op: Op)
    requires ChainOk(d, s.disk.history) && MayUpdate(s, op)
    ensures var k := s.disk.(lock := Some(p));
            Next(d, Now(s, p, op, k, Holding), Step(p, true, 0))
            == Now(s, p, op, k, Publish(NextEnvelope(d, s, p, op), None))
  {
    hide NoStarted;
    var k := s.disk.(lock := Some(p));
    ChainTop(d, s.disk.history);
    hide ChainOk;
    assert NoStarted(k) by { SameNoStarted(s.disk, k); }
    NowNow(s, p, op, k, Holding, k, Publish(NextEnvelope(d, s, p, op), None));
  }

  lemma SameNoStarted(k: Disk, l: Disk)
    requires NoStarted(k) && l.migrations == k.migrations
    ensures NoStarted(l)
  {
  }

  lemma PublishesHistory(d: Digest, s: System, p: Pid, op: Op, k: Disk, e: Envelope)
    requires e.revision !in k.history
    ensures Next(d, Now(s, p, op, k, Publish(e, None)), Step(p, true, 0))
            == Now(s, p, op, k.(history := k.history[e.revision := e]), PublishLive(e, None))
  {
    NowNow(s, p, op, k, Publish(e, None), k, PublishLive(e, None));
  }

  lemma PublishesLive(d: Digest, s: System, p: Pid, op: Op, k: Disk, e: Envelope)
    ensures Next(d, Now(s, p, op, k, PublishLive(e, None)), Step(p, true, 0))
            == Now(s, p, op, k.(live := Some(e)), Finishing(e, None))
  {
    NowNow(s, p, op, k, PublishLive(e, None), k, Finishing(e, None));
  }

  /** The step that resolves what follows a publication. */
  function Ends(p: Pid, ending: Ending): Event {
    Step(p, ending.Complete?, if ending.NoAudit? then 1 else 0)
  }

  lemma Finishes(d: Digest, s: System, p: Pid, op: Op, k: Disk, e: Envelope, ending: Ending)
    requires op.Update?
    ensures Next(d, Now(s, p, op, k, Finishing(e, None)), Ends(p, ending)) == Now(s, p, op, k, Releasing(Told(ending)))
  {
    NowNow(s, p, op, k, Finishing(e, None), k, Releasing(Told(ending)));
  }

  lemma Releases(d: Digest, s: System, p: Pid, op: Op, k: Disk, code: Code)
    requires k.lock == Some(p)
    ensures Next(d, Now(s, p, op, k, Releasing(code)), Step(p, true, 0))
            == Now(s, p, op, k.(lock := None), Finished(code))
  {
    NowNow(s, p, op, k, Releasing(code), k, Finished(code));
  }

  /** Up to the publication of its revision. */
  lemma UpdatePublishes(d: Digest, s: System, p: Pid, op: Op) returns (events: seq<Event>)
    requires ChainOk(d, s.disk.history) && MayUpdate(s, op) && p !in s.procs
    ensures var e := NextEnvelope(d, s, p, op);
            && e.revision !in s.disk.history
            && Continue(d, s, events)
               == Now(s, p, op, s.disk.(lock := Some(p), history := s.disk.history[e.revision := e]),
                      PublishLive(e, None))
  {
    hide Next, Now, ChainOk, NextEnvelope, NoStarted, Continue;
    var step := Step(p, true, 0);
    var k := s.disk.(lock := Some(p));
    var e := NextEnvelope(d, s, p, op);
    assert e.revision == |s.disk.history| + 1 by { EnvelopeRevision(d, s, p, op); }
    ChainTop(d, s.disk.history);
    ContinueNone(d, s);
    Begins(d, s, p, op);
    events := Do(d, s, [], Begin(p, op), s, Now(s, p, op, s.disk, Start));
    Locks(d, s, p, op);
    events := Do(d, s, events, step, Now(s, p, op, s.disk, Start), Now(s, p, op, k, Holding));
    UpdateReads(d, s, p, op);
    events := Do(d, s, events, step, Now(s, p, op, k, Holding), Now(s, p, op, k, Publish(e, None)));
    PublishesHistory(d, s, p, op, k, e);
    events := Do(d, s, events, step, Now(s, p, op, k, Publish(e, None)),
                 Now(s, p, op, k.(history := k.history[e.revision := e]), PublishLive(e, None)));
  }

  lemma EnvelopeRevision(d: Digest, s: System, p: Pid, op: Op)
    requires |s.disk.history| in s.disk.history && Mutation(op, s.disk.history[|s.disk.history|].state).Some?
    ensures NextEnvelope(d, s, p, op).revision == |s.disk.history| + 1
  {
  }

  /**
   From every reachable healthy state an update that nobody disturbs publishes its mutation of the
   live state as the next revision. The outcome is UPDATED when audit and checkpoint succeed, and
   another code when they fail: the disk is the same in both cases, so an outcome other than
   UPDATED does not mean that nothing was published.
   */
  lemma UpdateCompletes(d: Digest, before: seq<Event>, p: Pid, op: Op, ending: Ending) returns (events: seq<Event>)
    requires MayUpdate(Run(d, before), op) && p !in Run(d, before).procs
    ensures var s, t := Run(d, before), Run(d, before + events);
            var e := NextEnvelope(d, s, p, op);
            && t.disk == s.disk.(history := s.disk.history[e.revision := e], live := Some(e))
            && e.revision == |s.disk.history| + 1
            && Some(e.state) == op.mutate(s.disk.live.value.state)
            && p in t.procs
            && t.procs[p].pc == Finished(match ending
                                         case Complete => Updated
                                         case NoCheckpoint => Halted
                                         case NoAudit => IoFailure)
  {
    hide Run, Inv, Next, Now, Continue, ChainOk, NextEnvelope, NoStarted;
    var s := Run(d, before);
    EveryRunInv(d, before);
    InvChain(d, s);
    events := UpdatePublishes(d, s, p, op);
    var e := NextEnvelope(d, s, p, op);
    var k := s.disk.(lock := Some(p), history := s.disk.history[e.revision := e]);
    PublishesLive(d, s, p, op, k, e);
    events := Do(d, s, events, Step(p, true, 0),
                 Now(s, p, op, k, PublishLive(e, None)), Now(s, p, op, k.(live := Some(e)), Finishing(e, None)));
    Finishes(d, s, p, op, k.(live := Some(e)), e, ending);
    var code := Told(ending);
    events := Do(d, s, events, Ends(p, ending),
                 Now(s, p, op, k.(live := Some(e)), Finishing(e, None)),
                 Now(s, p, op, k.(live := Some(e)), Releasing(code)));
    Releases(d, s, p, op, k.(live := Some(e)), code);
    events := Do(d, s, events, Step(p, true, 0),
                 Now(s, p, op, k.(live := Some(e)), Releasing(code)),
                 Now(s, p, op, k.(live := Some(e), lock := None), Finished(code)));
    RunContinue(d, before, events);
    NowMeans(s, p, op, k.(live := Some(e), lock := None), Finished(code));
    EnvelopeState(d, s, p, op);
  }

  lemma EnvelopeState(d: Digest, s: System, p: Pid, op: Op)
    requires |s.disk.history| in s.disk.history && Mutation(op, s.disk.history[|s.disk.history|].state).Some?
    ensures Some(NextEnvelope(d, s, p, op).state) == Mutation(op, s.disk.history[|s.disk.history|].state)
    ensures NextEnvelope(d, s, p, op).revision == |s.disk.history| + 1
  {
  }

  lemma NowMeans(s: System, p: Pid, op: Op, k: Disk, pc: Pc)
    ensures var t := Now(s, p, op, k, pc);
            t.disk == k && p in t.procs && t.procs[p].pc == pc && t.torn == s.torn && t.crossed == s.crossed
  {
  }

  // ---------------------------------------------------------------- a fresh store

  /** Wherever nothing is published and the lock is free, an undisturbed initialisation publishes revision 1. */
  lemma InitializeCompletes(d: Digest, before: seq<Event>, p: Pid, state: State) returns (events: seq<Event>)
    requires var s := Run(d, before); s.disk.history == map[] && s.disk.lock.None? && p !in s.procs
    ensures var s, t := Run(d, before), Run(d, before + events);
            var e := NewEnvelope(d, state, 1, p, d.zero);
            && (forall v <- events :: v.p == p && (v.Step? || v == Begin(p, Initialize(state))))
            && t.disk == s.disk.(history := map[1 := e], live := Some(e))
            && p in t.procs && t.procs[p].pc == Finished(Initialized)
  {
    hide Run, Inv, Next, Now, Continue;
    var s := Run(d, before);
    EveryRunInv(d, before);
    EmptyLive(d, s);
    var op := Initialize(state);
    var e := NewEnvelope(d, state, 1, p, d.zero);
    var step := Step(p, true, 0);
    var k := s.disk.(lock := Some(p));
    ContinueNone(d, s);
    Begins(d, s, p, op);
    events := Do(d, s, [], Begin(p, op), s, Now(s, p, op, s.disk, Start));
    Locks(d, s, p, op);
    events := Do(d, s, events, step, Now(s, p, op, s.disk, Start), Now(s, p, op, k, Holding));
    InitializeReads(d, s, p, op, k);
    events := Do(d, s, events, step, Now(s, p, op, k, Holding), Now(s, p, op, k, Publish(e, None)));
    PublishesHistory(d, s, p, op, k, e);
    var l := k.(history := map[1 := e]);
    assert k.history[e.revision := e] == map[1 := e];
    events := Do(d, s, events, step, Now(s, p, op, k, Publish(e, None)), Now(s, p, op, l, PublishLive(e, None)));
    PublishesLive(d, s, p, op, l, e);
    var n := l.(live := Some(e));
    events := Do(d, s, events, step, Now(s, p, op, l, PublishLive(e, None)), Now(s, p, op, n, Finishing(e, None)));
    InitializeFinishes(d, s, p, op, n, e);
    events := Do(d, s, events, step, Now(s, p, op, n, Finishing(e, None)), Now(s, p, op, n, Releasing(Initialized)));
    Releases(d, s, p, op, n, Initialized);
    events := Do(d, s, events, step, Now(s, p, op, n, Releasing(Initialized)),
                 Now(s, p, op, n.(lock := None), Finished(Initialized)));
    RunContinue(d, before, events);
    NowMeans(s, p, op, n.(lock := None), Finished(Initialized));
  }

  lemma EmptyLive(d: Digest, s: System)
    requires Inv(d, s) && s.disk.history == map[]
    ensures s.disk.live.None?
  {
    hide ChainOk, LockOk, OwnerOk, Lineage, OutcomeOk, MigrationsOk;
    LiveTop(s);
  }

  lemma InitializeReads(d: Digest, s: System, p: Pid, op: Op, k: Disk)
    requires op.Initialize? && k.history == map[] && k.live.None?
    ensures Next(d, Now(s, p, op, k, Holding), Step(p, true, 0))
            == Now(s, p, op, k, Publish(NewEnvelope(d, op.state, 1, p, d.zero), None))
  {
    NowNow(s, p, op, k, Holding, k, Publish(NewEnvelope(d, op.state, 1, p, d.zero), None));
  }

  lemma InitializeFinishes(d: Digest, s: System, p: Pid, op: Op, k: Disk, e: Envelope)
    requires op.Initialize?
    ensures Next(d, Now(s, p, op, k, Finishing(e, None)), Step(p, true, 0)) == Now(s, p, op, k, Releasing(Initialized))
  {
    NowNow(s, p, op, k, Finishing(e, None), k, Releasing(Initialized));
  }

  // ---------------------------------------------------------------- the takeover window

  /**
   A writer dies between its two publications and a recoverer dies right after renaming the stale
   lock: now nobody runs, the lock is free, and yet live is not the highest revision. This can
   happen from every reachable healthy state.
   */
  lemma TornReachable(d: Digest, before: seq<Event>, p: Pid, r: Pid, op: Op) returns (events: seq<Event>)
    requires var s := Run(d, before); MayUpdate(s, op) && Quiet(s) && p !in s.procs && r !in s.procs && p != r
    ensures var s, t := Run(d, before), Run(d, before + events);
            && Quiet(t) && t.disk.lock.None? && Behind(t.disk)
            && t.disk.live == s.disk.live && |t.disk.history| == |s.disk.history| + 1
  {
    hide Run, Inv, Next, Now, Continue, ChainOk, NextEnvelope, NoStarted, Quiet, Behind;
    var s := Run(d, before);
    EveryRunInv(d, before);
    InvChain(d, s);
    events := UpdatePublishes(d, s, p, op);
    var e := NextEnvelope(d, s, p, op);
    var k := s.disk.(lock := Some(p), history := s.disk.history[e.revision := e]);
    EnvelopeState(d, s, p, op);
    var t := Now(s, p, op, k, PublishLive(e, None));
    TornBase(s, p, op, k, e, r);
    var u := Killed(t, p);
    Crashes(d, t, p);
    events := Do(d, s, events, Crash(p), t, u);
    assert e.revision in u.disk.history;
    RunContinue(d, before, events);
    EveryRunInv(d, before + events);
    var more := TakeAndDie(d, u, r);
    ContinueAppend(d, s, events, more);
    events := events + more;
    RunContinue(d, before, events);
    TornBehind(d, s, u, p, op, e);
  }

  ghost function Killed(s: System, p: Pid): System
    requires p in s.procs
  {
    s.(procs := s.procs[p := s.procs[p].(alive := false)])
  }

  lemma Crashes(d: Digest, s: System, p: Pid)
    requires p in s.procs
    ensures Next(d, s, Crash(p)) == Killed(s, p)
  {
    hide Act;
  }

  lemma TornBase(s: System, p: Pid, op: Op, k: Disk, e: Envelope, r: Pid)
    requires Quiet(s) && r !in s.procs && r != p
    ensures var t := Now(s, p, op, k, PublishLive(e, None));
            p in t.procs && Quiet(Killed(t, p)) && r !in Killed(t, p).procs && Killed(t, p).disk == k
  {
  }

  lemma TornBehind(d: Digest, s: System, u: System, p: Pid, op: Op, e: Envelope)
    requires ChainOk(d, s.disk.history) && InSync(s.disk) && e.revision == |s.disk.history| + 1
    requires u.disk == s.disk.(lock := Some(p), history := s.disk.history[e.revision := e])
    ensures Behind(u.disk.(lock := None)) && |u.disk.history| == |s.disk.history| + 1
  {
    hide ChainOk;
    ChainTop(d, s.disk.history);
    TopRevision(d, s.disk);
    assert |u.disk.history| == |s.disk.history| + 1;
    assert u.disk.history[|u.disk.history|] == e;
  }

  /** The first half of a recovery, cut short. */
  lemma TakeAndDie(d: Digest, s: System, r: Pid) returns (events: seq<Event>)
    requires Inv(d, s) && Quiet(s) && r !in s.procs && s.disk.history != map[] && s.disk.lock.Some?
    ensures var t := Continue(d, s, events);
            t.disk == s.disk.(lock := None) && Quiet(t) && t.procs.Keys == s.procs.Keys + {r}
            && (forall q <- s.procs :: t.procs[q] == s.procs[q]) && t.crossed == s.crossed
  {
    hide Inv, Next, Continue, ChainOk, Behind, At;
    var q := s.disk.lock.value;
    var step := Step(r, true, 0);
    LockOwnerDead(d, s);
    ContinueNone(d, s);
    QuietNoRecovery(s);
    BeginQuiet(d, s, r);
    events := Do(d, s, [], Begin(r, Recover(true)), s, At(s, r, s.disk, Start, s.torn));
    FromStart(d, s, r);
    events := Do(d, s, events, step, At(s, r, s.disk, Start, s.torn), At(s, r, s.disk, Checked, s.torn));
    FromChecked(d, s, r, s.torn);
    events := Do(d, s, events, step, At(s, r, s.disk, Checked, s.torn), At(s, r, s.disk, Taking(q), s.torn));
    FromTaking(d, s, r, q);
    var torn := s.torn || Behind(s.disk);
    var t := At(s, r, s.disk.(lock := None), Acquiring, torn);
    events := Do(d, s, events, step, At(s, r, s.disk, Taking(q), s.torn), t);
    AtHolds(s, r, t, torn);
    Crashes(d, t, r);
    events := Do(d, s, events, Crash(r), t, Killed(t, r));
    KilledQuiet(s, r, t);
  }

  lemma AtHolds(s: System, r: Pid, t: System, torn: bool)
    requires t == At(s, r, s.disk.(lock := None), Acquiring, torn)
    ensures r in t.procs && t.disk == s.disk.(lock := None) && t.crossed == s.crossed
    ensures t.procs.Keys == s.procs.Keys + {r} && forall q <- s.procs :: q != r ==> t.procs[q] == s.procs[q]
  {
  }

  lemma KilledQuiet(s: System, r: Pid, t: System)
    requires Quiet(s) && r in t.procs && t.procs.Keys == s.procs.Keys + {r}
    requires forall q <- s.procs :: q != r ==> t.procs[q] == s.procs[q]
    ensures Quiet(Killed(t, r))
  {
  }

  // ---------------------------------------------------------------- two migrations at once

  /** A migration that may go ahead; records left STARTED by others do not stop it. */
  ghost predicate MayMigrate(s: System, op: Op) {
    && s.disk.lock.None? && InSync(s.disk) && op.Migrate?
    && Mutation(op, s.disk.history[|s.disk.history|].state).Some?
  }

  lemma MayMigrateMeans(s: System, op: Op)
    requires MayMigrate(s, op)
    ensures s.disk.live.Some? && |s.disk.history| in s.disk.history
            && s.disk.live.value == s.disk.history[|s.disk.history|]
    ensures op.Migrate? && Mutation(op, s.disk.live.value.state).Some?
  {
  }

  /** The disk once process `p` has written its STARTED record. */
  function StartedDisk(k: Disk, p: Pid, id: nat, target: Json): Disk {
    k.(lock := Some(p), migrations := k.migrations[id := Migration(p, |k.history|, target, Started)])
  }

  lemma MigrateReads(d: Digest, s: System, p: Pid, op: Op, top: Envelope)
    requires ChainOk(d, s.disk.history) && MayMigrate(s, op) && s.disk.live == Some(top)
    ensures var k := s.disk.(lock := Some(p));
            Next(d, Now(s, p, op, k, Holding), Step(p, true, 0)) == Now(s, p, op, k, Journaling(top))
  {
    hide NoStarted, Mutation;
    var k := s.disk.(lock := Some(p));
    NowNow(s, p, op, k, Holding, k, Journaling(top));
  }

  lemma MigrateJournals(d: Digest, s: System, p: Pid, op: Op, k: Disk, top: Envelope, id: nat)
    requires op.Migrate? && id !in k.migrations && top.revision == |k.history| && k.lock == Some(p)
    ensures Next(d, Now(s, p, op, k, Journaling(top)), Step(p, true, id))
            == Now(s, p, op, StartedDisk(k, p, id, op.target), Transforming(top, id))
  {
    NowNow(s, p, op, k, Journaling(top), k, Transforming(top, id));
  }

  /** Up to the STARTED record. */
  lemma MigrateStarts(d: Digest, s: System, p: Pid, op: Op, id: nat) returns (events: seq<Event>)
    requires ChainOk(d, s.disk.history) && MayMigrate(s, op) && p !in s.procs && id !in s.disk.migrations
    ensures Continue(d, s, events)
            == Now(s, p, op, StartedDisk(s.disk, p, id, op.target), Transforming(s.disk.live.value, id))
  {
    hide Next, Now, ChainOk, NoStarted, Continue, Mutation;
    var step, top := Step(p, true, 0), s.disk.live.value;
    var k := s.disk.(lock := Some(p));
    ContinueNone(d, s);
    Begins(d, s, p, op);
    events := Do(d, s, [], Begin(p, op), s, Now(s, p, op, s.disk, Start));
    Locks(d, s, p, op);
    events := Do(d, s, events, step, Now(s, p, op, s.disk, Start), Now(s, p, op, k, Holding));
    MigrateReads(d, s, p, op, top);
    events := Do(d, s, events, step, Now(s, p, op, k, Holding), Now(s, p, op, k, Journaling(top)));
    TopRevision(d, s.disk);
    MigrateJournals(d, s, p, op, k, top, id);
    events := Do(d, s, events, Step(p, true, id), Now(s, p, op, k, Journaling(top)),
                 Now(s, p, op, StartedDisk(k, p, id, op.target), Transforming(top, id)));
  }

  lemma MigrateTransforms(d: Digest, s: System, p: Pid, op: Op, k: Disk, top: Envelope, id: nat)
    requires ChainOk(d, k.history) && InSync(k) && k.live == Some(top) && k.lock == Some(p)
    requires Mutation(op, top.state).Some? && top.revision == |k.history|
    ensures var e := NewEnvelope(d, Mutation(op, top.state).value, |k.history| + 1, p, top.stateHash);
            Next(d, Now(s, p, op, k, Transforming(top, id)), Step(p, true, 0)) == Now(s, p, op, k, Publish(e, Some(id)))
  {
    hide NoStarted, Mutation, ChainOk;
    var e := NewEnvelope(d, Mutation(op, top.state).value, |k.history| + 1, p, top.stateHash);
    NowNow(s, p, op, k, Transforming(top, id), k, Publish(e, Some(id)));
  }

  lemma MigratePublishes(d: Digest, s: System, p: Pid, op: Op, k: Disk, e: Envelope, id: nat)
    requires e.revision !in k.history
    ensures var l := k.(history := k.history[e.revision := e]);
            Next(d, Now(s, p, op, k, Publish(e, Some(id))), Step(p, true, 0))
            == Now(s.(crossed := s.crossed || OtherStarted(k, Some(id))), p, op, l, PublishLive(e, Some(id)))
  {
    hide OtherStarted;
    NowNow(s, p, op, k, Publish(e, Some(id)), k, PublishLive(e, Some(id)));
  }

  /**
   Two migrations to the same version: the first dies before it publishes anything, its lock is
   taken over, and the second publishes. Recovery would now mark the first SUCCEEDED although it
   published nothing. This can happen from every reachable healthy state.
   */
  lemma WrongVerdictReachable(d: Digest, before: seq<Event>, op: Op, p: Pid, r: Pid, q: Pid, a: nat, b: nat)
    returns (events: seq<Event>)
    requires var s := Run(d, before);
             && MayMigrate(s, op) && Quiet(s) && a !in s.disk.migrations && b !in s.disk.migrations && a != b
             && p !in s.procs && r !in s.procs && q !in s.procs && p != r && p != q && r != q
    ensures var t := Run(d, before + events); var n := |t.disk.history|;
            && n in t.disk.history && a in t.disk.migrations && t.disk.migrations[a].result == Started
            && t.disk.migrations[a].owner == p && !Published(t, p)
            && Settle(t.disk.history[n], t.disk.migrations[a]) == Succeeded(n)
  {
    hide Run, Inv, Next, Now, Continue, ChainOk, Quiet, Mutation, Version, StartedDisk, Settle, Published;
    var s := Run(d, before);
    EveryRunInv(d, before);
    InvChain(d, s);
    MayMigrateMeans(s, op);
    var top := s.disk.live.value;
    events := AbandonedMigration(d, before, op, p, r, a);
    var v := Run(d, before + events);
    SecondStarts(d, s, v, p, q, op, a, b);
    var more, w := SecondPublishes(d, v, op, q, b);
    RunTwice(d, before, events, more);
    events := events + more;
    var e := NewEnvelope(d, Mutation(op, top.state).value, |s.disk.history| + 1, q, top.stateHash);
    SecondEnds(d, s, w, op, p, q, a, e);
  }

  lemma RunTwice(d: Digest, before: seq<Event>, events: seq<Event>, more: seq<Event>)
    ensures Run(d, before + (events + more)) == Continue(d, Run(d, before + events), more)
  {
    hide Run, Continue;
    assert before + (events + more) == before + events + more;
    RunContinue(d, before + events, more);
  }

  lemma SecondEnds(d: Digest, s: System, w: System, op: Op, p: Pid, q: Pid, a: nat, e: Envelope)
    requires Inv(d, s) && MayMigrate(s, op) && p !in s.procs && q != p
    requires var top := s.disk.live.value;
             e == NewEnvelope(d, Mutation(op, top.state).value, |s.disk.history| + 1, q, top.stateHash)
    requires w.disk.history == s.disk.history[e.revision := e]
    requires a in w.disk.migrations && w.disk.migrations[a] == Migration(p, |s.disk.history|, op.target, Started)
    ensures !Published(w, p)
    ensures var n := |w.disk.history|;
            n in w.disk.history && Settle(w.disk.history[n], w.disk.migrations[a]) == Succeeded(n)
  {
    hide Inv, ChainOk, Mutation, Settle, Published;
    InvChain(d, s);
    InvLineage(d, s);
    ChainTop(d, s.disk.history);
    hide Lineage;
    NothingPublished(d, s, w, p, q, e);
    SecondWins(d, s, w, op, a, p, e);
  }

  lemma SecondWins(d: Digest, s: System, w: System, op: Op, a: nat, p: Pid, e: Envelope)
    requires |s.disk.history| in s.disk.history && |s.disk.history| + 1 !in s.disk.history && op.Migrate?
    requires Mutation(op, s.disk.history[|s.disk.history|].state).Some?
    requires e.state == Mutation(op, s.disk.history[|s.disk.history|].state).value && e.revision == |s.disk.history| + 1
    requires w.disk.history == s.disk.history[e.revision := e]
    requires a in w.disk.migrations && w.disk.migrations[a] == Migration(p, |s.disk.history|, op.target, Started)
    ensures var n := |w.disk.history|;
            n in w.disk.history && Settle(w.disk.history[n], w.disk.migrations[a]) == Succeeded(n)
  {
    hide Mutation, Version;
    MutationVersion(op, s.disk.history[|s.disk.history|].state);
  }

  /** The first migration dies with its record STARTED, and its lock is renamed away. */
  lemma AbandonedMigration(d: Digest, before: seq<Event>, op: Op, p: Pid, r: Pid, a: nat) returns (events: seq<Event>)
    requires var s := Run(d, before);
             MayMigrate(s, op) && Quiet(s) && a !in s.disk.migrations && p !in s.procs && r !in s.procs && p != r
    ensures var s, v := Run(d, before), Run(d, before + events);
            v.disk == StartedDisk(s.disk, p, a, op.target).(lock := None) && v.procs.Keys == s.procs.Keys + {p, r}
  {
    hide Run, Inv, Next, Now, Continue, ChainOk, Quiet, Mutation, StartedDisk;
    var s := Run(d, before);
    EveryRunInv(d, before);
    InvChain(d, s);
    var top := s.disk.live.value;
    events := MigrateStarts(d, s, p, op, a);
    var t := Now(s, p, op, StartedDisk(s.disk, p, a, op.target), Transforming(top, a));
    FirstDies(s, p, op, a, top, r);
    Crashes(d, t, p);
    var u := Killed(t, p);
    events := Do(d, s, events, Crash(p), t, u);
    RunContinue(d, before, events);
    EveryRunInv(d, before + events);
    var more := TakeAndDie(d, u, r);
    ContinueAppend(d, s, events, more);
    events := events + more;
    RunContinue(d, before, events);
  }

  /** The second migration, up to the publication of its revision. */
  lemma SecondPublishes(d: Digest, v: System, op: Op, q: Pid, b: nat) returns (events: seq<Event>, w: System)
    requires ChainOk(d, v.disk.history) && MayMigrate(v, op) && q !in v.procs && b !in v.disk.migrations
    ensures w == Continue(d, v, events)
    ensures var top := v.disk.live.value; var n := |v.disk.history|;
            var e := NewEnvelope(d, Mutation(op, top.state).value, n + 1, q, top.stateHash);
            w.disk.history == v.disk.history[n + 1 := e]
            && w.disk.migrations == StartedDisk(v.disk, q, b, op.target).migrations
  {
    hide Next, Now, Continue, ChainOk, Mutation;
    var top := v.disk.live.value;
    TopRevision(d, v.disk);
    events := MigrateStarts(d, v, q, op, b);
    var k := StartedDisk(v.disk, q, b, op.target);
    var e := NewEnvelope(d, Mutation(op, top.state).value, |k.history| + 1, q, top.stateHash);
    MigrateTransforms(d, v, q, op, k, top, b);
    events := Do(d, v, events, Step(q, true, 0),
                 Now(v, q, op, k, Transforming(top, b)), Now(v, q, op, k, Publish(e, Some(b))));
    ChainTop(d, k.history);
    MigratePublishes(d, v, q, op, k, e, b);
    w := Next(d, Now(v, q, op, k, Publish(e, Some(b))), Step(q, true, 0));
    NowMeans(v.(crossed := v.crossed || OtherStarted(k, Some(b))), q, op,
             k.(history := k.history[e.revision := e]), PublishLive(e, Some(b)));
    events := Do(d, v, events, Step(q, true, 0), Now(v, q, op, k, Publish(e, Some(b))), w);
  }

  lemma FirstDies(s: System, p: Pid, op: Op, a: nat, top: Envelope, r: Pid)
    requires Quiet(s) && r !in s.procs && r != p && a !in s.disk.migrations && op.Migrate?
    ensures var t := Now(s, p, op, StartedDisk(s.disk, p, a, op.target), Transforming(top, a));
            p in t.procs && Quiet(Killed(t, p)) && r !in Killed(t, p).procs
            && Killed(t, p).procs.Keys == s.procs.Keys + {p}
            && Killed(t, p).disk == StartedDisk(s.disk, p, a, op.target)
            && StartedDisk(s.disk, p, a, op.target).lock == Some(p)
            && StartedDisk(s.disk, p, a, op.target).history == s.disk.history
  {
  }

  lemma SecondStarts(d: Digest, s: System, v: System, p: Pid, q: Pid, op: Op, a: nat, b: nat)
    requires MayMigrate(s, op) && a != b && b !in s.disk.migrations
    requires v.disk == StartedDisk(s.disk, p, a, op.target).(lock := None)
    ensures MayMigrate(v, op) && b !in v.disk.migrations
    ensures v.disk.history == s.disk.history && v.disk.live == s.disk.live
    ensures var k := StartedDisk(v.disk, q, b, op.target);
            && k.lock == Some(q) && k.history == s.disk.history && k.live == s.disk.live
            && a in k.migrations && k.migrations[a] == Migration(p, |s.disk.history|, op.target, Started)
  {
  }

  lemma InvLineage(d: Digest, s: System)
    requires Inv(d, s)
    ensures Lineage(s)
  {
  }

  lemma NothingPublished(d: Digest, s: System, w: System, p: Pid, q: Pid, e: Envelope)
    requires Lineage(s) && p !in s.procs && e.writer == q && q != p
    requires w.disk.history == s.disk.history[e.revision := e]
    ensures !Published(w, p)
  {
    hide Mutation, Past, WritersDistinct;
    forall r <- w.disk.history ensures w.disk.history[r].writer != p {
      if r != e.revision {
        assert Written(s, r);
      }
    }
  }

  lemma MutationVersion(op: Op, state: State)
    requires op.Migrate? && Mutation(op, state).Some?
    ensures Version(Mutation(op, state).value) == op.target
  {
  }
}
