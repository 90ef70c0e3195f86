/** Recovery from any crash point, and what the protocol does not prevent. */
module StoreRecovery {
  import opened Prelude
  import opened CanonicalJson
  import opened StoreModel

  /** Carrying on from a state. */
  ghost function Continue(d: Digest, s: System, events: seq<Event>): System {
    if events == [] then s else Next(d, Continue(d, s, events[..|events| - 1]), events[|events| - 1])
  }

  lemma ContinueSnoc(d: Digest, s: System, events: seq<Event>, e: Event)
    ensures Continue(d, s, events + [e]) == Next(d, Continue(d, s, events), e)
  {
    hide Next;
    assert (events + [e])[..|events|] == events;
  }

  /** Carrying on a run is a run. */
  lemma {:induction false} RunContinue(d: Digest, events: seq<Event>, later: seq<Event>)
    ensures Run(d, events + later) == Continue(d, Run(d, events), later)
  {
    hide Next;
    if later == [] {
      assert events + later == events;
    } else {
      RunContinue(d, events, later[..|later| - 1]);
      assert (events + later)[..|events + later| - 1] == events + later[..|later| - 1];
    }
  }

  // ---------------------------------------------------------------- what recovery leaves behind

  /** Every STARTED record settled against the highest revision. */
  ghost function SettleAll(migrations: map<nat, Migration>, highest: Envelope): map<nat, Migration> {
    map id <- migrations ::
      if migrations[id].result == Started then migrations[id].(result := Settle(highest, migrations[id]))
      else migrations[id]
  }

  /** The disk after a completed recovery: the same history, live highest, lock free, nothing STARTED. */
  ghost function RecoveredDisk(k: Disk): Disk
    requires |k.history| in k.history
  {
    var top := k.history[|k.history|];
    Disk(k.history, Some(top), None, SettleAll(k.migrations, top))
  }

  /** Recovering twice is recovering once. */
  lemma RecoverTwice(k: Disk)
    requires |k.history| in k.history
    ensures RecoveredDisk(RecoveredDisk(k)) == RecoveredDisk(k)
    ensures InSync(RecoveredDisk(k)) && NoStarted(RecoveredDisk(k))
  {
    var once := RecoveredDisk(k);
    assert SettleAll(once.migrations, once.live.value) == once.migrations;
  }

  /** Nobody is in the middle of an operation: every process has finished or died. */
  ghost predicate Quiet(s: System) {
    forall q <- s.procs :: s.procs[q].alive ==> s.procs[q].pc.Finished?
  }

  /** No recovery is under way. */
  ghost predicate NoRecovery(s: System) {
    forall q :: !Recovering(s, q)
  }

  lemma QuietNoRecovery(s: System)
    requires Quiet(s)
    ensures NoRecovery(s)
  {
  }

  /** The events of one recovery by process `p`, and of nobody else. */
  ghost predicate RecoveryBy(p: Pid, events: seq<Event>) {
    forall e <- events :: e.p == p && (e.Step? || (e.Begin? && e.op.Recover?))
  }

  /** `s0` with process `p` recovering at `pc` over disk `k`. */
  ghost function At(s0: System, p: Pid, k: Disk, pc: Pc, torn: bool): System {
    System(k, s0.procs[p := Proc(Recover(true), pc, true)], torn, s0.crossed)
  }

  /** A recovery that nobody races gets the lock, taking over a dead owner's. */
  lemma TakeOver(d: Digest, s: System, p: Pid) returns (events: seq<Event>, torn: bool)
    requires Inv(d, s) && NoRecovery(s) && p !in s.procs && s.disk.history != map[]
    requires s.disk.lock.Some? ==> s.disk.lock.value in s.procs && !s.procs[s.disk.lock.value].alive
    ensures RecoveryBy(p, events)
    ensures Continue(d, s, events) == At(s, p, s.disk.(lock := Some(p)), Reading, torn)
  {
    hide Act, Inv, ChainOk, Behind, Continue, Begun, Inspect, Take, Acquire, NoRecovery;
    var e0, step := Begin(p, Recover(true)), Step(p, true, 0);
    var s1 := At(s, p, s.disk, Start, s.torn);
    assert Next(d, s, e0) == s1 by { BeginQuiet(d, s, p); }
    events := [e0];
    assert Continue(d, s, events) == s1 by { ContinueSnoc(d, s, [], e0); ContinueNone(d, s); assert [] + [e0] == [e0]; }
    var s2 := At(s, p, s.disk, Checked, s.torn);
    assert Next(d, s1, step) == s2 by { FromStart(d, s, p); }
    ContinueSnoc(d, s, events, step);
    events := events + [step];
    torn := s.torn;
    if s.disk.lock.Some? {
      var q := s.disk.lock.value;
      var s3 := At(s, p, s.disk, Taking(q), s.torn);
      assert Next(d, s2, step) == s3 by { FromChecked(d, s, p, torn); }
      ContinueSnoc(d, s, events, step);
      events := events + [step];
      torn := s.torn || Behind(s.disk);
      assert Next(d, s3, step) == At(s, p, s.disk.(lock := None), Acquiring, torn) by { FromTaking(d, s, p, q); }
      ContinueSnoc(d, s, events, step);
      events := events + [step];
    } else {
      assert Next(d, s2, step) == At(s, p, s.disk.(lock := None), Acquiring, torn) by { FromChecked(d, s, p, torn); }
      ContinueSnoc(d, s, events, step);
      events := events + [step];
    }
    assert Next(d, At(s, p, s.disk.(lock := None), Acquiring, torn), step)
           == At(s, p, s.disk.(lock := Some(p)), Reading, torn) by { FromAcquiring(d, s, p, torn); }
    ContinueSnoc(d, s, events, step);
    events := events + [step];
  }

  lemma ContinueNone(d: Digest, s: System)
    ensures Continue(d, s, []) == s
  {
  }

  lemma BeginQuiet(d: Digest, s: System, p: Pid)
    requires NoRecovery(s) && p !in s.procs
    ensures Next(d, s, Begin(p, Recover(true))) == At(s, p, s.disk, Start, s.torn)
  {
    hide Act;
  }

  lemma FromStart(d: Digest, s: System, p: Pid)
    requires Inv(d, s) && s.disk.history != map[]
    ensures Next(d, At(s, p, s.disk, Start, s.torn), Step(p, true, 0)) == At(s, p, s.disk, Checked, s.torn)
  {
    hide ChainOk, LockOk, OwnerOk, LiveOk, Lineage, OutcomeOk, MigrationsOk;
    Overwrite(s, p, Start, Checked);
  }

  /** Replacing a map entry twice keeps the second. */
  lemma Overwrite(s: System, p: Pid, a: Pc, b: Pc)
    ensures s.procs[p := Proc(Recover(true), a, true)][p := Proc(Recover(true), b, true)]
            == s.procs[p := Proc(Recover(true), b, true)]
  {
  }

  lemma LockOwnerDead(d: Digest, s: System)
    requires Inv(d, s) && Quiet(s) && s.disk.lock.Some?
    ensures s.disk.lock.value in s.procs && !s.procs[s.disk.lock.value].alive
  {
    hide ChainOk, OwnerOk, LiveOk, Lineage, OutcomeOk, MigrationsOk;
  }

  lemma FromChecked(d: Digest, s: System, p: Pid, torn: bool)
    requires p !in s.procs
    requires s.disk.lock.Some? ==> s.disk.lock.value in s.procs && !s.procs[s.disk.lock.value].alive
    ensures Next(d, At(s, p, s.disk, Checked, torn), Step(p, true, 0))
            == (if s.disk.lock.Some? then At(s, p, s.disk, Taking(s.disk.lock.value), torn)
                else At(s, p, s.disk.(lock := None), Acquiring, torn))
  {
    Overwrite(s, p, Checked, Acquiring);
    if s.disk.lock.Some? {
      Overwrite(s, p, Checked, Taking(s.disk.lock.value));
    }
  }

  lemma FromTaking(d: Digest, s: System, p: Pid, q: Pid)
    requires s.disk.lock.Some?
    ensures Next(d, At(s, p, s.disk, Taking(q), s.torn), Step(p, true, 0))
            == At(s, p, s.disk.(lock := None), Acquiring, s.torn || Behind(s.disk))
  {
    hide Behind;
    Overwrite(s, p, Taking(q), Acquiring);
  }

  lemma FromAcquiring(d: Digest, s: System, p: Pid, torn: bool)
    ensures Next(d, At(s, p, s.disk.(lock := None), Acquiring, torn), Step(p, true, 0))
            == At(s, p, s.disk.(lock := Some(p)), Reading, torn)
  {
    Overwrite(s, p, Acquiring, Reading);
  }

  lemma FromReading(d: Digest, s: System, p: Pid, torn: bool)
    requires ChainOk(d, s.disk.history) && s.disk.history != map[]
    ensures |s.disk.history| in s.disk.history
    ensures var top := s.disk.history[|s.disk.history|];
            && Next(d, At(s, p, s.disk.(lock := Some(p)), Reading, torn), Step(p, true, 0))
               == At(s, p, s.disk.(lock := Some(p)), Promoting(top), torn)
            && Next(d, At(s, p, s.disk.(lock := Some(p)), Promoting(top), torn), Step(p, true, 0))
               == At(s, p, s.disk.(lock := Some(p), live := Some(top)), Settling(top), false)
  {
    hide Highest, ChainOk;
    HighestTop(d, s.disk.history);
    var top := s.disk.history[|s.disk.history|];
    Overwrite(s, p, Reading, Promoting(top));
    Overwrite(s, p, Promoting(top), Settling(top));
  }

  ghost function StartedIds(migrations: map<nat, Migration>): set<nat> {
    set id | id in migrations && migrations[id].result == Started
  }

  lemma FromSettling(d: Digest, s: System, p: Pid, k: Disk, top: Envelope, id: nat)
    requires id in k.migrations && k.migrations[id].result == Started
    ensures Next(d, At(s, p, k, Settling(top), false), Step(p, true, id))
            == At(s, p,
                  k.(migrations := k.migrations[id := k.migrations[id].(result := Settle(top, k.migrations[id]))]),
                  Settling(top), false)
  {
    hide Settle;
    assert !NoStarted(k);
  }

  lemma FromSettled(d: Digest, s: System, p: Pid, k: Disk, top: Envelope)
    requires NoStarted(k)
    ensures Next(d, At(s, p, k, Settling(top), false), Step(p, true, 0)) == At(s, p, k, Releasing(Recovered), false)
  {
    hide NoStarted;
    Overwrite(s, p, Settling(top), Releasing(Recovered));
  }

  lemma FromReleasing(d: Digest, s: System, p: Pid, k: Disk)
    requires k.lock == Some(p)
    ensures Next(d, At(s, p, k, Releasing(Recovered), false), Step(p, true, 0))
            == At(s, p, k.(lock := None), Finished(Recovered), false)
  {
    Overwrite(s, p, Releasing(Recovered), Finished(Recovered));
  }

  lemma SettleOneMore(migrations: map<nat, Migration>, top: Envelope, id: nat)
    requires id in StartedIds(migrations)
    ensures var next := migrations[id := migrations[id].(result := Settle(top, migrations[id]))];
            StartedIds(next) == StartedIds(migrations) - {id} && SettleAll(next, top) == SettleAll(migrations, top)
  {
    hide Settle;
    assert Settle(top, migrations[id]) != Started by { SettleEnds(top, migrations[id]); }
  }

  lemma SettleEnds(top: Envelope, m: Migration)
    ensures Settle(top, m) != Started
  {
  }

  /** The settling loop visits every STARTED record, in any order, and then releases the lock. */
  lemma {:induction false} SettleLoop(d: Digest, s: System, p: Pid, k: Disk, top: Envelope) returns (events: seq<Event>)
    requires k.lock == Some(p)
    ensures RecoveryBy(p, events)
    ensures Continue(d, At(s, p, k, Settling(top), false), events)
            == At(s, p, k.(lock := None, migrations := SettleAll(k.migrations, top)), Finished(Recovered), false)
    decreases |StartedIds(k.migrations)|
  {
    hide Next, At, Settle, Continue;
    var s0 := At(s, p, k, Settling(top), false);
    if StartedIds(k.migrations) == {} {
      assert NoStarted(k) by { assert forall id <- k.migrations :: id !in StartedIds(k.migrations); }
      assert SettleAll(k.migrations, top) == k.migrations;
      FromSettled(d, s, p, k, top);
      FromReleasing(d, s, p, k);
      ContinueNone(d, s0);
      ContinueSnoc(d, s0, [], Step(p, true, 0));
      ContinueSnoc(d, s0, [] + [Step(p, true, 0)], Step(p, true, 0));
      events := [] + [Step(p, true, 0)] + [Step(p, true, 0)];
    } else {
      var id :| id in StartedIds(k.migrations);
      var l := k.(migrations := k.migrations[id := k.migrations[id].(result := Settle(top, k.migrations[id]))]);
      SettleOneMore(k.migrations, top, id);
      var rest := SettleLoop(d, s, p, l, top);
      FromSettling(d, s, p, k, top, id);
      ContinueFirst(d, s0, Step(p, true, id), rest);
      events := [Step(p, true, id)] + rest;
    }
  }

  lemma {:induction false} ContinueFirst(d: Digest, s: System, e: Event, rest: seq<Event>)
    ensures Continue(d, s, [e] + rest) == Continue(d, Next(d, s, e), rest)
  {
    hide Next;
    if rest == [] {
      assert [e] + rest == [e];
      assert [e][..0] == [];
    } else {
      ContinueFirst(d, s, e, rest[..|rest| - 1]);
      assert ([e] + rest)[..|rest|] == [e] + rest[..|rest| - 1];
    }
  }

  lemma {:induction false} ContinueAppend(d: Digest, s: System, a: seq<Event>, b: seq<Event>)
    ensures Continue(d, s, a + b) == Continue(d, Continue(d, s, a), b)
  {
    hide Next;
    if b == [] {
      assert a + b == a;
    } else {
      ContinueAppend(d, s, a, b[..|b| - 1]);
      assert (a + b)[..|a + b| - 1] == a + b[..|b| - 1];
    }
  }

  /** A recovery whose lock, if present, belongs to a dead owner can run to the end on any published history. */
  lemma RecoverySteps(d: Digest, s: System, p: Pid) returns (events: seq<Event>)
    requires Inv(d, s) && NoRecovery(s) && p !in s.procs && s.disk.history != map[]
    requires s.disk.lock.Some? ==> s.disk.lock.value in s.procs && !s.procs[s.disk.lock.value].alive
    ensures RecoveryBy(p, events) && |s.disk.history| in s.disk.history
    ensures Continue(d, s, events) == At(s, p, RecoveredDisk(s.disk), Finished(Recovered), false)
  {
    hide Inv, Next, Continue, NoRecovery, At, Settle, SettleAll, ChainOk;
    var torn;
    assert ChainOk(d, s.disk.history) by { InvChain(d, s); }
    events, torn := TakeOver(d, s, p);
    FromReading(d, s, p, torn);
    var top := s.disk.history[|s.disk.history|];
    var step := Step(p, true, 0);
    ContinueSnoc(d, s, events, step);
    ContinueSnoc(d, s, events + [step], step);
    events := events + [step] + [step];
    var k := s.disk.(lock := Some(p), live := Some(top));
    assert Continue(d, s, events) == At(s, p, k, Settling(top), false);
    var rest := SettleLoop(d, s, p, k, top);
    ContinueAppend(d, s, events, rest);
    events := events + rest;
  }

  /**
   From every crash point of every run at which something is published: once nobody else is running,
   a recovery can run to the end; it then reports RECOVERED with live equal to the highest published
   revision, the history as it was, every STARTED migration settled, the lock free and the store no
   longer torn.
   */
  lemma RecoveryCompletes(d: Digest, before: seq<Event>, p: Pid) returns (events: seq<Event>)
    requires var s := Run(d, before); Quiet(s) && p !in s.procs && s.disk.history != map[]
    ensures var s, t := Run(d, before), Run(d, before + events);
            && RecoveryBy(p, events)
            && |s.disk.history| in s.disk.history
            && t.disk == RecoveredDisk(s.disk)
            && p in t.procs && t.procs[p].pc == Finished(Recovered) && !t.torn
            && (forall q <- s.procs :: q in t.procs && t.procs[q] == s.procs[q])
  {
    hide Run, Inv, Next, Continue, Quiet, At, RecoveryBy;
    EveryRunInv(d, before);
    var s := Run(d, before);
    QuietNoRecovery(s);
    if s.disk.lock.Some? {
      LockOwnerDead(d, s);
    }
    events := RecoverySteps(d, s, p);
    RunContinue(d, before, events);
    AtMeans(s, p, RecoveredDisk(s.disk), Finished(Recovered));
  }

  lemma InvChain(d: Digest, s: System)
    requires Inv(d, s)
    ensures ChainOk(d, s.disk.history)
  {
  }

  lemma AtMeans(s: System, p: Pid, k: Disk, pc: Pc)
    ensures var t := At(s, p, k, pc, false);
            && t.disk == k && p in t.procs && t.procs[p].pc == pc && !t.torn
            && forall q <- s.procs :: q in t.procs && (q != p ==> t.procs[q] == s.procs[q])
  {
  }
}
