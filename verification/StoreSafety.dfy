/** What the store protocol guarantees in every run, crashes and interleavings included. */
module StoreSafety {
  import opened Prelude
  import opened CanonicalJson
  import opened StoreModel

  // ---------------------------------------------------------------- exclusion, chain and live alias

  /** A live process inside its critical section. */
  ghost predicate Inside(s: System, p: Pid) {
    p in s.procs && s.procs[p].alive && Critical(s.procs[p].pc)
  }

  /** The live alias is absent (and at most revision 1 exists), the highest or the second-highest revision. */
  ghost predicate LiveNearTop(k: Disk) {
    var n := |k.history|;
    match k.live
    case None => n <= 1
    case Some(e) => n in k.history && (e == k.history[n] || (n - 1 in k.history && e == k.history[n - 1]))
  }

  /**
   At every point of every run: the history is exactly the revisions 1..n, hash-linked; at most
   one live process is in its critical section, and it owns the lock; the live alias is absent,
   the highest or the second-highest revision; and while the lock is free the alias is the
   highest revision exactly unless a takeover has left the store torn.
   */
  lemma Safety(d: Digest, events: seq<Event>, s: System)
    requires s == Run(d, events)
    ensures ChainOk(d, s.disk.history)
    ensures forall p: Pid, q: Pid :: Inside(s, p) && Inside(s, q) ==> p == q && s.disk.lock == Some(p)
    ensures LiveNearTop(s.disk)
    ensures s.disk.lock.None? && s.disk.history != map[] ==> (InSync(s.disk) <==> !s.torn)
  {
    hide Run, OwnerOk, Lineage, OutcomeOk, MigrationsOk, ChainOk;
    EveryRunInv(d, events);
    assert forall p: Pid :: Inside(s, p) ==> s.disk.lock == Some(p);
    hide LockOk;
    ChainTop(d, s.disk.history);
  }

  /**
   The store becomes torn only when a stale lock is renamed away whose dead owner had published
   its revision but not yet the live alias, and stops being torn only when a recovery promotes.
   */
  lemma TornExactly(d: Digest, s: System, e: Event)
    requires Inv(d, s)
    ensures var t := Next(d, s, e);
            && (t.torn && !s.torn <==>
                  !s.torn && e.Step? && e.p in s.procs && s.procs[e.p].alive && s.procs[e.p].pc.Taking?
                  && s.procs[s.procs[e.p].pc.owner].pc.PublishLive?)
            && (s.torn && !t.torn <==>
                  s.torn && e.Step? && e.p in s.procs && s.procs[e.p].alive && s.procs[e.p].pc.Promoting?)
  {
    hide ChainOk, Lineage, OutcomeOk, MigrationsOk, Knows;
    if e.Step? && e.p in s.procs && s.procs[e.p].alive {
      var p := e.p;
      if s.procs[p].pc.Taking? {
        BehindMeans(d, s, s.procs[p].pc.owner);
      } else if !s.procs[p].pc.Promoting? {
        hide LockOk, OwnerOk, LiveOk;
        ActKeepsTorn(d, s, p, e.ok, e.pick);
      }
    }
  }

  lemma BehindMeans(d: Digest, s: System, q: Pid)
    requires Inv(d, s) && s.disk.lock == Some(q)
    ensures q in s.procs && (!s.torn ==> (Behind(s.disk) <==> s.procs[q].pc.PublishLive?))
  {
    hide Lineage, OutcomeOk, MigrationsOk, Mine, ChainOk;
    if q in s.procs && s.procs[q].pc.PublishLive? {
      LaggingBehind(d, s.disk, q, s.procs[q].op, s.procs[q].pc.e, s.procs[q].pc.mig);
    }
  }

  lemma LaggingBehind(d: Digest, k: Disk, p: Pid, op: Op, e: Envelope, mig: Option<nat>)
    requires ChainOk(d, k.history) && Knows(d, k, p, op, PublishLive(e, mig))
    ensures Behind(k)
  {
    hide Mine;
    assert k.history[|k.history|].revision == |k.history|;
    assert |k.history| > 1 ==> k.history[|k.history| - 1].revision == |k.history| - 1;
  }

  lemma ActKeepsTorn(d: Digest, s: System, p: Pid, ok: bool, pick: nat)
    requires p in s.procs && !s.procs[p].pc.Taking? && !s.procs[p].pc.Promoting?
    ensures Act(d, s, p, ok, pick).torn == s.torn
  {
    hide Read, Transform, OtherStarted, NoStarted, ChainOk, Settle, Mutation, Highest;
  }

  // ---------------------------------------------------------------- history only grows

  ghost predicate Extends(h: map<nat, Envelope>, g: map<nat, Envelope>) {
    forall r <- h :: r in g && g[r] == h[r]
  }

  /** Only a publication touches the history, and only to add a revision. */
  lemma ActHistory(d: Digest, s: System, p: Pid, ok: bool, pick: nat)
    requires p in s.procs
    ensures var h, g, pc := s.disk.history, Act(d, s, p, ok, pick).disk.history, s.procs[p].pc;
            g == h || (pc.Publish? && pc.e.revision !in h && g == h[pc.e.revision := pc.e])
  {
    hide Read, Transform, OtherStarted, NoStarted, ChainOk, Settle, Mutation, Highest, Behind, Recovering;
    if !s.procs[p].pc.Publish? {
      QuietAct(d, s, p, ok, pick);
    }
  }

  lemma QuietAct(d: Digest, s: System, p: Pid, ok: bool, pick: nat)
    requires p in s.procs && !s.procs[p].pc.Publish?
    ensures Act(d, s, p, ok, pick).disk.history == s.disk.history
  {
    hide Read, Transform, OtherStarted, NoStarted, ChainOk, Settle, Mutation, Highest, Behind, Recovering, WriteHistory;
    match s.procs[p].pc
    case Start => hide Inspect, Take, SettleOne, WriteVerdict, Finish, Release, WriteStarted, WriteLive;
    case Checked => hide Begun, Take, SettleOne, WriteVerdict, Finish, Release, WriteStarted, WriteLive, Acquire;
    case Settling(_) => hide Begun, Take, Inspect, Finish, Release, WriteStarted, WriteLive, Acquire;
    case _ => hide Begun, Inspect, SettleOne;
  }

  lemma NextExtends(d: Digest, s: System, e: Event)
    ensures Extends(s.disk.history, Next(d, s, e).disk.history)
  {
    hide Act;
    if e.Step? && e.p in s.procs {
      ActHistory(d, s, e.p, e.ok, e.pick);
    }
  }

  /** Nothing is published while the store is torn: every writer finds live behind and halts. */
  lemma TornPublishesNothing(d: Digest, s: System, e: Event)
    requires Inv(d, s) && s.torn
    ensures Next(d, s, e).disk.history == s.disk.history
  {
    hide Act, ChainOk, LockOk, OwnerOk, LiveOk, Lineage;
    hide OutcomeOk, MigrationsOk, Knows, Mutation, NoStarted, Mine, Continues;
    if e.Step? && e.p in s.procs && s.procs[e.p].alive {
      ActHistory(d, s, e.p, e.ok, e.pick);
      if s.procs[e.p].pc.Publish? {
        OwnerKnows(d, s, e.p);
        PublishFacts(d, s.disk, e.p, s.procs[e.p].op, s.procs[e.p].pc.e, s.procs[e.p].pc.mig);
        TornIsBehind(s);
        assert false;
      }
    }
  }

  lemma TornIsBehind(s: System)
    requires LiveOk(s) && s.torn
    ensures !InSync(s.disk) && |s.disk.history| > 0
  {
  }

  /** No published revision is ever dropped or rewritten, whatever happens later. */
  lemma {:induction false} RevisionsStay(d: Digest, events: seq<Event>, later: seq<Event>)
    ensures Extends(Run(d, events).disk.history, Run(d, events + later).disk.history)
  {
    hide Next;
    if later == [] {
      assert events + later == events;
    } else {
      var n := |later| - 1;
      RevisionsStay(d, events, later[..n]);
      assert (events + later)[..|events + later| - 1] == events + later[..n];
      NextExtends(d, Run(d, events + later[..n]), later[n]);
    }
  }

  // ---------------------------------------------------------------- no lost update

  /** What the operations that wrote revisions 1..r make of nothing. */
  ghost function Replay(s: System, r: nat): Option<State>
  {
    if r == 0 || r !in s.disk.history || s.disk.history[r].writer !in s.procs then None
    else
      var op := s.procs[s.disk.history[r].writer].op;
      if r == 1 then if op.Initialize? then Some(op.state) else None
      else
        match Replay(s, r - 1)
        case None => None
        case Some(state) => Mutation(op, state)
  }

  /** Every revision is the fold of the published operations in revision order. */
  lemma {:induction false} ReplayHistory(d: Digest, s: System, r: nat)
    requires ChainOk(d, s.disk.history) && Lineage(s) && r in s.disk.history
    ensures Replay(s, r) == Some(s.disk.history[r].state)
  {
    hide Mutation, Continues, WritersDistinct;
    assert r in Range(|s.disk.history|);
    assert Written(s, r);
    if r > 1 {
      ReplayHistory(d, s, r - 1);
    }
  }

  /** An update that expected revision `e` and reports UPDATED. */
  ghost predicate Won(s: System, p: Pid, e: nat) {
    p in s.procs && Says(s.procs[p].pc, Updated) && s.procs[p].op.Update? && s.procs[p].op.expected == e
  }

  /**
   An UPDATED outcome for expected revision `e` owns revision `e + 1`, whose state is its mutation
   applied to revision `e`; no other process owns that revision, so two updates with the same
   expectation never both succeed; and the live state is the fold of all published operations.
   */
  lemma NoLostUpdate(d: Digest, events: seq<Event>)
    ensures var s := Run(d, events); var h := s.disk.history;
            && (forall p <- s.procs :: Says(s.procs[p].pc, Updated) ==>
                  && s.procs[p].op.Update?
                  && var e := s.procs[p].op.expected;
                     e in h && e + 1 in h && h[e + 1].writer == p
                     && s.procs[p].op.mutate(h[e].state) == Some(h[e + 1].state))
            && (forall p, q, e :: Won(s, p, e) && Won(s, q, e) ==> p == q)
            && (forall r <- h :: Replay(s, r) == Some(h[r].state))
            && (s.disk.live.Some? ==> Replay(s, s.disk.live.value.revision) == Some(s.disk.live.value.state))
  {
    hide Run, OwnerOk, LockOk, MigrationsOk, Mutation, LiveOk, ChainOk, Lineage, OutcomeOk, Replay;
    EveryRunInv(d, events);
    var s := Run(d, events);
    forall p <- s.procs | Says(s.procs[p].pc, Updated)
      ensures s.procs[p].op.Update? && Owned(s, p, s.procs[p].op.expected, s.procs[p].op.mutate)
    {
      UpdatedOwns(d, s, p);
    }
    forall r <- s.disk.history ensures Replay(s, r) == Some(s.disk.history[r].state) {
      ReplayHistory(d, s, r);
    }
    LiveInHistory(d, s);
  }

  ghost predicate Owned(s: System, p: Pid, e: nat, mutate: State -> Option<State>) {
    var h := s.disk.history;
    e in h && e + 1 in h && h[e + 1].writer == p && mutate(h[e].state) == Some(h[e + 1].state)
  }

  lemma UpdatedOwns(d: Digest, s: System, p: Pid)
    requires OutcomeOk(s) && Lineage(s) && p in s.procs && Says(s.procs[p].pc, Updated)
    ensures s.procs[p].op.Update? && Owned(s, p, s.procs[p].op.expected, s.procs[p].op.mutate)
  {
    hide Past, WritersDistinct;
    assert s.procs[p].op.Update? && Owns(s, p, s.procs[p].op.expected);
    assert Written(s, s.procs[p].op.expected + 1);
  }

  lemma LiveInHistory(d: Digest, s: System)
    requires ChainOk(d, s.disk.history) && LiveOk(s)
    ensures s.disk.live.Some? ==> s.disk.live.value.revision in s.disk.history
                                  && s.disk.history[s.disk.live.value.revision] == s.disk.live.value
  {
    hide Continues;
  }

  // ---------------------------------------------------------------- migrations

  ghost predicate Published(s: System, p: Pid) {
    exists r :: r in s.disk.history && s.disk.history[r].writer == p
  }

  /** What should be written over a STARTED record once its owner is gone. */
  ghost function RightVerdict(s: System, m: Migration): Verdict {
    if Published(s, m.owner) then Succeeded(m.input + 1) else RolledBack
  }

  /** The target version is what a published migration carries. */
  lemma MigratedVersion(d: Digest, s: System, m: Migration)
    requires Lineage(s) && m.owner in s.procs && s.procs[m.owner].op.Migrate? && s.procs[m.owner].op.target == m.target
    requires m.input + 1 in s.disk.history && s.disk.history[m.input + 1].writer == m.owner
    ensures Version(s.disk.history[m.input + 1].state) == m.target
  {
    assert Written(s, m.input + 1);
  }

  /** A migration's transform makes an object of this state. */
  predicate Yields(transform: State -> Option<State>, before: State) {
    transform(before).Some? && transform(before).value.Obj?
  }

  /** `after` is what the transform makes of `before`, with nothing changed but the schema version. */
  ghost predicate MigratedTo(transform: State -> Option<State>, target: Json, before: State, after: State) {
    && Yields(transform, before) && after.Obj?
    && var made := transform(before).value.fields;
       && after.fields.Keys == made.Keys + {"schema_version"}
       && (forall key <- made :: key != "schema_version" ==> after.fields[key] == made[key])
       && after.fields["schema_version"] == target
  }

  lemma MutationMigrates(op: Op, before: State, after: State)
    requires op.Migrate?
    ensures Mutation(op, before) == Some(after) <==> MigratedTo(op.transform, op.target, before, after)
  {
    if MigratedTo(op.transform, op.target, before, after) {
      assert after.fields == op.transform(before).value.fields["schema_version" := op.target];
    }
  }

  /**
   In every run a revision published by a migration is what its transform makes of the revision before,
   every field of it, with the schema version set to the target.
   */
  lemma MigrationRevisions(d: Digest, events: seq<Event>, r: nat)
    requires var s := Run(d, events); r in s.disk.history && s.disk.history[r].writer in s.procs
                                      && s.procs[s.disk.history[r].writer].op.Migrate?
    ensures var s := Run(d, events); var h := s.disk.history; var op := s.procs[h[r].writer].op;
            r - 1 in h && MigratedTo(op.transform, op.target, h[r - 1].state, h[r].state)
  {
    hide Run, ChainOk, LockOk, OwnerOk, LiveOk, OutcomeOk, MigrationsOk, Mutation, MigratedTo;
    EveryRunInv(d, events);
    var s := Run(d, events);
    assert Written(s, r);
    var op := s.procs[s.disk.history[r].writer].op;
    if r != 1 {
      MutationMigrates(op, s.disk.history[r - 1].state, s.disk.history[r].state);
    }
  }

  /**
   Recovery marks a crash-left migration SUCCEEDED, with its own revision, if that revision was
   published and ROLLED_BACK if not, exactly when nobody else has published since it started.
   */
  lemma VerdictExact(d: Digest, events: seq<Event>, id: nat)
    requires var k := Run(d, events).disk; id in k.migrations && k.migrations[id].result == Started
    ensures var s := Run(d, events); var m := s.disk.migrations[id]; var n := |s.disk.history|;
            && n in s.disk.history
            && (Settle(s.disk.history[n], m) == RightVerdict(s, m) <==>
                n == m.input + if Published(s, m.owner) then 1 else 0)
            && (!s.crossed ==> Settle(s.disk.history[n], m) == RightVerdict(s, m))
  {
    hide Run, Settle, RightVerdict, Inv;
    EveryRunInv(d, events);
    VerdictAt(d, Run(d, events), id);
  }

  lemma VerdictAt(d: Digest, s: System, id: nat)
    requires Inv(d, s) && id in s.disk.migrations && s.disk.migrations[id].result == Started
    ensures var m := s.disk.migrations[id]; var n := |s.disk.history|;
            && n in s.disk.history
            && (Settle(s.disk.history[n], m) == RightVerdict(s, m) <==>
                n == m.input + if Published(s, m.owner) then 1 else 0)
            && (!s.crossed ==> Settle(s.disk.history[n], m) == RightVerdict(s, m))
  {
    hide OwnerOk, LockOk, LiveOk, OutcomeOk, Lineage, ChainOk, Version;
    var m, h := s.disk.migrations[id], s.disk.history;
    assert StartedOk(s, id);
    ChainRange(d, h);
    if Published(s, m.owner) {
      var r :| r in h && h[r].writer == m.owner;
      MigratedVersion(d, s, m);
    }
  }

  lemma ChainRange(d: Digest, h: map<nat, Envelope>)
    requires ChainOk(d, h)
    ensures forall r: nat :: r in h <==> 1 <= r <= |h|
    ensures forall r <- h :: h[r].revision == r
  {
  }

  /** A live migration is about to publish while the record of another one is marked STARTED. */
  ghost predicate Crossing(s: System, e: Event) {
    && e.Step? && e.p in s.procs && s.procs[e.p].alive && s.procs[e.p].pc.Publish? && s.procs[e.p].pc.mig.Some?
    && exists id :: id in s.disk.migrations && Some(id) != s.procs[e.p].pc.mig
                    && s.disk.migrations[id].result == Started
  }

  /** Migrations cross exactly when one publishes while another one is marked STARTED, and stay crossed. */
  lemma CrossedExactly(d: Digest, s: System, e: Event)
    requires Inv(d, s)
    ensures Next(d, s, e).crossed <==> s.crossed || Crossing(s, e)
  {
    hide Inv, Act, Recovering;
    if e.Step? && e.p in s.procs && s.procs[e.p].alive {
      var pc := s.procs[e.p].pc;
      if pc.Publish? {
        PublishIsNew(d, s, e.p);
        PublishCrosses(d, s, e.p, e.ok, e.pick);
      } else {
        ActKeepsCrossed(d, s, e.p, e.ok, e.pick);
      }
    }
  }

  lemma PublishIsNew(d: Digest, s: System, p: Pid)
    requires Inv(d, s) && p in s.procs && s.procs[p].alive && s.procs[p].pc.Publish?
    ensures s.procs[p].pc.e.revision !in s.disk.history
  {
    hide ChainOk, LockOk, OwnerOk, LiveOk, Lineage, OutcomeOk, MigrationsOk, Knows, Continues, Mine, Mutation,
         NoStarted;
    OwnerKnows(d, s, p);
    PublishFacts(d, s.disk, p, s.procs[p].op, s.procs[p].pc.e, s.procs[p].pc.mig);
  }

  lemma PublishCrosses(d: Digest, s: System, p: Pid, ok: bool, pick: nat)
    requires p in s.procs && s.procs[p].pc.Publish? && s.procs[p].pc.e.revision !in s.disk.history
    ensures var mig := s.procs[p].pc.mig;
            Act(d, s, p, ok, pick).crossed == (s.crossed || (mig.Some? && OtherStarted(s.disk, mig)))
  {
    hide OtherStarted;
  }

  lemma ActKeepsCrossed(d: Digest, s: System, p: Pid, ok: bool, pick: nat)
    requires p in s.procs && !s.procs[p].pc.Publish?
    ensures Act(d, s, p, ok, pick).crossed == s.crossed
  {
    hide Read, Transform, OtherStarted, NoStarted, ChainOk, Settle, Mutation, Highest, Behind, Recovering, WriteHistory;
  }

  /**
   Recovery marks a migration SUCCEEDED exactly if its revision was published, and ROLLED_BACK exactly
   if not, whatever output revision it records, exactly when: the highest revision is at the target
   version, for a migration that published; nothing at all was published since, for one that did not.
   */
  lemma StatusExact(d: Digest, events: seq<Event>, id: nat)
    requires var k := Run(d, events).disk; id in k.migrations && k.migrations[id].result == Started
    ensures var s := Run(d, events); var m := s.disk.migrations[id]; var n := |s.disk.history|;
            && n in s.disk.history
            && var v := Settle(s.disk.history[n], m);
               ((v.Succeeded? <==> Published(s, m.owner)) && (v == RolledBack <==> !Published(s, m.owner))) <==>
               (if Published(s, m.owner) then Version(s.disk.history[n].state) == m.target else n == m.input)
  {
    hide Run, OwnerOk, LockOk, LiveOk, OutcomeOk, Lineage, ChainOk, Version;
    EveryRunInv(d, events);
    var s := Run(d, events);
    var m, h := s.disk.migrations[id], s.disk.history;
    assert StartedOk(s, id);
    ChainRange(d, h);
    if Published(s, m.owner) {
      var r :| r in h && h[r].writer == m.owner;
      assert r == m.input + 1;
    }
  }

  /** `t` has the processes of `s`, but for the program counter of `p`. */
  ghost predicate OwnCounter(s: System, t: System, p: Pid) {
    p in s.procs && p in t.procs && (t.procs == s.procs || t.procs == s.procs[p := s.procs[p].(pc := t.procs[p].pc)])
  }

  /** An action changes nothing but the program counter of its own process. */
  lemma ActOps(d: Digest, s: System, p: Pid, ok: bool, pick: nat)
    requires p in s.procs
    ensures OwnCounter(s, Act(d, s, p, ok, pick), p)
  {
    hide Begun, Inspect, Take, SettleOne, WriteVerdict, Finish, Release, WriteStarted, WriteLive, WriteHistory, Acquire;
    hide Read, Transform, ChainOk, Highest, OwnCounter;
    match s.procs[p].pc
    case Start => BegunOps(d, s, p, ok);
    case Holding => GotoOps(s, p, Read(d, s.disk, p, s.procs[p].op, ok, pick));
    case Journaling(base) => StartedOps(s, p, base, pick);
    case Transforming(base, id) => GotoOps(s, p, Transform(d, s.disk, p, s.procs[p].op, base, id, ok));
    case Publish(e, mig) => HistoryOps(s, p, e, mig);
    case PublishLive(e, mig) => LiveOps(s, p, e, Finishing(e, mig));
    case Finishing(e, mig) => FinishOps(s, p, e, mig, EndingOf(ok, pick));
    case Terminal(id, v) => VerdictOps(s, p, id, v, Releasing(if v.Succeeded? then Migrated else Halted));
    case Checked => InspectOps(s, p, ok);
    case Taking(_) => TakeOps(s, p);
    case Acquiring => AcquireOps(s, p, Reading);
    case Reading =>
      if s.disk.history == map[] {
        GotoOps(s, p, Releasing(SafetyHalt));
      } else {
        GotoOps(s, p, Promoting(s.disk.history[Highest(s.disk.history)]));
      }
    case Promoting(e) =>
      LiveOps(s, p, e, Settling(e));
      TornOps(s, WriteLive(s, p, e, Settling(e)), p);
    case Settling(e) => SettleOps(s, p, e, ok, pick);
    case Releasing(code) => ReleaseOps(s, p, code);
    case Finished(_) => StillOps(s, p);
  }

  lemma StillOps(s: System, p: Pid)
    requires p in s.procs
    ensures OwnCounter(s, s, p)
  {
  }

  lemma GotoOps(s: System, p: Pid, pc: Pc)
    requires p in s.procs
    ensures OwnCounter(s, Goto(s, p, pc), p)
  {
  }

  lemma AcquireOps(s: System, p: Pid, next: Pc)
    requires p in s.procs
    ensures OwnCounter(s, Acquire(s, p, next), p)
  {
  }

  lemma BegunOps(d: Digest, s: System, p: Pid, ok: bool)
    requires p in s.procs
    ensures OwnCounter(s, Begun(d, s, p, ok), p)
  {
    hide ChainOk, Acquire;
    AcquireOps(s, p, Holding);
  }

  lemma StartedOps(s: System, p: Pid, base: Envelope, id: nat)
    requires p in s.procs
    ensures OwnCounter(s, WriteStarted(s, p, base, id), p)
  {
  }

  lemma HistoryOps(s: System, p: Pid, e: Envelope, mig: Option<nat>)
    requires p in s.procs
    ensures OwnCounter(s, WriteHistory(s, p, e, mig), p)
  {
    hide OtherStarted;
  }

  lemma LiveOps(s: System, p: Pid, e: Envelope, next: Pc)
    requires p in s.procs
    ensures OwnCounter(s, WriteLive(s, p, e, next), p)
  {
  }

  lemma TornOps(s: System, t: System, p: Pid)
    requires OwnCounter(s, t, p)
    ensures OwnCounter(s, t.(torn := false), p)
  {
  }

  lemma FinishOps(s: System, p: Pid, e: Envelope, mig: Option<nat>, ending: Ending)
    requires p in s.procs
    ensures OwnCounter(s, Finish(s, p, e, mig, ending), p)
  {
  }

  lemma VerdictOps(s: System, p: Pid, id: nat, v: Verdict, pc: Pc)
    requires p in s.procs
    ensures WriteVerdict(s, id, v).procs == s.procs && OwnCounter(s, Goto(WriteVerdict(s, id, v), p, pc), p)
  {
  }

  lemma InspectOps(s: System, p: Pid, ok: bool)
    requires p in s.procs
    ensures OwnCounter(s, Inspect(s, p, ok), p)
  {
  }

  lemma TakeOps(s: System, p: Pid)
    requires p in s.procs
    ensures OwnCounter(s, Take(s, p), p)
  {
    hide Behind;
  }

  lemma SettleOps(s: System, p: Pid, e: Envelope, ok: bool, id: nat)
    requires p in s.procs
    ensures OwnCounter(s, SettleOne(s, p, e, ok, id), p)
  {
    hide NoStarted, Settle;
  }

  lemma ReleaseOps(s: System, p: Pid, code: Code)
    requires p in s.procs
    ensures OwnCounter(s, Release(s, p, code), p)
  {
  }

  ghost predicate OnlyMigrator(s: System, p: Pid) {
    forall q <- s.procs :: s.procs[q].op.Migrate? ==> q == p
  }

  /** While one process alone migrates, a STARTED record under a live publication is its own. */
  lemma StartedIsMine(d: Digest, s: System, p: Pid, q: Pid, id: nat)
    requires Inv(d, s) && OnlyMigrator(s, p) && q in s.procs && s.procs[q].alive
    requires s.procs[q].pc.Publish? && s.procs[q].pc.mig.Some?
    requires id in s.disk.migrations && s.disk.migrations[id].result == Started
    ensures s.procs[q].pc.mig == Some(id)
  {
    hide ChainOk, LockOk, LiveOk, Lineage, OutcomeOk, OwnerOk, Mutation, Continues, NoStarted;
    OwnerKnows(d, s, q);
    assert StartedOk(s, id);
  }

  /** A migration that publishes finds no other STARTED record if it is the only migration there is. */
  lemma AloneUncrossed(d: Digest, s: System, p: Pid, e: Event)
    requires Inv(d, s) && OnlyMigrator(s, p) && !s.crossed
    ensures !Next(d, s, e).crossed
  {
    hide Next, Inv, OnlyMigrator;
    CrossedExactly(d, s, e);
    if e.Step? && e.p in s.procs && s.procs[e.p].alive && s.procs[e.p].pc.Publish? && s.procs[e.p].pc.mig.Some? {
      forall id | id in s.disk.migrations && s.disk.migrations[id].result == Started
        ensures s.procs[e.p].pc.mig == Some(id)
      {
        StartedIsMine(d, s, p, e.p, id);
      }
    }
  }

  /** In a run with a single migration nothing ever crosses, so every verdict of recovery is right. */
  lemma {:induction false} OneMigration(d: Digest, events: seq<Event>, p: Pid)
    requires forall e <- events :: e.Begin? && e.op.Migrate? ==> e.p == p
    ensures !Run(d, events).crossed && OnlyMigrator(Run(d, events), p)
  {
    hide Next, Inv, OnlyMigrator;
    if events == [] {
      assert OnlyMigrator(EMPTY, p) by { NobodyMigrates(p); }
    } else {
      var last := events[|events| - 1];
      assert last in events;
      OneMigration(d, events[..|events| - 1], p);
      EveryRunInv(d, events[..|events| - 1]);
      AloneUncrossed(d, Run(d, events[..|events| - 1]), p, last);
      StillAlone(d, Run(d, events[..|events| - 1]), p, last);
    }
  }

  lemma NobodyMigrates(p: Pid)
    ensures OnlyMigrator(EMPTY, p)
  {
  }

  lemma StillAlone(d: Digest, s: System, p: Pid, e: Event)
    requires OnlyMigrator(s, p) && (e.Begin? && e.op.Migrate? ==> e.p == p)
    ensures OnlyMigrator(Next(d, s, e), p)
  {
    hide Act, Recovering;
    if e.Step? && e.p in s.procs {
      ActOps(d, s, e.p, e.ok, e.pick);
      assert OwnCounter(s, Act(d, s, e.p, e.ok, e.pick), e.p);
    }
  }

  /**
   In a run with a single migration, whatever updates, crashes and recoveries surround it, recovery's
   verdict on its record is the right one at every point.
   */
  lemma SingleMigrationVerdict(d: Digest, events: seq<Event>, p: Pid, id: nat)
    requires forall e <- events :: e.Begin? && e.op.Migrate? ==> e.p == p
    requires var k := Run(d, events).disk; id in k.migrations && k.migrations[id].result == Started
    ensures var s := Run(d, events); var m := s.disk.migrations[id]; var n := |s.disk.history|;
            n in s.disk.history && Settle(s.disk.history[n], m) == RightVerdict(s, m)
  {
    hide Run, Settle, Published;
    OneMigration(d, events, p);
    VerdictExact(d, events, id);
  }

  /** A recovery that is about to report RECOVERED leaves live highest and no migration STARTED. */
  lemma RecoveredMeans(d: Digest, events: seq<Event>, p: Pid)
    requires var s := Run(d, events); p in s.procs && s.procs[p].alive && s.procs[p].pc == Releasing(Recovered)
    ensures var k := Run(d, events).disk; InSync(k) && NoStarted(k) && k.lock == Some(p)
  {
    hide Run, Lineage, MigrationsOk, OutcomeOk, LiveOk, ChainOk;
    EveryRunInv(d, events);
    OwnerKnows(d, Run(d, events), p);
  }
}
