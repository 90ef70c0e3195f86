/** What the outcome of an operation and the recorded verdict of a migration say about the history. */
module StoreOutcomes {
  import opened Prelude
  import opened CanonicalJson
  import opened StoreModel
  import opened StoreSafety
  import opened StoreRecovery
  import opened StoreWitness

  // ---------------------------------------------------------------- outcomes

  /** The outcomes that leave open whether the operation published a revision. */
  predicate Vague(op: Op, code: Code) {
    match op
    case Update(_, _) => code == Halted || code == IoFailure
    case Migrate(_, _) => code == Halted
    case Initialize(_) => code == Raised
    case Recover(_) => false
  }

  /** The one outcome that claims a publication. */
  predicate Claims(op: Op, code: Code) {
    match op
    case Update(_, _) => code == Updated
    case Migrate(_, _) => code == Migrated
    case Initialize(_) => code == Initialized
    case Recover(_) => false
  }

  /** The outcomes each operation has: LOADED belongs to initialise, REFUSED and CONFLICT to update. */
  predicate Possible(op: Op, code: Code) {
    match op
    case Update(_, _) => code in {Updated, Conflict, Refused, Locked, Halted, IoFailure}
    case Migrate(_, _) => code in {Migrated, Locked, Halted, Raised}
    case Initialize(_) => code in {Initialized, Loaded, Locked, Raised}
    case Recover(_) => code in {Recovered, Locked, SafetyHalt, Raised}
  }

  predicate Consistent(op: Op, code: Code, published: bool) {
    Possible(op, code) && (Vague(op, code) || (Claims(op, code) <==> published))
  }

  /** What the program counter of a process says about its operation and its publication. */
  predicate Tells(op: Op, pc: Pc, published: bool) {
    match pc
    case Start => !published
    case Holding => !op.Recover? && !published
    case Journaling(_) => op.Migrate? && !published
    case Transforming(_, _) => op.Migrate? && !published
    case Publish(_, mig) => !op.Recover? && (mig.Some? <==> op.Migrate?) && !published
    case PublishLive(_, mig) => !op.Recover? && (mig.Some? <==> op.Migrate?) && published
    case Finishing(_, mig) => !op.Recover? && (mig.Some? <==> op.Migrate?) && published
    case Terminal(_, v) => op.Migrate? && (v.Succeeded? ==> published)
    case Releasing(code) => Consistent(op, code, published)
    case Finished(code) => Consistent(op, code, published)
    case _ => op.Recover? && !published
  }

  ghost predicate AllTell(s: System) {
    forall p <- s.procs :: Tells(s.procs[p].op, s.procs[p].pc, Published(s, p))
  }

  lemma BegunTells(d: Digest, s: System, p: Pid, ok: bool)
    requires p in s.procs
    ensures Tells(s.procs[p].op, Begun(d, s, p, ok).procs[p].pc, false)
  {
    hide ChainOk;
  }

  lemma ReadTells(d: Digest, k: Disk, p: Pid, op: Op, ok: bool, pick: nat)
    requires !op.Recover?
    ensures Tells(op, Read(d, k, p, op, ok, pick), false)
  {
    hide Loadable;
    LoadableSome(d, k, op.Update?);
  }

  lemma LoadableSome(d: Digest, k: Disk, check: bool)
    ensures Loadable(d, k, check) ==> k.live.Some?
  {
    hide ChainOk, NoStarted;
  }

  lemma TransformTells(d: Digest, k: Disk, p: Pid, op: Op, base: Envelope, id: nat, ok: bool)
    requires op.Migrate?
    ensures Tells(op, Transform(d, k, p, op, base, id, ok), false)
  {
    hide Loadable, Mutation;
  }

  lemma StartedTells(s: System, p: Pid, base: Envelope, id: nat)
    requires p in s.procs && s.procs[p].op.Migrate?
    ensures Tells(s.procs[p].op, WriteStarted(s, p, base, id).procs[p].pc, false)
  {
  }

  lemma FinishTells(s: System, p: Pid, e: Envelope, mig: Option<nat>, ending: Ending)
    requires p in s.procs && Tells(s.procs[p].op, Finishing(e, mig), true)
    ensures Tells(s.procs[p].op, Finish(s, p, e, mig, ending).procs[p].pc, true)
  {
  }

  lemma RecoveryTells(d: Digest, s: System, p: Pid, ok: bool, pick: nat)
    requires p in s.procs && s.procs[p].op.Recover?
    requires var pc := s.procs[p].pc;
             pc.Checked? || pc.Taking? || pc.Acquiring? || pc.Reading? || pc.Promoting? || pc.Settling?
    ensures Tells(s.procs[p].op, Act(d, s, p, ok, pick).procs[p].pc, false)
  {
    hide Begun, Finish, Release, WriteStarted, WriteHistory, Read, Transform, ChainOk, Highest, NoStarted, Settle,
         Behind;
  }

  lemma ReleaseTells(s: System, p: Pid, code: Code)
    requires p in s.procs
    ensures Release(s, p, code).procs[p].pc == Finished(code)
  {
  }

  lemma PublishTells(s: System, p: Pid, e: Envelope, mig: Option<nat>)
    requires p in s.procs && e.revision !in s.disk.history
    ensures WriteHistory(s, p, e, mig).procs[p].pc == PublishLive(e, mig)
    ensures WriteHistory(s, p, e, mig).disk.history == s.disk.history[e.revision := e]
  {
    hide OtherStarted;
  }

  lemma LiveTells(s: System, p: Pid, e: Envelope, next: Pc)
    requires p in s.procs
    ensures WriteLive(s, p, e, next).procs[p].pc == next
  {
  }

  /** The program counter of the acting process stays truthful. */
  lemma ActTells(d: Digest, s: System, p: Pid, ok: bool, pick: nat)
    requires p in s.procs && Tells(s.procs[p].op, s.procs[p].pc, Published(s, p))
    requires s.procs[p].pc.Publish? ==> s.procs[p].pc.e.revision !in s.disk.history && s.procs[p].pc.e.writer == p
    ensures var t := Act(d, s, p, ok, pick);
            OwnCounter(s, t, p) && Tells(s.procs[p].op, t.procs[p].pc, Published(t, p))
  {
    hide Begun, Inspect, Take, SettleOne, WriteVerdict, Finish, Release, WriteStarted, WriteLive, WriteHistory, Acquire;
    hide Read, Transform, ChainOk, Highest;
    ActOps(d, s, p, ok, pick);
    ActHistory(d, s, p, ok, pick);
    match s.procs[p].pc
    case Start => BegunTells(d, s, p, ok);
    case Holding => ReadTells(d, s.disk, p, s.procs[p].op, ok, pick);
    case Journaling(base) => StartedTells(s, p, base, pick);
    case Transforming(base, id) => TransformTells(d, s.disk, p, s.procs[p].op, base, id, ok);
    case Publish(e, mig) =>
      PublishTells(s, p, e, mig);
      assert e.revision in Act(d, s, p, ok, pick).disk.history;
    case PublishLive(e, mig) => LiveTells(s, p, e, Finishing(e, mig));
    case Finishing(e, mig) => FinishTells(s, p, e, mig, EndingOf(ok, pick));
    case Terminal(_, _) =>
    case Releasing(code) => ReleaseTells(s, p, code);
    case Finished(_) =>
    case _ => RecoveryTells(d, s, p, ok, pick);
  }

  /** Only the acting process can publish. */
  lemma OthersUnpublished(d: Digest, s: System, p: Pid, ok: bool, pick: nat, q: Pid)
    requires p in s.procs && q != p && (s.procs[p].pc.Publish? ==> s.procs[p].pc.e.writer == p)
    ensures Published(Act(d, s, p, ok, pick), q) <==> Published(s, q)
  {
    hide Act;
    ActHistory(d, s, p, ok, pick);
    var h, g := s.disk.history, Act(d, s, p, ok, pick).disk.history;
    if Published(s, q) {
      var r :| r in h && h[r].writer == q;
      assert r in g && g[r].writer == q;
    }
  }

  lemma PublishMeans(d: Digest, s: System, p: Pid)
    requires Inv(d, s) && p in s.procs && s.procs[p].alive && s.procs[p].pc.Publish?
    ensures s.procs[p].pc.e.revision !in s.disk.history && s.procs[p].pc.e.writer == p
  {
    hide ChainOk, LockOk, OwnerOk, LiveOk, Lineage, OutcomeOk, MigrationsOk, Continues, Mine, Mutation, NoStarted;
    PublishIsNew(d, s, p);
    OwnerKnows(d, s, p);
  }

  lemma NextTells(d: Digest, s: System, e: Event)
    requires Inv(d, s) && AllTell(s)
    ensures AllTell(Next(d, s, e))
  {
    hide Inv, Act, Tells, Recovering;
    match e
    case Begin(p, op) =>
      if p !in s.procs {
        NobodyPublishes(d, s, p);
        assert Tells(op, Start, false) by { StartTells(op); }
        SamePublished(s, Next(d, s, e));
      }
    case Crash(p) => SamePublished(s, Next(d, s, e));
    case Step(p, ok, pick) =>
      if p in s.procs && s.procs[p].alive {
        if s.procs[p].pc.Publish? {
          PublishMeans(d, s, p);
        }
        ActTells(d, s, p, ok, pick);
        var t := Act(d, s, p, ok, pick);
        forall q <- t.procs ensures Tells(t.procs[q].op, t.procs[q].pc, Published(t, q)) {
          if q != p {
            OthersUnpublished(d, s, p, ok, pick, q);
          }
        }
      }
  }

  lemma StartTells(op: Op)
    ensures Tells(op, Start, false)
  {
  }

  lemma SamePublished(s: System, t: System)
    requires t.disk == s.disk
    ensures forall p: Pid :: Published(t, p) <==> Published(s, p)
  {
  }

  /** What is published was published by a process that has begun. */
  lemma NobodyPublishes(d: Digest, s: System, p: Pid)
    requires Inv(d, s) && p !in s.procs
    ensures !Published(s, p)
  {
    hide ChainOk, LockOk, OwnerOk, LiveOk, OutcomeOk, MigrationsOk, Mutation;
    forall r <- s.disk.history ensures s.disk.history[r].writer != p {
      assert Written(s, r);
    }
  }

  /**
   At every point of every run each process tells the truth: one that is past its publication has
   published, one that is before it has not, the outcome is one of its operation's own, and a clear
   outcome claims a publication exactly when there is one.
   */
  lemma {:induction false} EveryTells(d: Digest, events: seq<Event>)
    ensures AllTell(Run(d, events))
  {
    hide Next, AllTell, Inv;
    if events == [] {
      assert AllTell(EMPTY) by { NobodyTells(); }
    } else {
      EveryTells(d, events[..|events| - 1]);
      EveryRunInv(d, events[..|events| - 1]);
      NextTells(d, Run(d, events[..|events| - 1]), events[|events| - 1]);
    }
  }

  lemma NobodyTells()
    ensures AllTell(EMPTY)
  {
  }

  /** Process `p` has just published, and is about to replace the live alias. */
  ghost predicate JustPublished(s: System, p: Pid) {
    p in s.procs && s.procs[p].pc.PublishLive?
  }

  ghost predicate PassedPublication(d: Digest, events: seq<Event>, p: Pid) {
    exists n: nat :: n <= |events| && JustPublished(Run(d, events[..n]), p)
  }

  /** A process has published exactly when it has passed its publication at some point of the run. */
  lemma {:induction false} PublishedExactly(d: Digest, events: seq<Event>, p: Pid)
    ensures Published(Run(d, events), p) <==> PassedPublication(d, events, p)
  {
    hide Run, JustPublished, Published;
    if n: nat :| n <= |events| && JustPublished(Run(d, events[..n]), p) {
      JustTells(d, events[..n], p);
      assert events[..n] + events[n..] == events;
      StaysPublished(d, events[..n], events[n..], p);
    }
    if Published(Run(d, events), p) {
      var n := PublicationPoint(d, events, p);
    }
  }

  lemma JustTells(d: Digest, events: seq<Event>, p: Pid)
    requires JustPublished(Run(d, events), p)
    ensures Published(Run(d, events), p)
  {
    hide Run;
    EveryTells(d, events);
  }

  lemma StaysPublished(d: Digest, events: seq<Event>, later: seq<Event>, p: Pid)
    requires Published(Run(d, events), p)
    ensures Published(Run(d, events + later), p)
  {
    hide Run;
    RevisionsStay(d, events, later);
    var r :| r in Run(d, events).disk.history && Run(d, events).disk.history[r].writer == p;
    assert r in Run(d, events + later).disk.history;
  }

  lemma {:induction false} PublicationPoint(d: Digest, events: seq<Event>, p: Pid) returns (n: nat)
    requires Published(Run(d, events), p)
    ensures n <= |events| && JustPublished(Run(d, events[..n]), p)
  {
    hide Next, Published, JustPublished;
    if events == [] {
      assert false by { NothingPublished(p); }
    } else {
      var before := events[..|events| - 1];
      if Published(Run(d, before), p) {
        n := PublicationPoint(d, before, p);
        assert before[..n] == events[..n];
      } else {
        n := |events|;
        assert events[..n] == events;
        EveryRunInv(d, before);
        EveryTells(d, before);
        PublishesNow(d, Run(d, before), events[|events| - 1], p);
      }
    }
  }

  lemma NothingPublished(p: Pid)
    ensures !Published(EMPTY, p)
  {
  }

  lemma PublishesNow(d: Digest, s: System, e: Event, p: Pid)
    requires Inv(d, s) && AllTell(s) && !Published(s, p) && Published(Next(d, s, e), p)
    ensures JustPublished(Next(d, s, e), p)
  {
    hide Inv, Act, Published, Recovering;
    if e.Step? && e.p in s.procs && s.procs[e.p].alive {
      if s.procs[e.p].pc.Publish? {
        PublishMeans(d, s, e.p);
      }
      if e.p != p {
        OthersUnpublished(d, s, e.p, e.ok, e.pick, p);
      } else {
        PublisherSteps(d, s, p, e.ok, e.pick);
      }
    } else {
      SamePublished(s, Next(d, s, e));
    }
  }

  lemma PublisherSteps(d: Digest, s: System, p: Pid, ok: bool, pick: nat)
    requires p in s.procs && !Published(s, p) && Published(Act(d, s, p, ok, pick), p)
    requires s.procs[p].pc.Publish? ==> s.procs[p].pc.e.revision !in s.disk.history
    ensures JustPublished(Act(d, s, p, ok, pick), p)
  {
    hide WriteHistory;
    ActOps(d, s, p, ok, pick);
    if s.procs[p].pc.Publish? {
      PublishTells(s, p, s.procs[p].pc.e, s.procs[p].pc.mig);
    } else {
      hide Act;
      ActHistory(d, s, p, ok, pick);
      assert false;
    }
  }

  /**
   What a caller may conclude from the outcome of an update, in every run: UPDATED means that it owns
   exactly the revision after the one it expected; HALTED and IO_FAILURE leave open whether it does, and
   it does exactly when it passed its publication; after any other outcome nothing is its own.
   */
  lemma UpdateOutcomes(d: Digest, events: seq<Event>, p: Pid, code: Code)
    requires var s := Run(d, events); p in s.procs && s.procs[p].op.Update? && Says(s.procs[p].pc, code)
    ensures var s := Run(d, events); var e := s.procs[p].op.expected;
            && (forall r <- s.disk.history :: s.disk.history[r].writer == p ==> r == e + 1)
            && (code == Updated ==> Owns(s, p, e))
            && (code == Halted || code == IoFailure ==> (Owns(s, p, e) <==> PassedPublication(d, events, p)))
            && (code !in {Updated, Halted, IoFailure} ==> !Owns(s, p, e))
  {
    hide Run, Inv, PassedPublication;
    EveryTells(d, events);
    EveryRunInv(d, events);
    PublishedExactly(d, events, p);
    OwnRevision(d, Run(d, events), p);
  }

  lemma OwnRevision(d: Digest, s: System, p: Pid)
    requires Inv(d, s) && p in s.procs && s.procs[p].op.Update?
    ensures forall r <- s.disk.history :: s.disk.history[r].writer == p ==> r == s.procs[p].op.expected + 1
    ensures Published(s, p) <==> Owns(s, p, s.procs[p].op.expected)
  {
    hide ChainOk, LockOk, OwnerOk, LiveOk, OutcomeOk, MigrationsOk, Mutation;
    forall r <- s.disk.history | s.disk.history[r].writer == p ensures r == s.procs[p].op.expected + 1 {
      assert Written(s, r);
    }
  }

  /** From every reachable healthy state both vague outcomes of an update are reached, published or not. */
  lemma BothWays(d: Digest, before: seq<Event>, p: Pid, op: Op, ending: Ending)
    returns (with: seq<Event>, without: seq<Event>)
    requires MayUpdate(Run(d, before), op) && p !in Run(d, before).procs && !ending.Complete?
    ensures var s, code := Run(d, before + with), if ending.NoAudit? then IoFailure else Halted;
            p in s.procs && s.procs[p].pc == Finished(code) && Owns(s, p, op.expected)
    ensures var s, code := Run(d, before + without), if ending.NoAudit? then IoFailure else Halted;
            p in s.procs && s.procs[p].pc == Finished(code) && s.disk == Run(d, before).disk
  {
    hide Run, Inv, Next, Now, Continue, NextEnvelope, MayUpdate;
    var s := Run(d, before);
    with := UpdateCompletes(d, before, p, op, ending);
    UpdateEnvelope(d, s, p, op);
    EveryRunInv(d, before);
    var k := s.disk.(lock := Some(p));
    ContinueNone(d, s);
    MayLock(s, op);
    Begins(d, s, p, op);
    without := Do(d, s, [], Begin(p, op), s, Now(s, p, op, s.disk, Start));
    Locks(d, s, p, op);
    without := Do(d, s, without, Step(p, true, 0), Now(s, p, op, s.disk, Start), Now(s, p, op, k, Holding));
    HaltsReading(d, s, p, op, ending);
    without := Do(d, s, without, Ends(p, ending), Now(s, p, op, k, Holding), Now(s, p, op, k, Releasing(Told(ending))));
    Releases(d, s, p, op, k, Told(ending));
    without := Do(d, s, without, Step(p, true, 0),
                  Now(s, p, op, k, Releasing(Told(ending))), Now(s, p, op, s.disk, Finished(Told(ending))));
    RunContinue(d, before, without);
    NowMeans(s, p, op, s.disk, Finished(Told(ending)));
  }

  lemma MayLock(s: System, op: Op)
    requires MayUpdate(s, op)
    ensures s.disk.lock.None? && op.Update? && op.expected == |s.disk.history|
    ensures s.disk.(lock := None) == s.disk
  {
  }

  lemma UpdateEnvelope(d: Digest, s: System, p: Pid, op: Op)
    requires MayUpdate(s, op)
    ensures NextEnvelope(d, s, p, op).revision == op.expected + 1 && NextEnvelope(d, s, p, op).writer == p
  {
    hide NoStarted;
  }

  /** The load halts: a finding of the validation, or no audit record. */
  lemma HaltsReading(d: Digest, s: System, p: Pid, op: Op, ending: Ending)
    requires Inv(d, s) && MayUpdate(s, op) && !ending.Complete?
    ensures var k := s.disk.(lock := Some(p));
            Next(d, Now(s, p, op, k, Holding), Ends(p, ending)) == Now(s, p, op, k, Releasing(Told(ending)))
  {
    hide LockOk, OwnerOk, LiveOk, Lineage, OutcomeOk, MigrationsOk, NoStarted;
    var k := s.disk.(lock := Some(p));
    assert NoStarted(k) by { SameNoStarted(s.disk, k); }
    hide ChainOk;
    NowNow(s, p, op, k, Holding, k, Releasing(Told(ending)));
  }

  // ---------------------------------------------------------------- recorded verdicts

  /**
   A record that says SUCCEEDED names a revision of its owner; the owner of a record that says
   ROLLED_BACK is dead and has published nothing.
   */
  ghost predicate RightRecord(s: System, id: nat)
    requires id in s.disk.migrations
  {
    var m := s.disk.migrations[id];
    match m.result
    case Succeeded(o) => o in s.disk.history && s.disk.history[o].writer == m.owner
    case RolledBack => m.owner in s.procs && !s.procs[m.owner].alive && !Published(s, m.owner)
    case _ => true
  }

  ghost predicate RecordsRight(s: System) {
    forall id <- s.disk.migrations :: RightRecord(s, id)
  }

  /** The record that process `p` may be about to change, and the verdict it writes. */
  ghost predicate Writes(s: System, p: Pid, id: nat, v: Verdict)
    requires p in s.procs && id in s.disk.migrations
  {
    match s.procs[p].pc
    case Terminal(i, w) => id == i && v == w
    case Settling(e) => s.disk.migrations[id].result == Started && v == Settle(e, s.disk.migrations[id])
    case _ => false
  }

  /** An action adds STARTED records and writes verdicts, and changes nothing else in the journal. */
  lemma ActJournal(d: Digest, s: System, p: Pid, ok: bool, pick: nat)
    requires p in s.procs
    ensures var k, l := s.disk.migrations, Act(d, s, p, ok, pick).disk.migrations;
            && (forall id <- k :: id in l && l[id] == k[id].(result := l[id].result)
                                  && (l[id].result == k[id].result || Writes(s, p, id, l[id].result)))
            && (forall id <- l :: id !in k ==> l[id].result == Started)
  {
    hide Read, Transform, OtherStarted, NoStarted, ChainOk, Settle, Mutation, Highest, Behind, Recovering;
    match s.procs[p].pc
    case Start => hide Inspect, Take, SettleOne, WriteVerdict, Finish, Release, WriteStarted, WriteLive, WriteHistory;
    case Checked => hide Begun, Take, SettleOne, WriteVerdict, Finish, Release, WriteStarted, WriteLive, WriteHistory;
    case Settling(_) => hide Begun, Take, Inspect, Finish, Release, WriteStarted, WriteLive, WriteHistory;
    case _ => hide Begun, Inspect, SettleOne;
  }

  function Recorded(s: System, id: nat, v: Verdict): System
    requires id in s.disk.migrations
  {
    WithDisk(s, s.disk.(migrations := s.disk.migrations[id := s.disk.migrations[id].(result := v)]))
  }

  /** Only STARTED records are changed, and while nothing has crossed only rightly. */
  lemma WritesRight(d: Digest, s: System, p: Pid, id: nat, v: Verdict)
    requires Inv(d, s) && p in s.procs && s.procs[p].alive && id in s.disk.migrations && Writes(s, p, id, v)
    ensures s.disk.migrations[id].result == Started && !s.procs[p].pc.Publish?
    ensures !s.crossed ==> RightRecord(Recorded(s, id, v), id)
  {
    hide ChainOk, LockOk, OwnerOk, LiveOk, Lineage, OutcomeOk, MigrationsOk, Continues, Mutation, NoStarted, Settle;
    OwnerKnows(d, s, p);
    TopRevision(d, s.disk);
    if s.procs[p].pc.Settling? && !s.crossed {
      OwnerDead(d, s, p, id);
      SettlesRight(d, s, id);
    }
  }

  lemma SettlesRight(d: Digest, s: System, id: nat)
    requires Inv(d, s) && !s.crossed && id in s.disk.migrations && s.disk.migrations[id].result == Started
    requires var q := s.disk.migrations[id].owner; q in s.procs && !s.procs[q].alive
    ensures |s.disk.history| in s.disk.history
            && RightRecord(Recorded(s, id, Settle(s.disk.history[|s.disk.history|], s.disk.migrations[id])), id)
  {
    hide ChainOk, LockOk, OwnerOk, LiveOk, Lineage, OutcomeOk, Settle;
    VerdictAt(d, s, id);
    assert StartedOk(s, id);
  }

  /** Recovery settles only records of dead processes: a live owner would hold the lock. */
  lemma OwnerDead(d: Digest, s: System, p: Pid, id: nat)
    requires Inv(d, s) && p in s.procs && s.procs[p].alive && s.procs[p].pc.Settling?
    requires id in s.disk.migrations && s.disk.migrations[id].result == Started
    ensures s.disk.migrations[id].owner in s.procs && !s.procs[s.disk.migrations[id].owner].alive
  {
    hide ChainOk, LiveOk, Lineage, OutcomeOk, Mutation, Continues, NoStarted, OwnerOk;
    OwnerKnows(d, s, p);
    assert StartedOk(s, id);
  }

  /** What is published and who is dead stay so. */
  ghost predicate Onward(s: System, t: System) {
    && Extends(s.disk.history, t.disk.history)
    && forall p <- s.procs :: p in t.procs
         && (!s.procs[p].alive ==> !t.procs[p].alive && (Published(t, p) ==> Published(s, p)))
  }

  lemma NextOnward(d: Digest, s: System, e: Event)
    requires Inv(d, s)
    ensures Onward(s, Next(d, s, e))
  {
    hide Inv, Act, Recovering, Published;
    NextExtends(d, s, e);
    match e
    case Step(p, ok, pick) =>
      if p in s.procs && s.procs[p].alive {
        if s.procs[p].pc.Publish? {
          PublishMeans(d, s, p);
        }
        ActOps(d, s, p, ok, pick);
        forall q <- s.procs | !s.procs[q].alive ensures Published(Act(d, s, p, ok, pick), q) ==> Published(s, q) {
          OthersUnpublished(d, s, p, ok, pick, q);
        }
      } else {
        SamePublished(s, Next(d, s, e));
      }
    case _ => SamePublished(s, Next(d, s, e));
  }

  /** A right record that is not rewritten stays right. */
  lemma RightOnward(s: System, t: System, id: nat)
    requires Onward(s, t) && id in s.disk.migrations && id in t.disk.migrations && RightRecord(s, id)
    requires t.disk.migrations[id] == s.disk.migrations[id]
    ensures RightRecord(t, id)
  {
    hide Published;
  }

  /** Terminal records are final, and the journal is right as long as nothing has crossed. */
  lemma NextRecords(d: Digest, s: System, e: Event)
    requires Inv(d, s)
    ensures var t := Next(d, s, e);
            && (forall id <- s.disk.migrations :: id in t.disk.migrations
                  && (s.disk.migrations[id].result != Started ==> t.disk.migrations[id] == s.disk.migrations[id]))
            && (!t.crossed && RecordsRight(s) ==> RecordsRight(t))
  {
    hide Inv, Act, Recovering, RightRecord, Writes, Onward;
    NextOnward(d, s, e);
    CrossedExactly(d, s, e);
    var t := Next(d, s, e);
    if e.Step? && e.p in s.procs && s.procs[e.p].alive {
      ActJournal(d, s, e.p, e.ok, e.pick);
      forall id <- s.disk.migrations | Writes(s, e.p, id, t.disk.migrations[id].result)
        ensures s.disk.migrations[id].result == Started && (!s.crossed ==> RightRecord(t, id))
      {
        WritesRight(d, s, e.p, id, t.disk.migrations[id].result);
        if !s.crossed {
          RecordedOnward(d, s, e, id);
        }
      }
    }
    if !t.crossed && RecordsRight(s) {
      forall id <- t.disk.migrations ensures RightRecord(t, id) {
        if id in s.disk.migrations && t.disk.migrations[id] == s.disk.migrations[id] {
          RightOnward(s, t, id);
        } else if id !in s.disk.migrations {
          NewRight(t, id);
        }
      }
    }
  }

  lemma NewRight(t: System, id: nat)
    requires id in t.disk.migrations && t.disk.migrations[id].result == Started
    ensures RightRecord(t, id)
  {
  }

  lemma RecordedOnward(d: Digest, s: System, e: Event, id: nat)
    requires Onward(s, Next(d, s, e)) && id in s.disk.migrations && id in Next(d, s, e).disk.migrations
    requires var v := Next(d, s, e).disk.migrations[id].result;
             Next(d, s, e).disk.migrations[id] == s.disk.migrations[id].(result := v)
             && RightRecord(Recorded(s, id, v), id)
    ensures RightRecord(Next(d, s, e), id)
  {
    hide Next;
  }

  lemma {:induction false} EveryRecordRight(d: Digest, events: seq<Event>)
    requires !Run(d, events).crossed
    ensures RecordsRight(Run(d, events))
  {
    hide Next, Inv, RightRecord;
    if events != [] {
      var before := events[..|events| - 1];
      EveryRunInv(d, before);
      CrossedExactly(d, Run(d, before), events[|events| - 1]);
      EveryRecordRight(d, before);
      NextRecords(d, Run(d, before), events[|events| - 1]);
    }
  }

  /**
   A verdict recorded before any migrations crossed is final and right at every later point, whatever
   happens then: SUCCEEDED names a revision of its owner, and the owner of a ROLLED_BACK record never
   publishes.
   */
  lemma {:induction false} RecordedVerdicts(d: Digest, events: seq<Event>, later: seq<Event>, id: nat)
    requires var s := Run(d, events); !s.crossed && id in s.disk.migrations && s.disk.migrations[id].result != Started
    ensures var s, t := Run(d, events), Run(d, events + later);
            id in t.disk.migrations && t.disk.migrations[id] == s.disk.migrations[id] && RightRecord(t, id)
  {
    hide Next, Inv, RightRecord, Onward;
    if later == [] {
      assert events + later == events;
      EveryRecordRight(d, events);
    } else {
      var n := |later| - 1;
      RecordedVerdicts(d, events, later[..n], id);
      assert (events + later)[..|events + later| - 1] == events + later[..n];
      var s := Run(d, events + later[..n]);
      EveryRunInv(d, events + later[..n]);
      NextOnward(d, s, later[n]);
      NextRecords(d, s, later[n]);
      RightOnward(s, Run(d, events + later), id);
    }
  }

  // ---------------------------------------------------------------- who may remove a lock

  /** A recovery looks for a stale lock to take over only when it was told to. */
  ghost predicate ToldToTake(s: System) {
    forall p <- s.procs :: s.procs[p].pc.Taking? ==> s.procs[p].op.Recover? && s.procs[p].op.stale
  }

  lemma ActToldToTake(d: Digest, s: System, p: Pid, ok: bool, pick: nat)
    requires p in s.procs && ToldToTake(s)
    ensures ToldToTake(Act(d, s, p, ok, pick))
  {
    hide Begun, Take, SettleOne, WriteVerdict, Finish, Release, WriteStarted, WriteLive, WriteHistory, Acquire;
    hide Read, Transform, ChainOk, Highest;
    ActOps(d, s, p, ok, pick);
    var t := Act(d, s, p, ok, pick);
    assert t.procs[p].pc.Taking? ==> s.procs[p].op.Recover? && s.procs[p].op.stale by {
      OnlyInspectTakes(d, s, p, ok, pick);
    }
  }

  lemma OnlyInspectTakes(d: Digest, s: System, p: Pid, ok: bool, pick: nat)
    requires p in s.procs
    ensures var t := Act(d, s, p, ok, pick);
            p in t.procs && (t.procs[p].pc.Taking? ==>
              s.procs[p].pc.Taking? || (s.procs[p].pc.Checked? && s.procs[p].op.Recover? && s.procs[p].op.stale))
  {
    hide ChainOk, NoStarted, Loadable, Mutation, Highest, OtherStarted, Behind, Settle;
    match s.procs[p].pc
    case Start => hide Inspect, Take, SettleOne, WriteVerdict, Finish, Release, WriteStarted, WriteLive, WriteHistory;
    case Checked => hide Begun, Take, SettleOne, WriteVerdict, Finish, Release, WriteStarted, WriteLive, WriteHistory;
    case Holding => hide Begun, Inspect, Take, SettleOne, WriteVerdict, Finish, Release, WriteStarted, WriteLive;
    case _ => hide Begun, Inspect, Read;
  }

  lemma {:induction false} EveryToldToTake(d: Digest, events: seq<Event>)
    ensures ToldToTake(Run(d, events))
  {
    hide Act;
    if events != [] {
      var before, e := events[..|events| - 1], events[|events| - 1];
      EveryToldToTake(d, before);
      var s := Run(d, before);
      if e.Step? && e.p in s.procs && s.procs[e.p].alive {
        ActToldToTake(d, s, e.p, e.ok, e.pick);
      }
    }
  }

  /**
   A lock leaves its owner in two ways only: the owner itself releases it, or a recovery that was told to
   take over stale locks renames it while the owner is dead.
   */
  lemma LockLeaves(d: Digest, before: seq<Event>, e: Event, q: Pid)
    requires Run(d, before).disk.lock == Some(q) && Run(d, before + [e]).disk.lock != Some(q)
    ensures var s := Run(d, before);
            e.Step? && e.p in s.procs && s.procs[e.p].alive
            && ((e.p == q && s.procs[q].pc.Releasing?)
                || (s.procs[e.p].op.Recover? && s.procs[e.p].op.stale && q in s.procs && !s.procs[q].alive))
  {
    hide Run, Act, OwnerOk, LiveOk, Lineage, OutcomeOk, MigrationsOk, ChainOk;
    EveryRunInv(d, before);
    EveryToldToTake(d, before);
    var s := Run(d, before);
    assert Run(d, before + [e]) == Next(d, s, e) by { RunMore(d, before, e); }
    if e.Step? && e.p in s.procs && s.procs[e.p].alive {
      ActLock(d, s, e.p, e.ok, e.pick);
    }
  }

  lemma RunMore(d: Digest, before: seq<Event>, e: Event)
    ensures Run(d, before + [e]) == Next(d, Run(d, before), e)
  {
    hide Next;
    assert (before + [e])[..|before|] == before;
  }

  /** Only a release and the renaming of a stale lock remove a lock file. */
  lemma ActLock(d: Digest, s: System, p: Pid, ok: bool, pick: nat)
    requires p in s.procs && s.disk.lock.Some?
    ensures Act(d, s, p, ok, pick).disk.lock == s.disk.lock
            || (s.procs[p].pc.Releasing? && s.disk.lock == Some(p)) || s.procs[p].pc.Taking?
  {
    hide ChainOk, NoStarted, Loadable, Mutation, Highest, OtherStarted, Behind, Settle;
    match s.procs[p].pc
    case Start => hide Inspect, Take, SettleOne, WriteVerdict, Finish, Release, WriteStarted, WriteLive, WriteHistory;
    case Checked => hide Begun, Take, SettleOne, WriteVerdict, Finish, Release, WriteStarted, WriteLive, WriteHistory;
    case Settling(_) => hide Begun, Take, Inspect, Finish, Release, WriteStarted, WriteLive, WriteHistory;
    case _ => hide Begun, Inspect, SettleOne, Read, Transform;
  }
}
