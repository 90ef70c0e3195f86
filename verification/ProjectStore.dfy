/** The store's own methods, one caller at a time, file operation by file operation. */
module ProjectStore {
  import opened Prelude
  import opened CanonicalJson
  import opened StoreModel
  import opened StoreSafety
  import opened StoreRecovery
  import opened StoreWitness

  // ---------------------------------------------------------------- specifications

  /**
   The body of `update` under the lock; `gates` are the checks outside this model, `ending` what follows
   a publication.
   */
  ghost function Commit(d: Digest, k: Disk, p: Pid, op: Op, expected: nat, check: bool, gates: bool, ending: Ending):
    (Disk, Code)
  {
    if !(gates && Loadable(d, k, check)) then (k, Halted)
    else if k.live.value.revision != expected then (k, Conflict)
    else
      match Mutation(op, k.live.value.state)
      case None => (k, Refused)
      case Some(state) =>
        var e := NewEnvelope(d, state, expected + 1, p, k.live.value.stateHash);
        if e.revision in k.history then (k, Raised)
        else (k.(history := k.history[e.revision := e], live := Some(e)), Told(ending))
  }

  ghost function UpdateAlone(d: Digest, k: Disk, p: Pid, op: Op, gates: bool, ending: Ending): (Disk, Code)
    requires op.Update?
  {
    if k.lock.Some? then (k, Locked) else Commit(d, k, p, op, op.expected, true, gates, ending)
  }

  /** `migrate`: journal, nested update, terminal record. */
  ghost function MigrateAlone(d: Digest, k: Disk, p: Pid, op: Op, id: nat, gates: bool, nested: bool, ending: Ending):
    (Disk, Code)
    requires op.Migrate?
  {
    if k.lock.Some? then (k, Locked)
    else if !(gates && Loadable(d, k, false)) then (k, Halted)
    else if id in k.migrations then (k, Raised)
    else
      var top := k.live.value;
      var m := Migration(p, top.revision, op.target, Started);
      var (l, code) := Commit(d, k.(migrations := k.migrations[id := m]), p, op, top.revision, false, nested, ending);
      var verdict := if code == Updated then Succeeded(top.revision + 1) else Failed;
      (l.(migrations := k.migrations[id := m.(result := verdict)]), if code == Updated then Migrated else Halted)
  }

  ghost function RecoverAlone(d: Digest, k: Disk, gates: bool, takeover: bool): (Disk, Code) {
    if !(gates && ChainOk(d, k.history) && k.history != map[]) then (k, SafetyHalt)
    else if k.lock.Some? && !takeover then (k, SafetyHalt)
    else if |k.history| in k.history then (RecoveredDisk(k), Recovered)
    else (k, SafetyHalt)
  }

  // ---------------------------------------------------------------- the store

  class Store {
    var history: map<nat, Envelope>
    var live: Option<Envelope>
    var lock: Option<Pid>
    var migrations: map<nat, Migration>
    const d: Digest

    constructor (d: Digest)
      ensures this.d == d && OnDisk() == Disk(map[], None, None, map[])
    {
      this.d := d;
      history, live, lock, migrations := map[], None, None, map[];
    }

    ghost function OnDisk(): Disk
      reads this
    {
      Disk(history, live, lock, migrations)
    }

    method AcquireLock(p: Pid) returns (acquired: bool)
      modifies this`lock
      ensures acquired == old(lock).None?
      ensures lock == if acquired then Some(p) else old(lock)
    {
      acquired := lock.None?;
      if acquired {
        lock := Some(p);
      }
    }

    method ReleaseLock(p: Pid)
      modifies this`lock
      ensures lock == if old(lock) == Some(p) then None else old(lock)
    {
      if lock == Some(p) {
        lock := None;
      }
    }

    /** The history part of `validate`: revisions in order, each linked to the one before. */
    method ValidateHistory() returns (valid: bool)
      ensures valid == ChainOk(d, history)
    {
      hide ChainOk, InPlace, Continues;
      var previous := d.zero;
      for r := 1 to |history| + 1
        invariant forall q: nat :: 1 <= q < r ==> InPlace(d, history, q)
        invariant r > 1 ==> r - 1 in history
        invariant previous == if r == 1 then d.zero else history[r - 1].stateHash
      {
        if r !in history {
          KeysMissing(d, history, r);
          return false;
        }
        var e := history[r];
        LinkChecked(d, history, r, previous);
        if e.revision != r || e.previousRevision != r - 1 || e.previousHash != previous
           || e.stateHash != d.of(e.state)
        {
          OutOfPlace(d, history, r);
          return false;
        }
        previous := e.stateHash;
      }
      AllInPlace(d, history);
      valid := true;
    }

    method Validate(checkMigrations: bool) returns (valid: bool)
      ensures valid == Loadable(d, OnDisk(), checkMigrations)
    {
      hide ChainOk;
      var chained := ValidateHistory();
      var current := |history| in history && live == Some(history[|history|]);
      var terminal := forall id <- migrations :: migrations[id].result != Started;
      valid := chained && current && (checkMigrations ==> terminal);
    }

    /** `update` once the lock is held. */
    method CommitHeld(p: Pid, op: Op, expected: nat, check: bool, gates: bool, ending: Ending) returns (code: Code)
      modifies this`history, this`live
      ensures (OnDisk(), code) == Commit(d, old(OnDisk()), p, op, expected, check, gates, ending)
    {
      hide Loadable, Mutation;
      var valid := Validate(check);
      if !(gates && valid) {
        return Halted;
      }
      assert live.Some? by { LoadableLive(d, OnDisk(), check); }
      if live.value.revision != expected {
        return Conflict;
      }
      var next := Mutation(op, live.value.state);
      if next.None? {
        return Refused;
      }
      var e := NewEnvelope(d, next.value, expected + 1, p, live.value.stateHash);
      if e.revision in history {
        return Raised;
      }
      history := history[e.revision := e];
      live := Some(e);
      code := Told(ending);
    }

    method Update(p: Pid, op: Op, gates: bool, ending: Ending) returns (code: Code)
      requires op.Update?
      modifies this
      ensures (OnDisk(), code) == UpdateAlone(d, old(OnDisk()), p, op, gates, ending)
    {
      hide Commit;
      var acquired := AcquireLock(p);
      if !acquired {
        return Locked;
      }
      ghost var before := old(OnDisk());
      assert OnDisk() == before.(lock := Some(p));
      code := CommitHeld(p, op, op.expected, true, gates, ending);
      CommitUnlocked(d, before, p, op, op.expected, true, gates, ending);
      CommitKeepsMigrations(d, before, p, op, op.expected, true, gates, ending);
      ReleaseLock(p);
    }

    /** `_recover_started_migrations`, in whatever order the directory lists the records. */
    method SettleStarted(highest: Envelope)
      modifies this`migrations
      ensures migrations == SettleAll(old(migrations), highest)
    {
      hide Settle;
      var todo := migrations.Keys;
      while todo != {}
        invariant todo <= migrations.Keys == old(migrations).Keys
        invariant forall id <- migrations ::
          migrations[id] == if id in todo then old(migrations)[id] else SettleAll(old(migrations), highest)[id]
        decreases |todo|
      {
        var id :| id in todo;
        if migrations[id].result == Started {
          migrations := migrations[id := migrations[id].(result := Settle(highest, migrations[id]))];
        }
        todo := todo - {id};
      }
    }

    /** `recover`; `takeover` says that a present lock is expired and its owner dead. */
    method Recover(p: Pid, gates: bool, takeover: bool) returns (code: Code)
      modifies this
      ensures (OnDisk(), code) == RecoverAlone(d, old(OnDisk()), gates, takeover)
    {
      hide ChainOk, SettleAll;
      var chained := ValidateHistory();
      if !(gates && chained && history != map[]) {
        return SafetyHalt;
      }
      ChainTop(d, history);
      if lock.Some? {
        if !takeover {
          return SafetyHalt;
        }
        lock := None;
      }
      var acquired := AcquireLock(p);
      var highest := history[|history|];
      live := Some(highest);
      SettleStarted(highest);
      ReleaseLock(p);
      code := Recovered;
    }

    method Migrate(p: Pid, op: Op, id: nat, gates: bool, nested: bool, ending: Ending) returns (code: Code)
      requires op.Migrate?
      modifies this
      ensures (OnDisk(), code) == MigrateAlone(d, old(OnDisk()), p, op, id, gates, nested, ending)
    {
      hide Commit, Loadable;
      var acquired := AcquireLock(p);
      if !acquired {
        return Locked;
      }
      var valid := Validate(false);
      assert valid == Loadable(d, old(OnDisk()), false) by { LoadableUnlocked(d, OnDisk(), old(OnDisk()), false); }
      if !(gates && valid) {
        ReleaseLock(p);
        return Halted;
      }
      if id in migrations {
        ReleaseLock(p);
        return Raised;
      }
      LoadableLive(d, old(OnDisk()), false);
      var top := live.value;
      var m := Migration(p, top.revision, op.target, Started);
      migrations := migrations[id := m];
      ghost var unlocked := OnDisk().(lock := None);
      assert unlocked == old(OnDisk()).(migrations := old(migrations)[id := m]);
      assert OnDisk() == unlocked.(lock := Some(p));
      var outcome := CommitHeld(p, op, top.revision, false, nested, ending);
      CommitUnlocked(d, unlocked, p, op, top.revision, false, nested, ending);
      CommitKeepsMigrations(d, unlocked, p, op, top.revision, false, nested, ending);
      var verdict := if outcome == Updated then Succeeded(top.revision + 1) else Failed;
      migrations := migrations[id := m.(result := verdict)];
      assert migrations == old(migrations)[id := m.(result := verdict)];
      ReleaseLock(p);
      code := if outcome == Updated then Migrated else Halted;
    }
  }

  /** Revision `r` is there and continues the one below it. */
  ghost predicate InPlace(d: Digest, h: map<nat, Envelope>, r: nat) {
    r in h && h[r].revision == r && Continues(d, h, h[r])
  }

  lemma LinkChecked(d: Digest, h: map<nat, Envelope>, r: nat, previous: Hash)
    requires r >= 1 && r in h && (r > 1 ==> r - 1 in h)
    requires previous == if r == 1 then d.zero else h[r - 1].stateHash
    ensures var e := h[r];
            InPlace(d, h, r) <==>
            e.revision == r && e.previousRevision == r - 1 && e.previousHash == previous && e.stateHash == d.of(e.state)
  {
  }

  lemma OutOfPlace(d: Digest, h: map<nat, Envelope>, r: nat)
    requires r in h && !InPlace(d, h, r)
    ensures !ChainOk(d, h)
  {
    hide Continues;
  }

  lemma AllInPlace(d: Digest, h: map<nat, Envelope>)
    requires forall q: nat :: 1 <= q < |h| + 1 ==> InPlace(d, h, q)
    ensures ChainOk(d, h)
  {
    hide Continues;
    forall q: nat | 1 <= q <= |h| ensures q in h {
      assert InPlace(d, h, q);
    }
    KeysComplete(h);
    forall r <- h ensures h[r].revision == r && Continues(d, h, h[r]) {
      assert r in Range(|h|);
      assert InPlace(d, h, r);
    }
  }

  lemma KeysMissing(d: Digest, h: map<nat, Envelope>, r: nat)
    requires 1 <= r <= |h| && r !in h
    ensures !ChainOk(d, h)
  {
    hide Continues;
    assert r in Range(|h|);
  }

  lemma KeysComplete(h: map<nat, Envelope>)
    requires forall q: nat :: 1 <= q <= |h| ==> q in h
    ensures h.Keys == Range(|h|)
  {
    SubsetSize(Range(|h|), h.Keys);
  }

  lemma LoadableLive(d: Digest, k: Disk, check: bool)
    ensures Loadable(d, k, check) ==> k.live.Some? && k.live.value.revision == |k.history|
  {
    if Loadable(d, k, check) {
      TopRevision(d, k);
    }
  }

  lemma LoadableUnlocked(d: Digest, k: Disk, l: Disk, check: bool)
    requires l.(lock := None) == k.(lock := None)
    ensures Loadable(d, k, check) == Loadable(d, l, check)
  {
    hide ChainOk;
  }

  /** The commit does not look at the lock. */
  lemma CommitUnlocked(d: Digest, k: Disk, p: Pid, op: Op, expected: nat, check: bool, gates: bool, ending: Ending)
    ensures Commit(d, k.(lock := Some(p)), p, op, expected, check, gates, ending).0
            == Commit(d, k, p, op, expected, check, gates, ending).0.(lock := Some(p))
    ensures Commit(d, k.(lock := Some(p)), p, op, expected, check, gates, ending).1
            == Commit(d, k, p, op, expected, check, gates, ending).1
  {
    hide Loadable, Mutation;
    LoadableUnlocked(d, k, k.(lock := Some(p)), check);
  }

  lemma CommitKeepsMigrations(d: Digest, k: Disk, p: Pid, op: Op, expected: nat, check: bool, gates: bool,
                              ending: Ending)
    ensures Commit(d, k, p, op, expected, check, gates, ending).0.migrations == k.migrations
    ensures Commit(d, k, p, op, expected, check, gates, ending).0.lock == k.lock
  {
    hide Loadable, Mutation;
  }

  // ---------------------------------------------------------------- what the methods guarantee

  /** Chained, live highest, lock free. */
  ghost predicate Healthy(d: Digest, k: Disk) {
    ChainOk(d, k.history) && InSync(k) && k.lock.None?
  }

  /** Committing on a healthy disk never finds the file taken, and leaves the disk healthy whatever the code. */
  lemma CommitHealthy(d: Digest, k: Disk, p: Pid, op: Op, expected: nat, check: bool, gates: bool, ending: Ending)
    requires Healthy(d, k)
    ensures var (l, code) := Commit(d, k, p, op, expected, check, gates, ending);
            && Healthy(d, l) && code != Raised && l.migrations == k.migrations
            && (l.history == k.history
                || (expected == |k.history| && |l.history| == expected + 1 && l.live.value.writer == p
                    && (forall r <- k.history :: r in l.history && l.history[r] == k.history[r])
                    && Mutation(op, k.live.value.state) == Some(l.live.value.state)))
            && (code == Updated ==> l.history != k.history)
  {
    hide ChainOk, Mutation, NoStarted, Continues;
    ChainTop(d, k.history);
    TopRevision(d, k);
    if gates && Loadable(d, k, check) && k.live.value.revision == expected && Mutation(op, k.live.value.state).Some? {
      var state := Mutation(op, k.live.value.state).value;
      NewContinues(d, k.history, p, state);
      ChainGrows(d, k.history, NewEnvelope(d, state, expected + 1, p, k.live.value.stateHash));
    }
  }

  /** What publishing `state` as revision `n + 1` makes of a disk. */
  ghost predicate AddsRevision(d: Digest, k: Disk, l: Disk, p: Pid, state: State) {
    var n := |k.history|;
    && |l.history| == n + 1 && n + 1 in l.history && l.live == Some(l.history[n + 1])
    && (forall r <- k.history :: r in l.history && l.history[r] == k.history[r])
    && l.live.value.state == state && l.live.value.writer == p && l.live.value.revision == n + 1
  }

  /**
   An undisturbed migration of a healthy disk publishes exactly when the nested update passes and the
   transform yields an object, then that object with the target version; it answers MIGRATED exactly when
   nothing fails behind the publication. Its record is terminal and tells whether it answered MIGRATED; the
   other records are untouched and the disk stays healthy.
   */
  lemma MigrateTerminates(d: Digest, k: Disk, p: Pid, op: Op, id: nat, gates: bool, nested: bool, ending: Ending)
    requires Healthy(d, k) && op.Migrate? && id !in k.migrations && gates
    ensures var (l, code) := MigrateAlone(d, k, p, op, id, gates, nested, ending);
            var published := nested && Yields(op.transform, k.live.value.state);
            && Healthy(d, l) && code == (if published && ending.Complete? then Migrated else Halted)
            && (published ==> AddsRevision(d, k, l, p, l.live.value.state)
                              && MigratedTo(op.transform, op.target, k.live.value.state, l.live.value.state))
            && (!published ==> l.history == k.history && l.live == k.live)
            && l.migrations.Keys == k.migrations.Keys + {id}
            && l.migrations[id] == Migration(p, |k.history|, op.target,
                                             if code == Migrated then Succeeded(|k.history| + 1) else Failed)
            && (forall i <- k.migrations :: i in l.migrations && l.migrations[i] == k.migrations[i])
  {
    hide ChainOk, Mutation, Version, NoStarted, Continues, MigratedTo;
    ChainTop(d, k.history);
    TopRevision(d, k);
    assert Loadable(d, k, false);
    var m := Migration(p, |k.history|, op.target, Started);
    var started := k.(migrations := k.migrations[id := m]);
    CommitHealthy(d, started, p, op, |k.history|, false, nested, ending);
    YieldsMutation(op, k.live.value.state);
    var next := Mutation(op, k.live.value.state);
    if next.Some? {
      MutationMigrates(op, k.live.value.state, next.value);
      NextFree(d, k.history);
    }
  }

  lemma YieldsMutation(op: Op, before: State)
    requires op.Migrate?
    ensures Mutation(op, before).Some? <==> Yields(op.transform, before)
  {
  }

  lemma NextFree(d: Digest, h: map<nat, Envelope>)
    requires ChainOk(d, h)
    ensures |h| + 1 !in h
  {
  }

  /**
   What `update` answers, and what it does to the disk, from what a caller knows: LOCKED under a lock;
   HALTED when a gate fails or the store is not sound; CONFLICT for another revision; REFUSED when the
   mutation yields nothing; otherwise the mutation is published, and the answer is UPDATED, HALTED for a
   refused checkpoint, or IO_FAILURE for a missing audit record.
   */
  lemma UpdateAnswers(d: Digest, k: Disk, p: Pid, op: Op, gates: bool, ending: Ending)
    requires op.Update?
    ensures var (l, code) := UpdateAlone(d, k, p, op, gates, ending);
            if k.lock.Some? then code == Locked && l == k
            else if !(gates && Healthy(d, k) && NoStarted(k)) then code == Halted && l == k
            else if op.expected != |k.history| then code == Conflict && l == k
            else if op.mutate(k.live.value.state).None? then code == Refused && l == k
            else
              && AddsRevision(d, k, l, p, op.mutate(k.live.value.state).value)
              && l.migrations == k.migrations && l.lock == k.lock
              && match ending
                 case Complete => code == Updated
                 case NoCheckpoint => code == Halted
                 case NoAudit => code == IoFailure
  {
    hide ChainOk, NoStarted, Continues;
    if ChainOk(d, k.history) {
      ChainTop(d, k.history);
      NextFree(d, k.history);
    }
    LoadableLive(d, k, true);
  }

  /**
   What becomes of a journal record: a STARTED one is SUCCEEDED when something newer than its input is live
   in its target version, FAILED when something newer is live in another version, ROLLED_BACK otherwise.
   */
  predicate Settles(was: Migration, live: Envelope, now: Migration) {
    var version := if live.state.Obj? && "schema_version" in live.state.fields
                   then live.state.fields["schema_version"] else Null;
    now == if was.result != Started then was
           else if live.revision <= was.input then was.(result := RolledBack)
           else if version == was.target then was.(result := Succeeded(live.revision))
           else was.(result := Failed)
  }

  lemma SettledEntries(k: Disk, top: Envelope)
    ensures SettleAll(k.migrations, top).Keys == k.migrations.Keys
    ensures forall id <- k.migrations :: Settles(k.migrations[id], top, SettleAll(k.migrations, top)[id])
  {
  }

  /**
   Recovery succeeds exactly when the gates pass, something is published, the history is chained, and a
   present lock may be taken over. Whatever a crash left in live, lock and journal the disk is then
   healthy with the same history, and repeating it changes nothing; otherwise it halts and changes nothing.
   */
  lemma RecoverHeals(d: Digest, k: Disk, gates: bool, takeover: bool)
    ensures var (l, code) := RecoverAlone(d, k, gates, takeover);
            && (code == Recovered <==>
                  gates && ChainOk(d, k.history) && k.history != map[] && (k.lock.Some? ==> takeover))
            && (code == Recovered ==>
                  Healthy(d, l) && NoStarted(l) && l.history == k.history
                  && RecoverAlone(d, l, gates, takeover) == (l, Recovered)
                  && l.migrations.Keys == k.migrations.Keys
                  && forall id <- k.migrations :: Settles(k.migrations[id], l.live.value, l.migrations[id]))
            && (code != Recovered ==> code == SafetyHalt && l == k)
  {
    hide NoStarted, ChainOk, Version;
    if ChainOk(d, k.history) && k.history != map[] {
      ChainTop(d, k.history);
      SettledEntries(k, k.history[|k.history|]);
    }
    hide Settle, SettleAll, Settles;
    if ChainOk(d, k.history) && k.history != map[] {
      ChainTop(d, k.history);
      RecoverTwice(k);
    }
  }

  // ---------------------------------------------------------------- the methods are runs of the protocol

  lemma ReadGoes(d: Digest, s: System, p: Pid, op: Op, k: Disk, ok: bool)
    ensures Next(d, Now(s, p, op, k, Holding), Step(p, ok, 0)) == Now(s, p, op, k, Read(d, k, p, op, ok, 0))
  {
    hide Read;
    NowNow(s, p, op, k, Holding, k, Read(d, k, p, op, ok, 0));
  }

  /** What `update` decides under the lock is what the protocol's reading step decides. */
  lemma CommitReads(d: Digest, k: Disk, p: Pid, op: Op, gates: bool, ending: Ending)
    requires op.Update? && ChainOk(d, k.history)
    ensures var (l, code) := Commit(d, k, p, op, op.expected, true, gates, ending);
            match Read(d, k, p, op, gates, 0)
            case Releasing(c) => l == k && code == c
            case Publish(e, mig) =>
              mig == None && e.revision !in k.history && l == k.(history := k.history[e.revision := e], live := Some(e))
              && code == Told(ending)
            case _ => false
  {
    hide ChainOk, NoStarted;
    ChainTop(d, k.history);
    LoadableLive(d, k, true);
  }

  /** Every outcome of `Update` is one that an undisturbed process of the protocol reaches, with the same disk. */
  lemma UpdateIsRun(d: Digest, s: System, p: Pid, op: Op, gates: bool, ending: Ending) returns (events: seq<Event>)
    requires Inv(d, s) && p !in s.procs && op.Update?
    ensures var (l, code) := UpdateAlone(d, s.disk, p, op, gates, ending);
            Continue(d, s, events) == Now(s, p, op, l, Finished(code))
  {
    hide Inv, Next, Now, Continue, Read, Commit, ChainOk;
    var step := Step(p, true, 0);
    ContinueNone(d, s);
    Begins(d, s, p, op);
    events := Do(d, s, [], Begin(p, op), s, Now(s, p, op, s.disk, Start));
    if s.disk.lock.Some? {
      Refuses(d, s, p, op);
      events := Do(d, s, events, step, Now(s, p, op, s.disk, Start), Now(s, p, op, s.disk, Finished(Locked)));
      return;
    }
    var k := s.disk.(lock := Some(p));
    Locks(d, s, p, op);
    events := Do(d, s, events, step, Now(s, p, op, s.disk, Start), Now(s, p, op, k, Holding));
    var pc := Read(d, k, p, op, gates, 0);
    ReadGoes(d, s, p, op, k, gates);
    events := Do(d, s, events, Step(p, gates, 0), Now(s, p, op, k, Holding), Now(s, p, op, k, pc));
    InvChain(d, s);
    CommitReads(d, k, p, op, gates, ending);
    CommitUnlocked(d, s.disk, p, op, op.expected, true, gates, ending);
    CommitKeepsMigrations(d, s.disk, p, op, op.expected, true, gates, ending);
    if pc.Publish? {
      var e := pc.e;
      var code := Told(ending);
      var l := k.(history := k.history[e.revision := e]);
      PublishesHistory(d, s, p, op, k, e);
      events := Do(d, s, events, step, Now(s, p, op, k, pc), Now(s, p, op, l, PublishLive(e, None)));
      PublishesLive(d, s, p, op, l, e);
      l := l.(live := Some(e));
      events := Do(d, s, events, step,
                   Now(s, p, op, l.(live := k.live), PublishLive(e, None)), Now(s, p, op, l, Finishing(e, None)));
      Finishes(d, s, p, op, l, e, ending);
      events := Do(d, s, events, Ends(p, ending),
                   Now(s, p, op, l, Finishing(e, None)), Now(s, p, op, l, Releasing(code)));
      Releases(d, s, p, op, l, code);
      events := Do(d, s, events, step,
                   Now(s, p, op, l, Releasing(code)), Now(s, p, op, l.(lock := None), Finished(code)));
    } else {
      Releases(d, s, p, op, k, pc.code);
      events := Do(d, s, events, step, Now(s, p, op, k, pc), Now(s, p, op, k.(lock := None), Finished(pc.code)));
    }
  }

  lemma Refuses(d: Digest, s: System, p: Pid, op: Op)
    requires s.disk.lock.Some? && !op.Recover?
    ensures Next(d, Now(s, p, op, s.disk, Start), Step(p, true, 0)) == Now(s, p, op, s.disk, Finished(Locked))
  {
    NowNow(s, p, op, s.disk, Start, s.disk, Finished(Locked));
  }

  /** Every outcome of `Recover` is one that an undisturbed recovery of the protocol reaches, with the same disk. */
  lemma RecoverIsRun(d: Digest, s: System, p: Pid, gates: bool, takeover: bool) returns (events: seq<Event>)
    requires Inv(d, s) && p !in s.procs && NoRecovery(s)
    requires takeover && s.disk.lock.Some? ==> s.disk.lock.value in s.procs && !s.procs[s.disk.lock.value].alive
    ensures var (l, code) := RecoverAlone(d, s.disk, gates, takeover); var t := Continue(d, s, events);
            t.disk == l && t.procs == s.procs[p := Proc(Recover(true), Finished(code), true)] && RecoveryBy(p, events)
  {
    hide Inv, Next, Now, At, Continue, ChainOk, NoRecovery, RecoveredDisk;
    InvChain(d, s);
    if gates && s.disk.history != map[] && (s.disk.lock.Some? ==> takeover) {
      events := RecoverySteps(d, s, p);
      AtIs(s, p, RecoveredDisk(s.disk), Finished(Recovered), false);
    } else {
      var step := Step(p, true, 0);
      ContinueNone(d, s);
      BeginQuiet(d, s, p);
      events := Do(d, s, [], Begin(p, Recover(true)), s, At(s, p, s.disk, Start, s.torn));
      if !gates || s.disk.history == map[] {
        StartRefused(d, s, p, gates);
        events := Do(d, s, events, Step(p, gates, 0), At(s, p, s.disk, Start, s.torn),
                     At(s, p, s.disk, Finished(SafetyHalt), s.torn));
      } else {
        FromStart(d, s, p);
        events := Do(d, s, events, step, At(s, p, s.disk, Start, s.torn), At(s, p, s.disk, Checked, s.torn));
        InspectRefused(d, s, p);
        events := Do(d, s, events, Step(p, false, 0), At(s, p, s.disk, Checked, s.torn),
                     At(s, p, s.disk, Finished(SafetyHalt), s.torn));
      }
      AtIs(s, p, s.disk, Finished(SafetyHalt), s.torn);
    }
  }

  lemma AtIs(s: System, p: Pid, k: Disk, pc: Pc, torn: bool)
    ensures At(s, p, k, pc, torn).disk == k
    ensures At(s, p, k, pc, torn).procs == s.procs[p := Proc(Recover(true), pc, true)]
  {
  }

  lemma StartRefused(d: Digest, s: System, p: Pid, ok: bool)
    requires !ok || s.disk.history == map[]
    ensures Next(d, At(s, p, s.disk, Start, s.torn), Step(p, ok, 0)) == At(s, p, s.disk, Finished(SafetyHalt), s.torn)
  {
    hide ChainOk;
    Overwrite(s, p, Start, Finished(SafetyHalt));
  }

  lemma InspectRefused(d: Digest, s: System, p: Pid)
    requires s.disk.lock.Some?
    ensures Next(d, At(s, p, s.disk, Checked, s.torn), Step(p, false, 0))
            == At(s, p, s.disk, Finished(SafetyHalt), s.torn)
  {
    Overwrite(s, p, Checked, Finished(SafetyHalt));
  }

  lemma JournalRefused(d: Digest, s: System, p: Pid, op: Op, k: Disk, top: Envelope, id: nat)
    requires id in k.migrations
    ensures Next(d, Now(s, p, op, k, Journaling(top)), Step(p, true, id)) == Now(s, p, op, k, Releasing(Raised))
  {
    NowNow(s, p, op, k, Journaling(top), k, Releasing(Raised));
  }

  lemma TransformGoes(d: Digest, s: System, p: Pid, op: Op, k: Disk, top: Envelope, id: nat, ok: bool)
    ensures Next(d, Now(s, p, op, k, Transforming(top, id)), Step(p, ok, 0))
            == Now(s, p, op, k, Transform(d, k, p, op, top, id, ok))
  {
    hide Transform;
    NowNow(s, p, op, k, Transforming(top, id), k, Transform(d, k, p, op, top, id, ok));
  }

  lemma MigrationLive(d: Digest, s: System, p: Pid, op: Op, k: Disk, e: Envelope, id: nat)
    ensures Next(d, Now(s, p, op, k, PublishLive(e, Some(id))), Step(p, true, 0))
            == Now(s, p, op, k.(live := Some(e)), Finishing(e, Some(id)))
  {
    NowNow(s, p, op, k, PublishLive(e, Some(id)), k, Finishing(e, Some(id)));
  }

  lemma MigrationFinishes(d: Digest, s: System, p: Pid, op: Op, k: Disk, e: Envelope, id: nat, ending: Ending)
    ensures Next(d, Now(s, p, op, k, Finishing(e, Some(id))), Ends(p, ending))
            == Now(s, p, op, k, Terminal(id, if ending.Complete? then Succeeded(e.revision) else Failed))
  {
    NowNow(s, p, op, k, Finishing(e, Some(id)), k,
           Terminal(id, if ending.Complete? then Succeeded(e.revision) else Failed));
  }

  lemma MigrationTerminal(d: Digest, s: System, p: Pid, op: Op, k: Disk, id: nat, v: Verdict)
    requires id in k.migrations
    ensures Next(d, Now(s, p, op, k, Terminal(id, v)), Step(p, true, 0))
            == Now(s, p, op, k.(migrations := k.migrations[id := k.migrations[id].(result := v)]),
                   Releasing(if v.Succeeded? then Migrated else Halted))
  {
    NowNow(s, p, op, k, Terminal(id, v), k, Releasing(if v.Succeeded? then Migrated else Halted));
  }

  /** From the decision on a verdict to the end of the migration. */
  lemma MigrationEnds(d: Digest, s: System, before: seq<Event>, base: System, p: Pid, op: Op, k: Disk, id: nat,
                      v: Verdict)
    returns (events: seq<Event>)
    requires Continue(d, s, before) == Now(base, p, op, k, Terminal(id, v)) && id in k.migrations && k.lock == Some(p)
    ensures var l := k.(lock := None, migrations := k.migrations[id := k.migrations[id].(result := v)]);
            Continue(d, s, events) == Now(base, p, op, l, Finished(if v.Succeeded? then Migrated else Halted))
  {
    hide Next, Now, Continue;
    var step, code := Step(p, true, 0), if v.Succeeded? then Migrated else Halted;
    var l := k.(migrations := k.migrations[id := k.migrations[id].(result := v)]);
    MigrationTerminal(d, base, p, op, k, id, v);
    events := Do(d, s, before, step, Now(base, p, op, k, Terminal(id, v)), Now(base, p, op, l, Releasing(code)));
    Releases(d, base, p, op, l, code);
    events := Do(d, s, events, step, Now(base, p, op, l, Releasing(code)),
                 Now(base, p, op, l.(lock := None), Finished(code)));
  }

  /** What the nested update of a migration decides is what the protocol's transforming step decides. */
  lemma CommitTransforms(d: Digest, k: Disk, p: Pid, op: Op, top: Envelope, id: nat, nested: bool, ending: Ending)
    requires Loadable(d, k, false) && k.live == Some(top) && k.lock == Some(p) && op.Migrate?
    ensures var (l, code) := Commit(d, k, p, op, top.revision, false, nested, ending);
            match Transform(d, k, p, op, top, id, nested)
            case Terminal(i, v) => i == id && v == Failed && l == k && code != Updated
            case Publish(e, mig) =>
              mig == Some(id) && e.revision == top.revision + 1 && e.revision !in k.history
              && l == k.(history := k.history[e.revision := e], live := Some(e))
              && code == Told(ending)
            case _ => false
  {
    hide ChainOk, Mutation;
    ChainTop(d, k.history);
    LoadableLive(d, k, false);
  }

  /** Every outcome of `Migrate` is one that an undisturbed process of the protocol reaches, with the same disk. */
  lemma MigrateIsRun(d: Digest, s: System, p: Pid, op: Op, id: nat, gates: bool, nested: bool, ending: Ending)
    returns (events: seq<Event>)
    requires Inv(d, s) && p !in s.procs && op.Migrate?
    ensures var (l, code) := MigrateAlone(d, s.disk, p, op, id, gates, nested, ending); var t := Continue(d, s, events);
            t.disk == l && t.procs == s.procs[p := Proc(op, Finished(code), true)]
  {
    hide Inv, Next, Now, Continue, Commit, ChainOk, Loadable;
    var step := Step(p, true, 0);
    ContinueNone(d, s);
    Begins(d, s, p, op);
    events := Do(d, s, [], Begin(p, op), s, Now(s, p, op, s.disk, Start));
    if s.disk.lock.Some? {
      Refuses(d, s, p, op);
      events := Do(d, s, events, step, Now(s, p, op, s.disk, Start), Now(s, p, op, s.disk, Finished(Locked)));
      NowIs(s, p, op, s.disk, Finished(Locked));
      return;
    }
    var k := s.disk.(lock := Some(p));
    Locks(d, s, p, op);
    events := Do(d, s, events, step, Now(s, p, op, s.disk, Start), Now(s, p, op, k, Holding));
    LoadableUnlocked(d, k, s.disk, false);
    MigrateDecides(d, k, p, op, gates);
    ReadGoes(d, s, p, op, k, gates);
    if !(gates && Loadable(d, s.disk, false)) {
      events := Do(d, s, events, Step(p, gates, 0), Now(s, p, op, k, Holding), Now(s, p, op, k, Releasing(Halted)));
      Releases(d, s, p, op, k, Halted);
      events := Do(d, s, events, step, Now(s, p, op, k, Releasing(Halted)), Now(s, p, op, s.disk, Finished(Halted)));
      NowIs(s, p, op, s.disk, Finished(Halted));
      return;
    }
    LoadableLive(d, k, false);
    var top := k.live.value;
    events := Do(d, s, events, Step(p, gates, 0), Now(s, p, op, k, Holding), Now(s, p, op, k, Journaling(top)));
    if id in s.disk.migrations {
      JournalRefused(d, s, p, op, k, top, id);
      events := Do(d, s, events, Step(p, true, id), Now(s, p, op, k, Journaling(top)),
                   Now(s, p, op, k, Releasing(Raised)));
      Releases(d, s, p, op, k, Raised);
      events := Do(d, s, events, step, Now(s, p, op, k, Releasing(Raised)), Now(s, p, op, s.disk, Finished(Raised)));
      NowIs(s, p, op, s.disk, Finished(Raised));
      return;
    }
    var started := StartedDisk(k, p, id, op.target);
    MigrateJournals(d, s, p, op, k, top, id);
    events := Do(d, s, events, Step(p, true, id), Now(s, p, op, k, Journaling(top)),
                 Now(s, p, op, started, Transforming(top, id)));
    LoadableStarted(d, k, p, id, op.target);
    events := NestedIsRun(d, s, events, p, op, started, top, id, nested, ending);
    MigrateMeets(d, s.disk, p, op, id, gates, nested, ending);
  }

  lemma NowIs(s: System, p: Pid, op: Op, k: Disk, pc: Pc)
    ensures Now(s, p, op, k, pc).disk == k && Now(s, p, op, k, pc).procs == s.procs[p := Proc(op, pc, true)]
  {
  }

  lemma MigrateDecides(d: Digest, k: Disk, p: Pid, op: Op, ok: bool)
    requires op.Migrate?
    ensures ok && Loadable(d, k, false) ==> k.live.Some? && Read(d, k, p, op, ok, 0) == Journaling(k.live.value)
    ensures !(ok && Loadable(d, k, false)) ==> Read(d, k, p, op, ok, 0) == Releasing(Halted)
  {
    hide ChainOk;
  }

  lemma LoadableStarted(d: Digest, k: Disk, p: Pid, id: nat, target: Json)
    requires Loadable(d, k, false)
    ensures Loadable(d, StartedDisk(k, p, id, target), false) && StartedDisk(k, p, id, target).live == k.live
    ensures StartedDisk(k, p, id, target).lock == Some(p) && id in StartedDisk(k, p, id, target).migrations
  {
    hide ChainOk;
  }

  /** The disk with which an undisturbed migration ends, from the disk `started`. */
  ghost function NestedEnd(d: Digest, started: Disk, p: Pid, op: Op, top: Envelope, id: nat, nested: bool,
                           ending: Ending):
    (Disk, Code)
    requires id in started.migrations
  {
    var (l, code) := Commit(d, started, p, op, top.revision, false, nested, ending);
    var v := if code == Updated then Succeeded(top.revision + 1) else Failed;
    (l.(lock := None, migrations := started.migrations[id := started.migrations[id].(result := v)]),
     if code == Updated then Migrated else Halted)
  }

  lemma NestedIsRun(d: Digest, s: System, before: seq<Event>, p: Pid, op: Op, k: Disk, top: Envelope, id: nat,
                    nested: bool, ending: Ending) returns (events: seq<Event>)
    requires Continue(d, s, before) == Now(s, p, op, k, Transforming(top, id)) && op.Migrate?
    requires Loadable(d, k, false) && k.live == Some(top) && k.lock == Some(p) && id in k.migrations
    ensures var (l, code) := NestedEnd(d, k, p, op, top, id, nested, ending); var t := Continue(d, s, events);
            t.disk == l && t.procs == s.procs[p := Proc(op, Finished(code), true)]
  {
    hide Next, Now, Continue, Commit, Loadable, Transform, OtherStarted;
    var step, pc := Step(p, true, 0), Transform(d, k, p, op, top, id, nested);
    CommitTransforms(d, k, p, op, top, id, nested, ending);
    TransformGoes(d, s, p, op, k, top, id, nested);
    events := Do(d, s, before, Step(p, nested, 0), Now(s, p, op, k, Transforming(top, id)), Now(s, p, op, k, pc));
    if pc.Terminal? {
      events := MigrationEnds(d, s, events, s, p, op, k, id, Failed);
      NowIs(s, p, op, k.(lock := None, migrations := k.migrations[id := k.migrations[id].(result := Failed)]),
            Finished(Halted));
    } else {
      var e := pc.e;
      var base := s.(crossed := s.crossed || OtherStarted(k, Some(id)));
      var l := k.(history := k.history[e.revision := e]);
      MigratePublishes(d, s, p, op, k, e, id);
      events := Do(d, s, events, step, Now(s, p, op, k, pc), Now(base, p, op, l, PublishLive(e, Some(id))));
      MigrationLive(d, base, p, op, l, e, id);
      var n := l.(live := Some(e));
      events := Do(d, s, events, step, Now(base, p, op, l, PublishLive(e, Some(id))),
                   Now(base, p, op, n, Finishing(e, Some(id))));
      var v := if ending.Complete? then Succeeded(e.revision) else Failed;
      MigrationFinishes(d, base, p, op, n, e, id, ending);
      events := Do(d, s, events, Ends(p, ending), Now(base, p, op, n, Finishing(e, Some(id))),
                   Now(base, p, op, n, Terminal(id, v)));
      events := MigrationEnds(d, s, events, base, p, op, n, id, v);
      NowIs(base, p, op, n.(lock := None, migrations := n.migrations[id := n.migrations[id].(result := v)]),
            Finished(if v.Succeeded? then Migrated else Halted));
    }
  }

  /** The specification of `migrate`, once its record is written, is the undisturbed end. */
  lemma MigrateMeets(d: Digest, k: Disk, p: Pid, op: Op, id: nat, gates: bool, nested: bool, ending: Ending)
    requires op.Migrate? && k.lock.None? && gates && Loadable(d, k, false) && id !in k.migrations
    ensures k.live.Some?
    ensures var started := StartedDisk(k.(lock := Some(p)), p, id, op.target);
            MigrateAlone(d, k, p, op, id, gates, nested, ending)
            == NestedEnd(d, started, p, op, k.live.value, id, nested, ending)
  {
    hide Commit, Loadable;
    LoadableLive(d, k, false);
    var top := k.live.value;
    var m := Migration(p, top.revision, op.target, Started);
    var unlocked := k.(migrations := k.migrations[id := m]);
    assert StartedDisk(k.(lock := Some(p)), p, id, op.target) == unlocked.(lock := Some(p));
    CommitUnlocked(d, unlocked, p, op, top.revision, false, nested, ending);
    CommitKeepsMigrations(d, unlocked, p, op, top.revision, false, nested, ending);
    assert forall v :: k.migrations[id := m][id := m.(result := v)] == k.migrations[id := m.(result := v)];
  }
}
