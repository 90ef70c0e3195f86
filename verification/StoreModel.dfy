/**
 The transactional store as a state machine over its file operations.

 Writers, migrators, recoverers and initialisers share a history directory, a live
 alias, a lock file and a migration journal. Each action below is one atomic file
 operation of one process (or a purely local decision); processes interleave freely
 and may die between any two actions.
 */
module StoreModel {
  import opened Prelude
  import opened CanonicalJson

  type Pid = nat
  type State = Json
  type Hash = string

  /** The digest of a state, and the hash that revision 1 points back to. */
  datatype Digest = Digest(of: State -> Hash, zero: Hash)

  datatype Envelope = Envelope(
    revision: nat, previousRevision: int, previousHash: Hash, state: State, stateHash: Hash, writer: Pid)

  datatype Verdict = Started | Succeeded(output: nat) | Failed | RolledBack

  datatype Migration = Migration(owner: Pid, input: nat, target: Json, result: Verdict)

  datatype Disk = Disk(
    history: map<nat, Envelope>, live: Option<Envelope>, lock: Option<Pid>, migrations: map<nat, Migration>)

  /** A mutation or transform that yields nothing was refused by validation or raised. */
  datatype Op =
    | Update(expected: nat, mutate: State -> Option<State>)
    | Migrate(target: Json, transform: State -> Option<State>)
    | Recover(stale: bool)
    | Initialize(state: State)

  datatype Code =
    | Updated | Conflict | Locked | Halted | Refused | Raised | Loaded | Initialized | Migrated | Recovered | SafetyHalt
    | IoFailure

  datatype Pc =
    | Start
    | Holding                                          // lock acquired, nothing read yet
    | Journaling(base: Envelope)                        // migrate: about to write STARTED
    | Transforming(base: Envelope, id: nat)             // migrate: STARTED is on disk
    | Publish(e: Envelope, mig: Option<nat>)        // about to write history/N+1.json
    | PublishLive(e: Envelope, mig: Option<nat>)    // about to replace live.json
    | Finishing(e: Envelope, mig: Option<nat>)      // audit and checkpoint remain
    | Terminal(id: nat, verdict: Verdict)              // migrate: about to write the terminal record
    | Checked                                          // recover: history validated, lock not yet looked at
    | Taking(owner: Pid)                               // recover: stale lock read, about to rename it
    | Acquiring                                        // recover: about to create the successor lock
    | Reading                                          // recover: lock held
    | Promoting(highest: Envelope)                     // recover: about to replace live.json
    | Settling(highest: Envelope)                      // recover: terminalising STARTED migrations
    | Releasing(code: Code)
    | Finished(code: Code)

  datatype Proc = Proc(op: Op, pc: Pc, alive: bool)

  /**
   `torn` and `crossed` are auxiliary: a stale lock was taken over while the live alias was
   behind; a migration published while another one was still marked STARTED.
   */
  datatype System = System(disk: Disk, procs: map<Pid, Proc>, torn: bool, crossed: bool)

  // ---------------------------------------------------------------- the disk

  /** The revisions 1..n. */
  ghost function Range(n: nat): (r: set<nat>)
    ensures |r| == n && forall k: nat :: k in r <==> 1 <= k <= n
  {
    if n == 0 then {} else Range(n - 1) + {n}
  }

  /** An envelope that correctly continues the history below it. */
  ghost predicate Continues(d: Digest, history: map<nat, Envelope>, e: Envelope) {
    && e.revision >= 1
    && e.previousRevision == e.revision - 1
    && e.stateHash == d.of(e.state)
    && (e.revision == 1 ==> e.previousHash == d.zero)
    && (e.revision > 1 ==> e.revision - 1 in history && e.previousHash == history[e.revision - 1].stateHash)
  }

  /** The history holds exactly the revisions 1..n, hash-linked. */
  ghost predicate ChainOk(d: Digest, history: map<nat, Envelope>) {
    && history.Keys == Range(|history|)
    && forall r <- history :: history[r].revision == r && Continues(d, history, history[r])
  }

  /** The live alias is the highest revision. */
  ghost predicate InSync(k: Disk) {
    |k.history| in k.history && k.live == Some(k.history[|k.history|])
  }

  /** Something is published, but the live alias does not show it. */
  ghost predicate Behind(k: Disk) {
    |k.history| in k.history && k.live != Some(k.history[|k.history|])
  }

  ghost predicate NoStarted(k: Disk) {
    forall id <- k.migrations :: k.migrations[id].result != Started
  }

  ghost predicate OtherStarted(k: Disk, mine: Option<nat>) {
    exists id :: id in k.migrations && Some(id) != mine && k.migrations[id].result == Started
  }

  /** What `load` accepts; `checkMigrations` is off inside `migrate`. */
  ghost predicate Loadable(d: Digest, k: Disk, checkMigrations: bool) {
    ChainOk(d, k.history) && InSync(k) && (checkMigrations ==> NoStarted(k))
  }

  function Version(s: State): Json {
    if s.Obj? && "schema_version" in s.fields then s.fields["schema_version"] else Null
  }

  /** What an operation writes on top of a state. */
  function Mutation(op: Op, s: State): Option<State> {
    match op
    case Update(_, mutate) => mutate(s)
    case Migrate(target, transform) =>
      (match transform(s)
       case Some(Obj(fields)) => Some(Obj(fields["schema_version" := target]))
       case _ => None)
    case _ => None
  }

  function NewEnvelope(d: Digest, s: State, revision: nat, writer: Pid, previousHash: Hash): Envelope {
    Envelope(revision, revision - 1, previousHash, s, d.of(s), writer)
  }

  /** How recovery settles a migration that a crash left STARTED. */
  function Settle(highest: Envelope, m: Migration): Verdict {
    if highest.revision > m.input then
      if Version(highest.state) == m.target then Succeeded(highest.revision) else Failed
    else RolledBack
  }

  // ---------------------------------------------------------------- actions

  function Goto(s: System, p: Pid, pc: Pc): System
    requires p in s.procs
  {
    s.(procs := s.procs[p := s.procs[p].(pc := pc)])
  }

  function WithDisk(s: System, k: Disk): System {
    s.(disk := k)
  }

  /** `acquire_lock`: exclusive creation of the lock file. */
  function Acquire(s: System, p: Pid, next: Pc): System
    requires p in s.procs
  {
    if s.disk.lock.None? then Goto(WithDisk(s, s.disk.(lock := Some(p))), p, next)
    else Goto(s, p, Finished(Locked))
  }

  /** `release_lock`: only the owner's own lock is removed. */
  function Release(s: System, p: Pid, code: Code): System
    requires p in s.procs
  {
    var k := if s.disk.lock == Some(p) then s.disk.(lock := None) else s.disk;
    Goto(WithDisk(s, k), p, Finished(code))
  }

  /** First action of an operation. `ok` stands for every gate outside this model. */
  ghost function Begun(d: Digest, s: System, p: Pid, ok: bool): System
    requires p in s.procs
  {
    if s.procs[p].op.Recover? then
      if ok && ChainOk(d, s.disk.history) && s.disk.history != map[] then Goto(s, p, Checked)
      else Goto(s, p, Finished(SafetyHalt))
    else Acquire(s, p, Holding)
  }

  /**
   Reading the store under the lock, and deciding what to publish. A failing gate is a finding of the
   validation or, with another `pick`, an audit record of the load that cannot be written.
   */
  ghost function Read(d: Digest, k: Disk, p: Pid, op: Op, ok: bool, pick: nat): Pc {
    match op
    case Initialize(state) =>
      if !ok then Releasing(Raised)
      else if k.live.Some? || k.history != map[] then Releasing(Loaded)
      else Publish(NewEnvelope(d, state, 1, p, d.zero), None)
    case Update(expected, mutate) =>
      if !Loadable(d, k, true) || (!ok && pick == 0) then Releasing(Halted)
      else if !ok then Releasing(IoFailure)
      else if k.live.value.revision != expected then Releasing(Conflict)
      else
        (match mutate(k.live.value.state)
         case None => Releasing(Refused)
         case Some(state) => Publish(NewEnvelope(d, state, expected + 1, p, k.live.value.stateHash), None))
    case Migrate(_, _) =>
      if !Loadable(d, k, false) || (!ok && pick == 0) then Releasing(Halted)
      else if !ok then Releasing(Raised)
      else Journaling(k.live.value)
    case Recover(_) => Releasing(Raised)
  }

  /** Writing the STARTED record under a migration id that must be new. */
  function WriteStarted(s: System, p: Pid, base: Envelope, id: nat): System
    requires p in s.procs
  {
    if id in s.disk.migrations || !s.procs[p].op.Migrate? then Goto(s, p, Releasing(Raised))
    else
      var m := Migration(p, base.revision, s.procs[p].op.target, Started);
      Goto(WithDisk(s, s.disk.(migrations := s.disk.migrations[id := m])), p, Transforming(base, id))
  }

  /** The transform and the nested update up to its publication. */
  ghost function Transform(d: Digest, k: Disk, p: Pid, op: Op, base: Envelope, id: nat, ok: bool): Pc {
    match Mutation(op, base.state)
    case None => Terminal(id, Failed)
    case Some(state) =>
      if !(ok && k.lock == Some(p) && Loadable(d, k, false)) || k.live.value.revision != base.revision
      then Terminal(id, Failed)
      else Publish(NewEnvelope(d, state, base.revision + 1, p, k.live.value.stateHash), Some(id))
  }

  /** Publishing a revision that must not exist yet. */
  ghost function WriteHistory(s: System, p: Pid, e: Envelope, mig: Option<nat>): System
    requires p in s.procs
  {
    if e.revision in s.disk.history then
      Goto(s, p, if mig.Some? then Terminal(mig.value, Failed) else Releasing(Raised))
    else
      Goto(WithDisk(s, s.disk.(history := s.disk.history[e.revision := e]))
             .(crossed := s.crossed || (mig.Some? && OtherStarted(s.disk, mig))),
           p, PublishLive(e, mig))
  }

  function WriteLive(s: System, p: Pid, e: Envelope, next: Pc): System
    requires p in s.procs
  {
    Goto(WithDisk(s, s.disk.(live := Some(e))), p, next)
  }

  /** What can follow a publication: all is well, the checkpoint is refused, or an audit record cannot be written. */
  datatype Ending = Complete | NoCheckpoint | NoAudit

  function EndingOf(ok: bool, pick: nat): Ending {
    if ok then Complete else if pick == 0 then NoCheckpoint else NoAudit
  }

  /** What `update` answers after a publication. */
  function Told(ending: Ending): Code {
    match ending
    case Complete => Updated
    case NoCheckpoint => Halted
    case NoAudit => IoFailure
  }

  /** After publication: audits and the mandatory checkpoint may still fail. */
  function Finish(s: System, p: Pid, e: Envelope, mig: Option<nat>, ending: Ending): System
    requires p in s.procs
  {
    match mig
    case Some(id) => Goto(s, p, Terminal(id, if ending.Complete? then Succeeded(e.revision) else Failed))
    case None =>
      if s.procs[p].op.Initialize? then Goto(s, p, Releasing(if ending.Complete? then Initialized else Raised))
      else Goto(s, p, Releasing(Told(ending)))
  }

  function WriteVerdict(s: System, id: nat, v: Verdict): System {
    if id in s.disk.migrations then
      WithDisk(s, s.disk.(migrations := s.disk.migrations[id := s.disk.migrations[id].(result := v)]))
    else s
  }

  /** Looking at the lock: only a stale lock of a dead owner may be taken over. */
  function Inspect(s: System, p: Pid, ok: bool): System
    requires p in s.procs
  {
    match s.disk.lock
    case None => Goto(s, p, Acquiring)
    case Some(q) =>
      if ok && s.procs[p].op.Recover? && s.procs[p].op.stale && q in s.procs && !s.procs[q].alive
      then Goto(s, p, Taking(q))
      else Goto(s, p, Finished(SafetyHalt))
  }

  /** Renaming whatever lock file is there now. */
  ghost function Take(s: System, p: Pid): System
    requires p in s.procs
  {
    if s.disk.lock.None? then Goto(s, p, Finished(Raised))
    else Goto(WithDisk(s, s.disk.(lock := None)).(torn := s.torn || Behind(s.disk)), p, Acquiring)
  }

  /** Settling one STARTED migration, or none are left: write the recovery record. */
  ghost function SettleOne(s: System, p: Pid, highest: Envelope, ok: bool, id: nat): System
    requires p in s.procs
  {
    if NoStarted(s.disk) then Goto(s, p, Releasing(if ok then Recovered else Raised))
    else if id in s.disk.migrations && s.disk.migrations[id].result == Started then
      WriteVerdict(s, id, Settle(highest, s.disk.migrations[id]))
    else s
  }

  lemma {:induction false} MaxExists(keys: set<nat>)
    requires keys != {}
    ensures exists r :: r in keys && forall k <- keys :: k <= r
  {
    var x :| x in keys;
    var rest := keys - {x};
    if rest != {} {
      MaxExists(rest);
      var r :| r in rest && forall k <- rest :: k <= r;
      var m := if x > r then x else r;
      forall k <- keys ensures k <= m {
        assert k == x || k in rest;
      }
      assert m in keys;
    } else {
      forall k <- keys ensures k <= x {
        assert k == x || k in rest;
      }
    }
  }

  /** The highest revision on disk, as the recoverer sorts file names. */
  ghost function Highest(history: map<nat, Envelope>): (r: nat)
    requires history != map[]
    ensures r in history && forall k <- history :: k <= r
  {
    assert history.Keys != {};
    MaxExists(history.Keys);
    var r :| r in history.Keys && forall k <- history.Keys :: k <= r;
    r
  }

  /** One action of a live process; `ok` and `pick` resolve what the model leaves open. */
  ghost function Act(d: Digest, s: System, p: Pid, ok: bool, pick: nat): System
    requires p in s.procs
  {
    match s.procs[p].pc
    case Start => Begun(d, s, p, ok)
    case Holding => Goto(s, p, Read(d, s.disk, p, s.procs[p].op, ok, pick))
    case Journaling(base) => WriteStarted(s, p, base, pick)
    case Transforming(base, id) => Goto(s, p, Transform(d, s.disk, p, s.procs[p].op, base, id, ok))
    case Publish(e, mig) => WriteHistory(s, p, e, mig)
    case PublishLive(e, mig) => WriteLive(s, p, e, Finishing(e, mig))
    case Finishing(e, mig) => Finish(s, p, e, mig, EndingOf(ok, pick))
    case Terminal(id, v) => Goto(WriteVerdict(s, id, v), p, Releasing(if v.Succeeded? then Migrated else Halted))
    case Checked => Inspect(s, p, ok)
    case Taking(_) => Take(s, p)
    case Acquiring => Acquire(s, p, Reading)
    case Reading =>
      if s.disk.history == map[] then Goto(s, p, Releasing(SafetyHalt))
      else Goto(s, p, Promoting(s.disk.history[Highest(s.disk.history)]))
    case Promoting(e) => WriteLive(s, p, e, Settling(e)).(torn := false)
    case Settling(e) => SettleOne(s, p, e, ok, pick)
    case Releasing(code) => Release(s, p, code)
    case Finished(_) => s
  }

  datatype Event =
    | Begin(p: Pid, op: Op)
    | Step(p: Pid, ok: bool, pick: nat)
    | Crash(p: Pid)

  /** A recovery that is still under way. */
  ghost predicate Recovering(s: System, p: Pid) {
    p in s.procs && s.procs[p].alive && s.procs[p].op.Recover? && !s.procs[p].pc.Finished?
  }

  /** Process ids are fresh, and one recovery runs at a time; an event that cannot happen changes nothing. */
  ghost function Next(d: Digest, s: System, e: Event): System {
    match e
    case Begin(p, op) =>
      if p in s.procs || (op.Recover? && exists q :: Recovering(s, q)) then s
      else s.(procs := s.procs[p := Proc(op, Start, true)])
    case Step(p, ok, pick) => if p in s.procs && s.procs[p].alive then Act(d, s, p, ok, pick) else s
    case Crash(p) => if p in s.procs then s.(procs := s.procs[p := s.procs[p].(alive := false)]) else s
  }

  const EMPTY := System(Disk(map[], None, None, map[]), map[], false, false)

  ghost function Run(d: Digest, events: seq<Event>): System {
    if events == [] then EMPTY else Next(d, Run(d, events[..|events| - 1]), events[|events| - 1])
  }

  // ---------------------------------------------------------------- invariants

  predicate Critical(pc: Pc) {
    !pc.Start? && !pc.Checked? && !pc.Taking? && !pc.Acquiring? && !pc.Finished?
  }

  /** The process may have published already. */
  predicate Past(pc: Pc) {
    pc.PublishLive? || pc.Finishing? || pc.Terminal? || pc.Releasing? || pc.Finished?
  }

  /** The migration record a process is working on. */
  function Working(pc: Pc): Option<nat> {
    match pc
    case Transforming(_, id) => Some(id)
    case Publish(_, mig) => mig
    case PublishLive(_, mig) => mig
    case Finishing(_, mig) => mig
    case Terminal(id, _) => Some(id)
    case _ => None
  }

  /** `acquire_lock` gives exclusion: a live process in its critical section owns the lock. */
  ghost predicate LockOk(s: System) {
    && (forall p <- s.procs :: s.procs[p].alive && Critical(s.procs[p].pc) ==> s.disk.lock == Some(p))
    && (s.disk.lock.Some? ==> s.disk.lock.value in s.procs && Critical(s.procs[s.disk.lock.value].pc))
    && (forall p <- s.procs :: s.procs[p].alive && s.procs[p].pc.Taking? ==>
          var q := s.procs[p].pc.owner;
          s.disk.lock == Some(q) && q in s.procs && !s.procs[q].alive)
    && (forall p, q :: Recovering(s, p) && Recovering(s, q) ==> p == q)
    && (forall p <- s.procs ::
        s.procs[p].pc.Checked? || s.procs[p].pc.Taking? || s.procs[p].pc.Acquiring? ==> s.procs[p].op.Recover?)
  }

  ghost predicate Mine(k: Disk, p: Pid, id: nat, input: nat) {
    id in k.migrations && k.migrations[id].owner == p && k.migrations[id].result == Started
    && k.migrations[id].input == input
  }

  /** What the lock owner knows about the disk at each point of its operation. */
  ghost predicate Knows(d: Digest, k: Disk, p: Pid, op: Op, pc: Pc) {
    var n := |k.history|;
    match pc
    case Holding => !op.Recover?
    case Journaling(base) => op.Migrate? && InSync(k) && base == k.history[n]
    case Transforming(base, id) => op.Migrate? && InSync(k) && base == k.history[n] && Mine(k, p, id, n)
    case Publish(e, mig) =>
      && e.revision == n + 1 && Continues(d, k.history, e) && e.writer == p
      && (if n == 0 then k.live.None? && op.Initialize? && e.state == op.state
          else InSync(k) && !op.Initialize? && Mutation(op, k.history[n].state) == Some(e.state))
      && (op.Update? ==> op.expected == n && NoStarted(k))
      && (if mig.Some? then op.Migrate? && Mine(k, p, mig.value, n) else !op.Migrate?)
    case PublishLive(e, mig) =>
      && n >= 1 && n in k.history && k.history[n] == e && e.writer == p
      && (if n == 1 then k.live.None? else n - 1 in k.history && k.live == Some(k.history[n - 1]))
      && !op.Recover? && (op.Update? ==> op.expected == n - 1)
      && (if mig.Some? then op.Migrate? && Mine(k, p, mig.value, n - 1) else !op.Migrate?)
    case Finishing(e, mig) =>
      && InSync(k) && k.history[n] == e && e.writer == p
      && !op.Recover? && (op.Update? ==> op.expected == n - 1)
      && (if mig.Some? then op.Migrate? && Mine(k, p, mig.value, n - 1) else !op.Migrate?)
    case Terminal(id, v) =>
      && op.Migrate? && InSync(k) && (Mine(k, p, id, n) || Mine(k, p, id, n - 1))
      && (v == Failed || v.Succeeded?)
      && (v.Succeeded? ==> v.output == n && k.history[n].writer == p)
    case Reading => op.Recover?
    case Promoting(e) => op.Recover? && n in k.history && e == k.history[n]
    case Settling(e) => op.Recover? && InSync(k) && e == k.history[n]
    case Releasing(code) => code == Recovered ==> op.Recover? && InSync(k) && NoStarted(k)
    case _ => false
  }

  ghost predicate OwnerOk(d: Digest, s: System) {
    s.disk.lock.Some? ==>
      var p := s.disk.lock.value;
      p in s.procs && Knows(d, s.disk, p, s.procs[p].op, s.procs[p].pc)
  }

  /** The live alias is missing, highest or second-highest; it lags only inside a publication or when torn. */
  ghost predicate LiveOk(s: System) {
    var k := s.disk;
    var n := |k.history|;
    && (k.live.None? ==> n <= 1)
    && (k.live.Some? ==>
          n in k.history && (k.live.value == k.history[n] || (n - 1 in k.history && k.live.value == k.history[n - 1])))
    && (Behind(k) ==> s.torn || (k.lock.Some? && k.lock.value in s.procs && s.procs[k.lock.value].pc.PublishLive?))
    && (s.torn ==> Behind(k) && !(k.lock.Some? && k.lock.value in s.procs && s.procs[k.lock.value].pc.PublishLive?))
  }

  /** Revision `r` is what its writer's operation makes of revision `r - 1`. */
  ghost predicate Written(s: System, r: nat)
    requires r in s.disk.history
  {
    var e := s.disk.history[r];
    && e.writer in s.procs && Past(s.procs[e.writer].pc)
    && var op := s.procs[e.writer].op;
    && (r == 1 ==> op.Initialize? && e.state == op.state)
    && (r != 1 ==> r - 1 in s.disk.history && Mutation(op, s.disk.history[r - 1].state) == Some(e.state)
                   && (op.Update? ==> op.expected == r - 1))
  }

  ghost predicate Lineage(s: System) {
    && (forall r <- s.disk.history :: Written(s, r))
    && WritersDistinct(s.disk.history)
  }

  /** No process publishes twice. */
  ghost predicate WritersDistinct(h: map<nat, Envelope>) {
    forall r, q :: r in h && q in h && h[r].writer == h[q].writer ==> r == q
  }

  /** An UPDATED outcome owns the revision after the one it expected. */
  ghost predicate Owns(s: System, p: Pid, expected: nat) {
    expected + 1 in s.disk.history && s.disk.history[expected + 1].writer == p
  }

  predicate Says(pc: Pc, code: Code) {
    pc == Releasing(code) || pc == Finished(code)
  }

  ghost predicate OutcomeOk(s: System) {
    forall p <- s.procs :: Says(s.procs[p].pc, Updated) ==>
      s.procs[p].op.Update? && Owns(s, p, s.procs[p].op.expected)
  }

  ghost predicate StartedOk(s: System, id: nat)
    requires id in s.disk.migrations
  {
    var m, h := s.disk.migrations[id], s.disk.history;
    && m.owner in s.procs && s.procs[m.owner].op.Migrate? && s.procs[m.owner].op.target == m.target
    && m.input in h
    && (s.procs[m.owner].alive ==> Working(s.procs[m.owner].pc) == Some(id))
    && (forall r <- h :: h[r].writer == m.owner ==> r == m.input + 1)
    && (!s.crossed ==> |h| <= m.input + 1 && (m.input + 1 in h ==> h[m.input + 1].writer == m.owner))
  }

  ghost predicate MigrationsOk(s: System) {
    forall id <- s.disk.migrations :: s.disk.migrations[id].result == Started ==> StartedOk(s, id)
  }

  ghost predicate Inv(d: Digest, s: System) {
    && ChainOk(d, s.disk.history)
    && LockOk(s)
    && OwnerOk(d, s)
    && LiveOk(s)
    && Lineage(s)
    && OutcomeOk(s)
    && MigrationsOk(s)
  }

  // ---------------------------------------------------------------- preservation: moves without a file operation

  /** The moves of a live process that touch no file, and what makes them harmless. */
  ghost predicate Harmless(d: Digest, s: System, p: Pid, pc: Pc) {
    && p in s.procs && s.procs[p].alive
    && var was := s.procs[p].pc;
    && Critical(was) == Critical(pc) && !was.Finished? && !was.PublishLive? && !pc.PublishLive?
    && (Critical(pc) ==> Knows(d, s.disk, p, s.procs[p].op, pc))
    && (Past(was) ==> Past(pc))
    && (Working(was).Some? ==> Working(pc) == Working(was) || Settled(s, Working(was).value))
    && (Says(pc, Updated) ==> s.procs[p].op.Update? && Owns(s, p, s.procs[p].op.expected))
    && (pc.Checked? || pc.Taking? || pc.Acquiring? ==> s.procs[p].op.Recover?)
    && (pc.Taking? ==> s.disk.lock == Some(pc.owner) && pc.owner in s.procs && !s.procs[pc.owner].alive)
  }

  ghost predicate Settled(s: System, id: nat) {
    id in s.disk.migrations && s.disk.migrations[id].result != Started
  }

  lemma MoveLock(d: Digest, s: System, p: Pid, pc: Pc)
    requires LockOk(s) && Harmless(d, s, p, pc)
    ensures LockOk(Goto(s, p, pc))
  {
    hide Knows, Owns, Past, Working, Settled;
    var t := Goto(s, p, pc);
    assert forall q :: Recovering(t, q) ==> Recovering(s, q);
  }

  /** `t` differs from `s` in the program counter of one live process, and perhaps on disk. */
  ghost predicate Steps(s: System, t: System, p: Pid, pc: Pc) {
    p in s.procs && s.procs[p].alive && t.procs == s.procs[p := s.procs[p].(pc := pc)]
  }

  lemma FrameHistory(s: System, t: System, p: Pid, pc: Pc)
    requires Lineage(s) && OutcomeOk(s) && Steps(s, t, p, pc) && t.disk.history == s.disk.history
    requires Past(s.procs[p].pc) ==> Past(pc)
    requires Says(pc, Updated) ==> s.procs[p].op.Update? && Owns(s, p, s.procs[p].op.expected)
    ensures Lineage(t) && OutcomeOk(t)
  {
    hide Mutation, Past, Says, Written, WritersDistinct, Steps, OutcomeOk;
    forall r <- t.disk.history ensures Written(t, r) {
      FrameWritten(s, t, p, pc, r);
    }
    FrameOutcome(s, t, p, pc);
  }

  lemma FrameWritten(s: System, t: System, p: Pid, pc: Pc, r: nat)
    requires Steps(s, t, p, pc) && t.disk.history == s.disk.history && (Past(s.procs[p].pc) ==> Past(pc))
    requires r in s.disk.history && Written(s, r)
    ensures Written(t, r)
  {
    hide Mutation, Past;
  }

  lemma FrameOutcome(s: System, t: System, p: Pid, pc: Pc)
    requires OutcomeOk(s) && Steps(s, t, p, pc) && t.disk.history == s.disk.history
    requires Says(pc, Updated) ==> s.procs[p].op.Update? && Owns(s, p, s.procs[p].op.expected)
    ensures OutcomeOk(t)
  {
    hide Says;
  }

  lemma FrameMigrations(s: System, t: System, p: Pid, pc: Pc)
    requires MigrationsOk(s) && Steps(s, t, p, pc)
    requires t.disk.history == s.disk.history && t.disk.migrations == s.disk.migrations && t.crossed == s.crossed
    requires Working(s.procs[p].pc).Some? ==>
               Working(pc) == Working(s.procs[p].pc) || Settled(s, Working(s.procs[p].pc).value)
    ensures MigrationsOk(t)
  {
    hide Working;
    forall id <- t.disk.migrations | t.disk.migrations[id].result == Started ensures StartedOk(t, id) {
      assert StartedOk(s, id);
    }
  }

  lemma Moved(d: Digest, s: System, p: Pid, pc: Pc)
    requires Inv(d, s) && Harmless(d, s, p, pc)
    ensures Inv(d, Goto(s, p, pc))
  {
    hide Knows, Lineage, OutcomeOk, MigrationsOk, ChainOk, Past, Working, Settled, Owns, Says;
    MoveLock(d, s, p, pc);
    FrameHistory(s, Goto(s, p, pc), p, pc);
    FrameMigrations(s, Goto(s, p, pc), p, pc);
    assert OwnerOk(d, Goto(s, p, pc));
    hide LockOk, OwnerOk;
    assert LiveOk(Goto(s, p, pc));
  }

  // ---------------------------------------------------------------- preservation: the lock file

  lemma StepBegun(d: Digest, s: System, p: Pid, ok: bool)
    requires Inv(d, s) && p in s.procs && s.procs[p].alive && s.procs[p].pc.Start?
    ensures Inv(d, Begun(d, s, p, ok))
  {
    hide ChainOk, OwnerOk, LiveOk, Lineage, OutcomeOk, MigrationsOk, Owns, Settled, Knows, LockOk;
    if s.procs[p].op.Recover? {
      Moved(d, s, p, Checked);
      Moved(d, s, p, Finished(SafetyHalt));
    } else {
      StepAcquire(d, s, p, Holding);
    }
  }

  lemma StepAcquire(d: Digest, s: System, p: Pid, next: Pc)
    requires Inv(d, s) && p in s.procs && s.procs[p].alive
    requires (s.procs[p].pc.Start? && next.Holding? && !s.procs[p].op.Recover?)
             || (s.procs[p].pc.Acquiring? && next.Reading?)
    ensures Inv(d, Acquire(s, p, next))
  {
    hide ChainOk, OwnerOk, LiveOk, Lineage, OutcomeOk, MigrationsOk, Owns, Settled, Knows, LockOk;
    if s.disk.lock.None? {
      Acquired(d, s, p, next);
    } else {
      Moved(d, s, p, Finished(Locked));
    }
  }

  lemma Acquired(d: Digest, s: System, p: Pid, next: Pc)
    requires Inv(d, s) && p in s.procs && s.procs[p].alive && s.disk.lock.None?
    requires (s.procs[p].pc.Start? && next.Holding? && !s.procs[p].op.Recover?)
             || (s.procs[p].pc.Acquiring? && next.Reading?)
    ensures Inv(d, Acquire(s, p, next))
  {
    hide ChainOk, OwnerOk, LiveOk, Lineage, OutcomeOk, MigrationsOk, Owns, Settled, LockOk;
    var t := Acquire(s, p, next);
    AcquiredLock(s, p, next);
    OnlyRecoverersAcquire(s, p);
    FrameHistory(s, t, p, next);
    FrameMigrations(s, t, p, next);
    assert OwnerOk(d, t) by { KnowsLittle(d, t); }
    AcquiredLive(s, t, p);
  }

  lemma KnowsLittle(d: Digest, s: System)
    requires s.disk.lock.Some? ==> s.disk.lock.value in s.procs
    requires s.disk.lock.Some? ==>
               var q := s.procs[s.disk.lock.value];
               (q.pc.Holding? && !q.op.Recover?) || (q.pc.Reading? && q.op.Recover?)
    ensures OwnerOk(d, s)
  {
  }

  lemma AcquiredLive(s: System, t: System, p: Pid)
    requires LiveOk(s) && s.disk.lock.None? && t.disk == s.disk.(lock := Some(p)) && t.torn == s.torn
    requires p in t.procs && !t.procs[p].pc.PublishLive?
    ensures LiveOk(t)
  {
  }

  lemma AcquiredLock(s: System, p: Pid, next: Pc)
    requires LockOk(s) && p in s.procs && s.procs[p].alive && s.disk.lock.None?
    requires !s.procs[p].pc.Finished? && Critical(next)
    ensures LockOk(Acquire(s, p, next))
  {
    hide Critical;
    var t := Acquire(s, p, next);
    assert forall q :: Recovering(t, q) ==> Recovering(s, q);
    CriticalNot(next);
  }

  lemma CriticalNot(pc: Pc)
    ensures Critical(pc) ==> !pc.Checked? && !pc.Taking? && !pc.Acquiring? && !pc.Start? && !pc.Finished?
  {
  }

  lemma OnlyRecoverersAcquire(s: System, p: Pid)
    requires LockOk(s) && p in s.procs
    ensures s.procs[p].pc.Acquiring? || s.procs[p].pc.Checked? ==> s.procs[p].op.Recover?
  {
  }

  lemma StepRelease(d: Digest, s: System, p: Pid, code: Code)
    requires Inv(d, s) && p in s.procs && s.procs[p].alive && s.procs[p].pc == Releasing(code)
    ensures Inv(d, Release(s, p, code))
  {
    hide ChainOk, LiveOk, Lineage, OutcomeOk, MigrationsOk, Owns, LockOk, Knows;
    var t := Release(s, p, code);
    ReleasedLock(s, p, code);
    assert Says(s.procs[p].pc, Updated) ==> s.procs[p].op.Update? && Owns(s, p, s.procs[p].op.expected) by {
      assert OutcomeOk(s);
      OutcomeOf(s, p);
    }
    FrameHistory(s, t, p, Finished(code));
    FrameMigrations(s, t, p, Finished(code));
    ReleasedLive(s, t);
  }

  lemma OutcomeOf(s: System, p: Pid)
    requires OutcomeOk(s) && p in s.procs
    ensures Says(s.procs[p].pc, Updated) ==> s.procs[p].op.Update? && Owns(s, p, s.procs[p].op.expected)
  {
  }

  lemma ReleasedLock(s: System, p: Pid, code: Code)
    requires LockOk(s) && p in s.procs && s.procs[p].alive && s.procs[p].pc == Releasing(code)
    ensures LockOk(Release(s, p, code)) && s.disk.lock == Some(p)
  {
    var t := Release(s, p, code);
    assert s.disk.lock == Some(p);
    assert forall q :: Recovering(t, q) ==> Recovering(s, q);
  }

  /** Giving up the lock outside a publication leaves the live alias as it was. */
  lemma ReleasedLive(s: System, t: System)
    requires LiveOk(s) && t.disk == s.disk.(lock := None) && t.torn == s.torn
    requires s.disk.lock.Some? && s.disk.lock.value in s.procs && !s.procs[s.disk.lock.value].pc.PublishLive?
    ensures LiveOk(t)
  {
  }

  lemma StepInspect(d: Digest, s: System, p: Pid, ok: bool)
    requires Inv(d, s) && p in s.procs && s.procs[p].alive && s.procs[p].pc.Checked?
    ensures Inv(d, Inspect(s, p, ok))
  {
    hide ChainOk, OwnerOk, LiveOk, Lineage, OutcomeOk, MigrationsOk, Owns, Settled, Knows, LockOk;
    OnlyRecoverersAcquire(s, p);
    match s.disk.lock
    case None => Moved(d, s, p, Acquiring);
    case Some(q) =>
      if ok && s.procs[p].op.stale && q in s.procs && !s.procs[q].alive {
        Moved(d, s, p, Taking(q));
      } else {
        Moved(d, s, p, Finished(SafetyHalt));
      }
  }

  lemma StepTake(d: Digest, s: System, p: Pid)
    requires Inv(d, s) && p in s.procs && s.procs[p].alive && s.procs[p].pc.Taking?
    ensures Inv(d, Take(s, p))
  {
    hide ChainOk, LiveOk, Lineage, OutcomeOk, MigrationsOk, Owns, LockOk, Knows, OwnerOk;
    var t := Take(s, p);
    TakenLock(s, p);
    FrameHistory(s, t, p, Acquiring);
    FrameMigrations(s, t, p, Acquiring);
    KnowsLittle(d, t);
    TakenLive(s, t);
  }

  lemma TakenLock(s: System, p: Pid)
    requires LockOk(s) && p in s.procs && s.procs[p].alive && s.procs[p].pc.Taking?
    ensures LockOk(Take(s, p)) && s.disk.lock.Some?
  {
    hide Behind;
    var t := Take(s, p);
    var q := s.procs[p].pc.owner;
    assert s.disk.lock == Some(q) && !s.procs[q].alive;
    assert Recovering(s, p);
    assert forall x <- s.procs :: s.procs[x].alive && s.procs[x].pc.Taking? ==> Recovering(s, x);
    assert forall x :: Recovering(t, x) ==> Recovering(s, x);
  }

  lemma TakenLive(s: System, t: System)
    requires LiveOk(s) && t.disk == s.disk.(lock := None) && t.torn == (s.torn || Behind(s.disk))
    ensures LiveOk(t)
  {
  }

  // ---------------------------------------------------------------- preservation: decisions under the lock

  /** A live process inside its critical section owns the lock and knows its part of the disk. */
  lemma OwnerKnows(d: Digest, s: System, p: Pid)
    requires Inv(d, s) && p in s.procs && s.procs[p].alive && Critical(s.procs[p].pc)
    ensures s.disk.lock == Some(p) && Knows(d, s.disk, p, s.procs[p].op, s.procs[p].pc)
  {
    hide ChainOk, LiveOk, Lineage, OutcomeOk, MigrationsOk, Knows;
  }

  /** A decision taken under the lock: it publishes nothing by itself. */
  predicate Decision(pc: Pc) {
    pc.Journaling? || pc.Publish? || pc.Terminal? || pc.Promoting? || (pc.Releasing? && pc.code != Updated)
  }

  lemma StepRead(d: Digest, s: System, p: Pid, ok: bool, pick: nat)
    requires Inv(d, s) && p in s.procs && s.procs[p].alive && s.procs[p].pc.Holding?
    ensures Inv(d, Goto(s, p, Read(d, s.disk, p, s.procs[p].op, ok, pick)))
  {
    hide ChainOk, LockOk, OwnerOk, LiveOk, Lineage, OutcomeOk, MigrationsOk, Owns, Settled, Knows, Read;
    OwnerKnows(d, s, p);
    LiveTop(s);
    HoldingMeans(d, s.disk, p, s.procs[p].op);
    ReadKnows(d, s.disk, p, s.procs[p].op, ok, pick);
    Moved(d, s, p, Read(d, s.disk, p, s.procs[p].op, ok, pick));
  }

  lemma HoldingMeans(d: Digest, k: Disk, p: Pid, op: Op)
    ensures Knows(d, k, p, op, Holding) <==> !op.Recover?
  {
  }

  lemma ReadKnows(d: Digest, k: Disk, p: Pid, op: Op, ok: bool, pick: nat)
    requires ChainOk(d, k.history) && (k.history == map[] ==> k.live.None?) && !op.Recover?
    ensures var pc := Read(d, k, p, op, ok, pick);
            Knows(d, k, p, op, pc) && Decision(pc) && !pc.Terminal?
  {
    hide Continues, Knows, ChainOk, Mutation, NoStarted;
    KnowsFailure(d, k, p, op);
    match op
    case Initialize(state) =>
      if k.history == map[] {
        FirstOver(d, k, p, state);
      }
    case Update(expected, mutate) =>
      if ok && Loadable(d, k, true) && k.live.value.revision == expected {
        ChainTop(d, k.history);
        if mutate(k.live.value.state).Some? {
          assert Mutation(op, k.live.value.state) == mutate(k.live.value.state)
            by { MutationUpdate(op, k.live.value.state); }
          PublishOver(d, k, p, op, mutate(k.live.value.state).value, None);
        }
      }
    case Migrate(_, _) =>
      if ok && Loadable(d, k, false) {
        assert Knows(d, k, p, op, Journaling(k.live.value)) by { KnowsJournaling(d, k, p, op); }
      }
  }

  lemma KnowsFailure(d: Digest, k: Disk, p: Pid, op: Op)
    ensures forall code :: code != Recovered ==> Knows(d, k, p, op, Releasing(code))
  {
  }

  lemma KnowsJournaling(d: Digest, k: Disk, p: Pid, op: Op)
    requires op.Migrate? && InSync(k)
    ensures Knows(d, k, p, op, Journaling(k.live.value))
  {
  }

  lemma MutationUpdate(op: Op, s: State)
    requires op.Update?
    ensures Mutation(op, s) == op.mutate(s)
  {
  }

  lemma FirstOver(d: Digest, k: Disk, p: Pid, state: State)
    requires k.history == map[] && k.live.None?
    ensures Knows(d, k, p, Initialize(state), Publish(NewEnvelope(d, state, 1, p, d.zero), None))
  {
  }

  /** The envelope built over an in-sync disk continues its history. */
  lemma PublishOver(d: Digest, k: Disk, p: Pid, op: Op, state: State, mig: Option<nat>)
    requires ChainOk(d, k.history) && InSync(k) && !op.Initialize? && Mutation(op, k.live.value.state) == Some(state)
    requires op.Update? ==> op.expected == |k.history| && NoStarted(k)
    requires if mig.Some? then op.Migrate? && Mine(k, p, mig.value, |k.history|) else !op.Migrate?
    ensures Knows(d, k, p, op, Publish(NewEnvelope(d, state, |k.history| + 1, p, k.live.value.stateHash), mig))
  {
    hide Mutation, Mine, NoStarted, ChainOk, Continues;
    ChainTop(d, k.history);
    NewContinues(d, k.history, p, state);
  }

  lemma NewContinues(d: Digest, history: map<nat, Envelope>, p: Pid, state: State)
    requires |history| in history && |history| > 0
    ensures Continues(d, history, NewEnvelope(d, state, |history| + 1, p, history[|history|].stateHash))
  {
  }

  lemma StepTransform(d: Digest, s: System, p: Pid, base: Envelope, id: nat, ok: bool)
    requires Inv(d, s) && p in s.procs && s.procs[p].alive && s.procs[p].pc == Transforming(base, id)
    ensures Inv(d, Goto(s, p, Transform(d, s.disk, p, s.procs[p].op, base, id, ok)))
  {
    hide ChainOk, LockOk, OwnerOk, LiveOk, Lineage, OutcomeOk, MigrationsOk, Owns, Settled, Knows, Transform;
    OwnerKnows(d, s, p);
    TransformKnows(d, s.disk, p, s.procs[p].op, base, id, ok);
    Moved(d, s, p, Transform(d, s.disk, p, s.procs[p].op, base, id, ok));
  }

  lemma TransformKnows(d: Digest, k: Disk, p: Pid, op: Op, base: Envelope, id: nat, ok: bool)
    requires ChainOk(d, k.history) && Knows(d, k, p, op, Transforming(base, id))
    ensures var pc := Transform(d, k, p, op, base, id, ok);
            Knows(d, k, p, op, pc) && Decision(pc) && Working(pc) == Some(id)
  {
    hide Knows, ChainOk, Mutation, Mine, Continues, NoStarted, NewEnvelope, InSync;
    TransformingMeans(d, k, p, op, base, id);
    TopRevision(d, k);
    if Mutation(op, base.state).Some? {
      PublishOver(d, k, p, op, Mutation(op, base.state).value, Some(id));
    }
  }

  lemma TopRevision(d: Digest, k: Disk)
    requires ChainOk(d, k.history) && InSync(k)
    ensures k.live.Some? && k.live.value.revision == |k.history|
  {
    ChainTop(d, k.history);
  }

  lemma TransformingMeans(d: Digest, k: Disk, p: Pid, op: Op, base: Envelope, id: nat)
    requires Knows(d, k, p, op, Transforming(base, id))
    ensures op.Migrate? && InSync(k) && k.live == Some(base) && Mine(k, p, id, |k.history|)
    ensures Knows(d, k, p, op, Terminal(id, Failed))
  {
    hide Mutation, Mine;
  }

  lemma ChainTop(d: Digest, history: map<nat, Envelope>)
    requires ChainOk(d, history)
    ensures history == map[] <==> |history| == 0
    ensures |history| > 0 ==> |history| in history && history[|history|].revision == |history|
    ensures |history| > 0 ==> history[|history|].stateHash == d.of(history[|history|].state)
    ensures |history| + 1 !in history
  {
    assert forall r :: r in history <==> r in Range(|history|);
  }

  lemma LiveTop(s: System)
    requires LiveOk(s)
    ensures s.disk.history == map[] ==> s.disk.live.None?
  {
  }

  lemma StepFinish(d: Digest, s: System, p: Pid, e: Envelope, mig: Option<nat>, ending: Ending)
    requires Inv(d, s) && p in s.procs && s.procs[p].alive && s.procs[p].pc == Finishing(e, mig)
    ensures Inv(d, Finish(s, p, e, mig, ending))
  {
    hide ChainOk, LockOk, OwnerOk, LiveOk, Lineage, OutcomeOk, MigrationsOk, Owns, Settled, Knows, Finish;
    OwnerKnows(d, s, p);
    FinishingMeans(d, s, p, e, mig);
    FinishGoes(s, p, e, mig, ending);
    KnowsFailure(d, s.disk, p, s.procs[p].op);
    Moved(d, s, p, Finish(s, p, e, mig, ending).procs[p].pc);
  }

  lemma FinishingMeans(d: Digest, s: System, p: Pid, e: Envelope, mig: Option<nat>)
    requires ChainOk(d, s.disk.history) && p in s.procs && Knows(d, s.disk, p, s.procs[p].op, Finishing(e, mig))
    ensures mig.Some? ==> Knows(d, s.disk, p, s.procs[p].op, Terminal(mig.value, Succeeded(e.revision)))
    ensures mig.Some? ==> Knows(d, s.disk, p, s.procs[p].op, Terminal(mig.value, Failed))
    ensures mig.None? && !s.procs[p].op.Initialize? ==> s.procs[p].op.Update? && Owns(s, p, s.procs[p].op.expected)
  {
    hide Mine, ChainOk, Knows;
    FinishingFacts(d, s.disk, p, s.procs[p].op, e, mig);
    if mig.Some? {
      KnowsTerminal(d, s.disk, p, s.procs[p].op, mig.value, Succeeded(e.revision));
      KnowsTerminal(d, s.disk, p, s.procs[p].op, mig.value, Failed);
    }
  }

  lemma FinishingFacts(d: Digest, k: Disk, p: Pid, op: Op, e: Envelope, mig: Option<nat>)
    requires ChainOk(d, k.history) && Knows(d, k, p, op, Finishing(e, mig))
    ensures InSync(k) && k.history[|k.history|] == e && e.revision == |k.history| && e.writer == p
    ensures !op.Recover? && (op.Update? ==> op.expected == |k.history| - 1)
    ensures if mig.Some? then op.Migrate? && Mine(k, p, mig.value, |k.history| - 1) else !op.Migrate?
  {
    hide Mine, ChainOk;
    ChainTop(d, k.history);
  }

  lemma KnowsTerminal(d: Digest, k: Disk, p: Pid, op: Op, id: nat, v: Verdict)
    requires op.Migrate? && InSync(k) && (Mine(k, p, id, |k.history|) || Mine(k, p, id, |k.history| - 1))
    requires v == Failed || (v == Succeeded(|k.history|) && k.history[|k.history|].writer == p)
    ensures Knows(d, k, p, op, Terminal(id, v))
  {
    hide Mine;
  }

  lemma FinishGoes(s: System, p: Pid, e: Envelope, mig: Option<nat>, ending: Ending)
    requires p in s.procs
    ensures var t := Finish(s, p, e, mig, ending);
            p in t.procs && t == Goto(s, p, t.procs[p].pc)
            && (mig.Some? ==>
                t.procs[p].pc == Terminal(mig.value, if ending.Complete? then Succeeded(e.revision) else Failed))
            && (mig.None? ==>
                t.procs[p].pc.Releasing? && t.procs[p].pc.code in {Updated, Halted, IoFailure, Initialized, Raised})
            && (mig.None? && t.procs[p].pc.code == Updated ==> !s.procs[p].op.Initialize?)
  {
  }

  lemma StepReading(d: Digest, s: System, p: Pid)
    requires Inv(d, s) && p in s.procs && s.procs[p].alive && s.procs[p].pc.Reading?
    ensures s.disk.history == map[] ==> Inv(d, Goto(s, p, Releasing(SafetyHalt)))
    ensures s.disk.history != map[] ==> Inv(d, Goto(s, p, Promoting(s.disk.history[Highest(s.disk.history)])))
  {
    hide ChainOk, LockOk, OwnerOk, LiveOk, Lineage, OutcomeOk, MigrationsOk, Owns, Settled, Knows;
    OwnerKnows(d, s, p);
    KnowsFailure(d, s.disk, p, s.procs[p].op);
    if s.disk.history == map[] {
      Moved(d, s, p, Releasing(SafetyHalt));
    } else {
      HighestTop(d, s.disk.history);
      assert Knows(d, s.disk, p, s.procs[p].op, Promoting(s.disk.history[Highest(s.disk.history)])) by {
        KnowsPromoting(d, s.disk, p, s.procs[p].op);
      }
      Moved(d, s, p, Promoting(s.disk.history[Highest(s.disk.history)]));
    }
  }

  lemma KnowsPromoting(d: Digest, k: Disk, p: Pid, op: Op)
    requires Knows(d, k, p, op, Reading) && |k.history| in k.history
    ensures Knows(d, k, p, op, Promoting(k.history[|k.history|]))
  {
  }

  /** On a chain the highest file name is the number of files. */
  lemma HighestTop(d: Digest, history: map<nat, Envelope>)
    requires ChainOk(d, history) && history != map[]
    ensures Highest(history) == |history| && |history| in history
  {
    ChainTop(d, history);
    assert Highest(history) in Range(|history|);
  }

  // ---------------------------------------------------------------- preservation: the migration journal

  lemma StepWriteStarted(d: Digest, s: System, p: Pid, base: Envelope, id: nat)
    requires Inv(d, s) && p in s.procs && s.procs[p].alive && s.procs[p].pc == Journaling(base)
    ensures Inv(d, WriteStarted(s, p, base, id))
  {
    hide ChainOk, LockOk, OwnerOk, LiveOk, Lineage, OutcomeOk, MigrationsOk, Owns, Settled, Knows;
    OwnerKnows(d, s, p);
    KnowsFailure(d, s.disk, p, s.procs[p].op);
    JournalingMeans(d, s.disk, p, s.procs[p].op, base);
    if id in s.disk.migrations {
      Moved(d, s, p, Releasing(Raised));
    } else {
      var t := WriteStarted(s, p, base, id);
      SameLock(s, t, p, Transforming(base, id));
      FrameHistory(s, t, p, Transforming(base, id));
      LiveFrame(s, t);
      assert OwnerOk(d, t) by { OwnerIs(d, t, p); StartedMine(d, s, p, base, id); }
      StartedFresh(d, s, p, base, id);
    }
  }

  lemma JournalingMeans(d: Digest, k: Disk, p: Pid, op: Op, base: Envelope)
    requires Knows(d, k, p, op, Journaling(base))
    ensures op.Migrate? && InSync(k) && base == k.history[|k.history|]
  {
  }

  lemma OwnerIs(d: Digest, s: System, p: Pid)
    requires s.disk.lock == Some(p) && p in s.procs
    ensures OwnerOk(d, s) <==> Knows(d, s.disk, p, s.procs[p].op, s.procs[p].pc)
  {
  }

  lemma StartedMine(d: Digest, s: System, p: Pid, base: Envelope, id: nat)
    requires ChainOk(d, s.disk.history) && p in s.procs && InSync(s.disk) && base == s.disk.history[|s.disk.history|]
    requires s.procs[p].op.Migrate? && id !in s.disk.migrations
    ensures var t := WriteStarted(s, p, base, id);
            Knows(d, t.disk, p, t.procs[p].op, t.procs[p].pc)
  {
    ChainTop(d, s.disk.history);
    hide ChainOk;
  }

  /** Critical to critical under the same lock. */
  lemma SameLock(s: System, t: System, p: Pid, pc: Pc)
    requires LockOk(s) && Steps(s, t, p, pc) && t.disk.lock == s.disk.lock == Some(p)
    requires Critical(s.procs[p].pc) && Critical(pc)
    ensures LockOk(t)
  {
    assert forall q :: Recovering(t, q) ==> Recovering(s, q);
  }

  lemma LiveFrame(s: System, t: System)
    requires LiveOk(s) && t.disk.history == s.disk.history && t.disk.live == s.disk.live && t.disk.lock == s.disk.lock
    requires t.torn == s.torn
    requires s.disk.lock.Some? && s.disk.lock.value in s.procs && !s.procs[s.disk.lock.value].pc.PublishLive?
    requires s.disk.lock.value in t.procs && !t.procs[s.disk.lock.value].pc.PublishLive?
    ensures LiveOk(t)
  {
  }

  /** A process that is not past its publication has published nothing. */
  lemma Unpublished(s: System, p: Pid)
    requires Lineage(s) && p in s.procs && !Past(s.procs[p].pc)
    ensures forall r <- s.disk.history :: s.disk.history[r].writer != p
  {
    hide Mutation, Past;
    forall r <- s.disk.history ensures s.disk.history[r].writer != p {
      assert Written(s, r);
    }
  }

  lemma StartedFresh(d: Digest, s: System, p: Pid, base: Envelope, id: nat)
    requires ChainOk(d, s.disk.history) && Lineage(s) && MigrationsOk(s)
    requires p in s.procs && s.procs[p].alive && s.procs[p].pc == Journaling(base) && s.procs[p].op.Migrate?
    requires InSync(s.disk) && base == s.disk.history[|s.disk.history|] && id !in s.disk.migrations
    ensures MigrationsOk(WriteStarted(s, p, base, id))
  {
    hide ChainOk, Lineage, WriteStarted;
    Unpublished(s, p);
    ChainTop(d, s.disk.history);
    StartedWrites(s, p, base, id);
    var t := WriteStarted(s, p, base, id);
    assert StartedOk(t, id);
    forall i <- t.disk.migrations | i != id && t.disk.migrations[i].result == Started ensures StartedOk(t, i) {
      OtherStartedKept(s, t, p, Transforming(base, id), i);
    }
  }

  lemma StartedWrites(s: System, p: Pid, base: Envelope, id: nat)
    requires p in s.procs && s.procs[p].op.Migrate? && id !in s.disk.migrations && s.procs[p].alive
    ensures var t := WriteStarted(s, p, base, id);
            && Steps(s, t, p, Transforming(base, id)) && t.crossed == s.crossed && t.torn == s.torn
            && var m := Migration(p, base.revision, s.procs[p].op.target, Started);
               t.disk == s.disk.(migrations := s.disk.migrations[id := m])
  {
  }

  /** A STARTED record stands while the history does and its owner keeps working on it. */
  lemma OtherStartedKept(s: System, t: System, p: Pid, pc: Pc, i: nat)
    requires MigrationsOk(s) && Steps(s, t, p, pc) && t.disk.history == s.disk.history && t.crossed == s.crossed
    requires i in s.disk.migrations && i in t.disk.migrations && t.disk.migrations[i] == s.disk.migrations[i]
    requires s.disk.migrations[i].result == Started
    requires Working(s.procs[p].pc).None? || Working(pc) == Working(s.procs[p].pc)
    ensures StartedOk(t, i)
  {
    hide Working;
    assert StartedOk(s, i);
  }

  lemma StepTerminal(d: Digest, s: System, p: Pid, id: nat, v: Verdict)
    requires Inv(d, s) && p in s.procs && s.procs[p].alive && s.procs[p].pc == Terminal(id, v)
    ensures Inv(d, Goto(WriteVerdict(s, id, v), p, Releasing(if v.Succeeded? then Migrated else Halted)))
  {
    hide ChainOk, LockOk, OwnerOk, LiveOk, Lineage, OutcomeOk, MigrationsOk, Owns, Settled, Knows, WriteVerdict;
    OwnerKnows(d, s, p);
    TerminalMeans(d, s.disk, p, s.procs[p].op, id, v);
    VerdictWrites(s, id, v);
    var pc := Releasing(if v.Succeeded? then Migrated else Halted);
    var u := WriteVerdict(s, id, v);
    var t := Goto(u, p, pc);
    KnowsFailure(d, t.disk, p, s.procs[p].op);
    SameLock(s, t, p, pc);
    FrameHistory(s, t, p, pc);
    LiveFrame(s, t);
    OwnerIs(d, t, p);
    VerdictMigrations(s, id, v);
    FrameMigrations(u, t, p, pc);
  }

  lemma TerminalMeans(d: Digest, k: Disk, p: Pid, op: Op, id: nat, v: Verdict)
    requires Knows(d, k, p, op, Terminal(id, v))
    ensures id in k.migrations && v != Started
  {
  }

  lemma VerdictWrites(s: System, id: nat, v: Verdict)
    requires id in s.disk.migrations
    ensures var t := WriteVerdict(s, id, v);
            && t.procs == s.procs && t.torn == s.torn && t.crossed == s.crossed
            && t.disk.history == s.disk.history && t.disk.live == s.disk.live && t.disk.lock == s.disk.lock
            && id in t.disk.migrations && t.disk.migrations[id].result == v
            && (v != Started ==> Settled(t, id))
  {
  }

  /** Settling a record leaves the others as they were. */
  lemma VerdictMigrations(s: System, id: nat, v: Verdict)
    requires MigrationsOk(s) && id in s.disk.migrations && v != Started
    ensures MigrationsOk(WriteVerdict(s, id, v))
  {
    var t := WriteVerdict(s, id, v);
    forall i <- t.disk.migrations | t.disk.migrations[i].result == Started ensures StartedOk(t, i) {
      assert StartedOk(s, i);
    }
  }

  lemma StepSettle(d: Digest, s: System, p: Pid, e: Envelope, ok: bool, id: nat)
    requires Inv(d, s) && p in s.procs && s.procs[p].alive && s.procs[p].pc == Settling(e)
    ensures Inv(d, SettleOne(s, p, e, ok, id))
  {
    hide ChainOk, LockOk, OwnerOk, LiveOk, Lineage, OutcomeOk;
    hide MigrationsOk, Owns, Settled, Knows, WriteVerdict, NoStarted;
    OwnerKnows(d, s, p);
    SettlingMeans(d, s.disk, p, s.procs[p].op, e);
    KnowsFailure(d, s.disk, p, s.procs[p].op);
    if NoStarted(s.disk) {
      Moved(d, s, p, Releasing(if ok then Recovered else Raised));
    } else if id in s.disk.migrations && s.disk.migrations[id].result == Started {
      var v := Settle(e, s.disk.migrations[id]);
      var t := WriteVerdict(s, id, v);
      VerdictWrites(s, id, v);
      VerdictMigrations(s, id, v);
      SettledOthers(d, s, t, p, e);
    }
  }

  lemma SettlingMeans(d: Digest, k: Disk, p: Pid, op: Op, e: Envelope)
    requires Knows(d, k, p, op, Settling(e))
    ensures NoStarted(k) ==> Knows(d, k, p, op, Releasing(Recovered))
  {
  }

  lemma SettledOthers(d: Digest, s: System, t: System, p: Pid, e: Envelope)
    requires LockOk(s) && LiveOk(s) && Lineage(s) && OutcomeOk(s) && p in s.procs && s.disk.lock == Some(p)
    requires s.procs[p].pc == Settling(e) && Knows(d, s.disk, p, s.procs[p].op, Settling(e))
    requires t.procs == s.procs && t.torn == s.torn && t.disk.history == s.disk.history && t.disk.live == s.disk.live
    requires t.disk.lock == s.disk.lock
    ensures LockOk(t) && LiveOk(t) && Lineage(t) && OutcomeOk(t) && OwnerOk(d, t)
  {
    hide LockOk, Lineage, OutcomeOk, LiveOk, OwnerOk, Knows;
    LiveFrame(s, t);
    SameHistory(s, t);
    LockSame(s, t);
    OwnerIs(d, t, p);
    SettlingSame(d, s.disk, t.disk, p, s.procs[p].op, e);
  }

  lemma SettlingSame(d: Digest, k: Disk, l: Disk, p: Pid, op: Op, e: Envelope)
    requires Knows(d, k, p, op, Settling(e)) && l.history == k.history && l.live == k.live
    ensures Knows(d, l, p, op, Settling(e))
  {
  }

  lemma SameHistory(s: System, t: System)
    requires Lineage(s) && OutcomeOk(s) && t.procs == s.procs && t.disk.history == s.disk.history
    ensures Lineage(t) && OutcomeOk(t)
  {
    hide Mutation, Past, Says;
    forall r <- t.disk.history ensures Written(t, r) {
      assert Written(s, r);
    }
  }

  lemma LockSame(s: System, t: System)
    requires LockOk(s) && t.procs == s.procs && t.disk.lock == s.disk.lock
    ensures LockOk(t)
  {
    assert forall q :: Recovering(t, q) ==> Recovering(s, q);
  }

  // ---------------------------------------------------------------- preservation: publication

  lemma PublishFacts(d: Digest, k: Disk, p: Pid, op: Op, e: Envelope, mig: Option<nat>)
    requires ChainOk(d, k.history) && Knows(d, k, p, op, Publish(e, mig))
    ensures e.revision == |k.history| + 1 && e.revision !in k.history && Continues(d, k.history, e) && e.writer == p
    ensures |k.history| == 0 ==> k.live.None? && op.Initialize? && e.state == op.state
    ensures |k.history| > 0 ==>
            InSync(k) && !op.Initialize? && Mutation(op, k.history[|k.history|].state) == Some(e.state)
    ensures !op.Recover? && (op.Update? ==> op.expected == |k.history| && NoStarted(k))
    ensures if mig.Some? then op.Migrate? && Mine(k, p, mig.value, |k.history|) else !op.Migrate?
  {
    hide Mine, NoStarted, Continues;
    ChainTop(d, k.history);
    hide ChainOk;
    RecoverWritesNothing(op);
  }

  lemma RecoverWritesNothing(op: Op)
    ensures op.Recover? ==> forall s :: Mutation(op, s).None?
  {
  }

  lemma ChainGrows(d: Digest, h: map<nat, Envelope>, e: Envelope)
    requires ChainOk(d, h) && e.revision == |h| + 1 && e.revision !in h && Continues(d, h, e)
    ensures ChainOk(d, h[e.revision := e]) && |h[e.revision := e]| == |h| + 1
  {
    var g := h[e.revision := e];
    assert g.Keys == h.Keys + {e.revision};
    assert g.Keys == Range(|h| + 1);
    forall r <- g ensures g[r].revision == r && Continues(d, g, g[r]) {
      if r in h {
        assert Continues(d, h, h[r]);
        assert r - 1 != e.revision;
      }
    }
  }

  lemma StepWriteHistory(d: Digest, s: System, p: Pid, e: Envelope, mig: Option<nat>)
    requires Inv(d, s) && p in s.procs && s.procs[p].alive && s.procs[p].pc == Publish(e, mig)
    ensures Inv(d, WriteHistory(s, p, e, mig))
  {
    hide ChainOk, LockOk, OwnerOk, LiveOk, Lineage, OutcomeOk, MigrationsOk;
    hide Knows, OtherStarted, Continues, Owns, Mine, Mutation, NoStarted;
    OwnerKnows(d, s, p);
    PublishFacts(d, s.disk, p, s.procs[p].op, e, mig);
    ChainGrows(d, s.disk.history, e);
    var t := WriteHistory(s, p, e, mig);
    SameLock(s, t, p, PublishLive(e, mig));
    OwnerIs(d, t, p);
    ChainTop(d, s.disk.history);
    KnowsPublishLive(d, s.disk, t.disk, p, s.procs[p].op, e, mig);
    PublishedLive(s, t, p);
    assert Publishes(s, t, p, e, mig);
    PublishedLineage(d, s, t, p, e, mig);
    PublishedMigrations(d, s, t, p, e, mig);
  }

  lemma KnowsPublishLive(d: Digest, k: Disk, l: Disk, p: Pid, op: Op, e: Envelope, mig: Option<nat>)
    requires e.revision == |k.history| + 1 && e.revision !in k.history && e.writer == p && !op.Recover?
    requires |k.history| == 0 ==> k.live.None?
    requires |k.history| > 0 ==> InSync(k)
    requires op.Update? ==> op.expected == |k.history|
    requires if mig.Some? then op.Migrate? && Mine(k, p, mig.value, |k.history|) else !op.Migrate?
    requires l == k.(history := k.history[e.revision := e])
    ensures Knows(d, l, p, op, PublishLive(e, mig))
  {
    assert |l.history| == |k.history| + 1;
  }

  lemma PublishedLive(s: System, t: System, p: Pid)
    requires LiveOk(s) && p in t.procs && t.procs[p].pc.PublishLive? && t.disk.lock == Some(p) && t.torn == s.torn
    requires t.disk.live == s.disk.live && |t.disk.history| == |s.disk.history| + 1
    requires |t.disk.history| in t.disk.history && |t.disk.history| !in s.disk.history
    requires forall r <- s.disk.history :: r in t.disk.history && t.disk.history[r] == s.disk.history[r]
    requires |s.disk.history| == 0 ==> s.disk.live.None?
    requires |s.disk.history| > 0 ==> InSync(s.disk)
    ensures LiveOk(t)
  {
    assert !s.torn;
  }

  /** `t` is `s` after `p` published `e`. */
  ghost predicate Publishes(s: System, t: System, p: Pid, e: Envelope, mig: Option<nat>) {
    && Steps(s, t, p, PublishLive(e, mig))
    && s.procs[p].pc == Publish(e, mig)
    && e.revision == |s.disk.history| + 1 && e.revision !in s.disk.history && e.writer == p
    && t.disk == s.disk.(history := s.disk.history[e.revision := e])
    && t.crossed == (s.crossed || (mig.Some? && OtherStarted(s.disk, mig)))
  }

  lemma PublishedLineage(d: Digest, s: System, t: System, p: Pid, e: Envelope, mig: Option<nat>)
    requires ChainOk(d, s.disk.history) && Lineage(s) && OutcomeOk(s) && Publishes(s, t, p, e, mig)
    requires |s.disk.history| == 0 ==> s.procs[p].op.Initialize? && e.state == s.procs[p].op.state
    requires |s.disk.history| > 0 ==>
               |s.disk.history| in s.disk.history
               && Mutation(s.procs[p].op, s.disk.history[|s.disk.history|].state) == Some(e.state)
    requires s.procs[p].op.Update? ==> s.procs[p].op.expected == |s.disk.history|
    ensures Lineage(t) && OutcomeOk(t)
  {
    hide Mutation, OtherStarted, ChainOk, OutcomeOk, Written, WritersDistinct, Steps;
    OutcomesKept(s, t, p, e, mig);
    PublisherIn(s, t, p, e, mig);
    assert !Past(s.procs[p].pc);
    Unpublished(s, p);
    WritersGrow(s.disk.history, e);
    forall r <- t.disk.history ensures Written(t, r) {
      if r == e.revision {
        NewWritten(s, t, p, e, mig);
      } else {
        OldWritten(s, t, p, e, mig, r);
      }
    }
  }

  lemma PublisherIn(s: System, t: System, p: Pid, e: Envelope, mig: Option<nat>)
    requires Publishes(s, t, p, e, mig)
    ensures p in s.procs && t.disk.history == s.disk.history[e.revision := e]
  {
  }

  lemma WritersGrow(h: map<nat, Envelope>, e: Envelope)
    requires WritersDistinct(h) && e.revision !in h && forall r <- h :: h[r].writer != e.writer
    ensures WritersDistinct(h[e.revision := e])
  {
  }

  lemma OldWritten(s: System, t: System, p: Pid, e: Envelope, mig: Option<nat>, r: nat)
    requires Publishes(s, t, p, e, mig) && r in s.disk.history && Written(s, r)
    ensures Written(t, r)
  {
    hide Mutation, OtherStarted;
  }

  lemma NewWritten(s: System, t: System, p: Pid, e: Envelope, mig: Option<nat>)
    requires Publishes(s, t, p, e, mig)
    requires |s.disk.history| == 0 ==> s.procs[p].op.Initialize? && e.state == s.procs[p].op.state
    requires |s.disk.history| > 0 ==>
               |s.disk.history| in s.disk.history
               && Mutation(s.procs[p].op, s.disk.history[|s.disk.history|].state) == Some(e.state)
    requires s.procs[p].op.Update? ==> s.procs[p].op.expected == |s.disk.history|
    ensures Written(t, e.revision)
  {
    hide Mutation, OtherStarted;
  }

  lemma OutcomesKept(s: System, t: System, p: Pid, e: Envelope, mig: Option<nat>)
    requires OutcomeOk(s) && Publishes(s, t, p, e, mig)
    ensures OutcomeOk(t)
  {
    hide OtherStarted;
  }

  lemma PublishedMigrations(d: Digest, s: System, t: System, p: Pid, e: Envelope, mig: Option<nat>)
    requires ChainOk(d, s.disk.history) && MigrationsOk(s) && Publishes(s, t, p, e, mig)
    requires mig.None? && |s.disk.history| > 0 ==> NoStarted(s.disk)
    requires mig.Some? ==> Mine(s.disk, p, mig.value, |s.disk.history|)
    ensures MigrationsOk(t)
  {
    hide ChainOk, StartedOk, Steps, OtherStarted;
    forall id <- t.disk.migrations | t.disk.migrations[id].result == Started ensures StartedOk(t, id) {
      assert StartedOk(s, id);
      StartedInput(s, id);
      StartedPublished(s, t, p, e, mig, id);
    }
  }

  lemma StartedInput(s: System, id: nat)
    requires id in s.disk.migrations && StartedOk(s, id)
    ensures |s.disk.history| > 0
  {
    assert s.disk.migrations[id].input in s.disk.history;
  }

  lemma StartedPublished(s: System, t: System, p: Pid, e: Envelope, mig: Option<nat>, id: nat)
    requires Publishes(s, t, p, e, mig) && mig.Some? && Mine(s.disk, p, mig.value, |s.disk.history|)
    requires id in s.disk.migrations && s.disk.migrations[id].result == Started && StartedOk(s, id)
    ensures StartedOk(t, id)
  {
    assert |t.disk.history| == |s.disk.history| + 1;
    assert mig != Some(id) ==> OtherStarted(s.disk, mig);
    hide OtherStarted;
  }

  lemma StepWriteLive(d: Digest, s: System, p: Pid, e: Envelope, mig: Option<nat>)
    requires Inv(d, s) && p in s.procs && s.procs[p].alive && s.procs[p].pc == PublishLive(e, mig)
    ensures Inv(d, WriteLive(s, p, e, Finishing(e, mig)))
  {
    hide ChainOk, LockOk, OwnerOk, LiveOk, Lineage, OutcomeOk, MigrationsOk, Knows, Owns, Mine, Settled;
    OwnerKnows(d, s, p);
    var t := WriteLive(s, p, e, Finishing(e, mig));
    SameLock(s, t, p, Finishing(e, mig));
    OwnerIs(d, t, p);
    KnowsFinishing(d, s.disk, t.disk, p, s.procs[p].op, e, mig);
    FrameHistory(s, t, p, Finishing(e, mig));
    FrameMigrations(s, t, p, Finishing(e, mig));
    PublisherNotTorn(s, p);
    Promoted(t);
  }

  lemma KnowsFinishing(d: Digest, k: Disk, l: Disk, p: Pid, op: Op, e: Envelope, mig: Option<nat>)
    requires Knows(d, k, p, op, PublishLive(e, mig)) && l == k.(live := Some(e))
    ensures Knows(d, l, p, op, Finishing(e, mig)) && InSync(l)
  {
  }

  /** Once live is the highest revision again nothing is behind. */
  lemma Promoted(t: System)
    requires InSync(t.disk) && !t.torn
    ensures LiveOk(t)
  {
  }

  /** A publication never runs on a torn store. */
  lemma PublisherNotTorn(s: System, p: Pid)
    requires LiveOk(s) && s.disk.lock == Some(p) && p in s.procs && s.procs[p].pc.PublishLive?
    ensures !s.torn
  {
  }

  lemma StepPromote(d: Digest, s: System, p: Pid, e: Envelope)
    requires Inv(d, s) && p in s.procs && s.procs[p].alive && s.procs[p].pc == Promoting(e)
    ensures Inv(d, WriteLive(s, p, e, Settling(e)).(torn := false))
  {
    hide ChainOk, LockOk, OwnerOk, LiveOk, Lineage, OutcomeOk, MigrationsOk, Knows, Owns, Mine, Settled;
    OwnerKnows(d, s, p);
    var t := WriteLive(s, p, e, Settling(e)).(torn := false);
    SameLock(s, t, p, Settling(e));
    OwnerIs(d, t, p);
    KnowsSettling(d, s.disk, t.disk, p, s.procs[p].op, e);
    FrameHistory(s, t, p, Settling(e));
    FrameMigrations(s, t, p, Settling(e));
    Promoted(t);
  }

  lemma KnowsSettling(d: Digest, k: Disk, l: Disk, p: Pid, op: Op, e: Envelope)
    requires Knows(d, k, p, op, Promoting(e)) && l == k.(live := Some(e))
    ensures Knows(d, l, p, op, Settling(e)) && InSync(l)
  {
  }

  // ---------------------------------------------------------------- every event

  lemma StepAct(d: Digest, s: System, p: Pid, ok: bool, pick: nat)
    requires Inv(d, s) && p in s.procs && s.procs[p].alive
    ensures Inv(d, Act(d, s, p, ok, pick))
  {
    hide Inv, Begun, Read, WriteStarted, Transform, WriteHistory, WriteLive;
    hide Finish, WriteVerdict, Inspect, Take, Acquire, SettleOne, Release;
    match s.procs[p].pc
    case Start => StepBegun(d, s, p, ok);
    case Holding => StepRead(d, s, p, ok, pick);
    case Journaling(base) => StepWriteStarted(d, s, p, base, pick);
    case Transforming(base, id) => StepTransform(d, s, p, base, id, ok);
    case Publish(e, mig) => StepWriteHistory(d, s, p, e, mig);
    case PublishLive(e, mig) => StepWriteLive(d, s, p, e, mig);
    case Finishing(e, mig) => StepFinish(d, s, p, e, mig, EndingOf(ok, pick));
    case Terminal(id, v) => StepTerminal(d, s, p, id, v);
    case Checked => StepInspect(d, s, p, ok);
    case Taking(_) => StepTake(d, s, p);
    case Acquiring => StepAcquire(d, s, p, Reading);
    case Reading => StepReading(d, s, p);
    case Promoting(e) => StepPromote(d, s, p, e);
    case Settling(e) => StepSettle(d, s, p, e, ok, pick);
    case Releasing(code) => StepRelease(d, s, p, code);
    case Finished(_) =>
  }

  /** Processes begin or die; nothing else changes. */
  ghost predicate Alike(s: System, t: System) {
    && t.disk == s.disk && t.torn == s.torn && t.crossed == s.crossed
    && (forall q <- s.procs :: q in t.procs && t.procs[q].op == s.procs[q].op && t.procs[q].pc == s.procs[q].pc
                               && (t.procs[q].alive ==> s.procs[q].alive))
    && (forall q <- t.procs :: q in s.procs || t.procs[q].pc == Start)
  }

  lemma AlikeRest(d: Digest, s: System, t: System)
    requires Inv(d, s) && Alike(s, t)
    ensures OwnerOk(d, t) && LiveOk(t) && Lineage(t) && OutcomeOk(t) && MigrationsOk(t)
  {
    hide OwnerOk, LiveOk, Lineage, OutcomeOk, MigrationsOk, LockOk, Alike, ChainOk;
    AlikeOwner(d, s, t);
    AlikeOutcome(s, t);
    AlikeLineage(s, t);
    AlikeMigrations(s, t);
  }

  lemma AlikeOwner(d: Digest, s: System, t: System)
    requires OwnerOk(d, s) && LockOk(s) && LiveOk(s) && Alike(s, t)
    ensures OwnerOk(d, t) && LiveOk(t)
  {
    hide Knows;
  }

  lemma AlikeOutcome(s: System, t: System)
    requires OutcomeOk(s) && Alike(s, t)
    ensures OutcomeOk(t)
  {
  }

  lemma AlikeLineage(s: System, t: System)
    requires Lineage(s) && Alike(s, t)
    ensures Lineage(t)
  {
    hide Mutation, WritersDistinct, Past;
    forall r <- t.disk.history ensures Written(t, r) {
      assert Written(s, r);
    }
  }

  lemma AlikeMigrations(s: System, t: System)
    requires MigrationsOk(s) && Alike(s, t)
    ensures MigrationsOk(t)
  {
    hide Working;
    forall id <- t.disk.migrations | t.disk.migrations[id].result == Started ensures StartedOk(t, id) {
      assert StartedOk(s, id);
    }
  }

  lemma StepBegin(d: Digest, s: System, p: Pid, op: Op)
    requires Inv(d, s)
    ensures Inv(d, Next(d, s, Begin(p, op)))
  {
    hide ChainOk, LockOk, OwnerOk, LiveOk, OutcomeOk, MigrationsOk, Lineage, Recovering;
    var t := Next(d, s, Begin(p, op));
    if t != s {
      assert p !in s.procs && t == s.(procs := s.procs[p := Proc(op, Start, true)]);
      BegunLock(s, p, op);
      AlikeRest(d, s, t);
    }
  }

  lemma BegunLock(s: System, p: Pid, op: Op)
    requires LockOk(s) && p !in s.procs && (op.Recover? ==> forall q :: !Recovering(s, q))
    ensures LockOk(s.(procs := s.procs[p := Proc(op, Start, true)]))
  {
    var t := s.(procs := s.procs[p := Proc(op, Start, true)]);
    assert forall q :: q != p && Recovering(t, q) ==> Recovering(s, q);
  }

  lemma StepCrash(d: Digest, s: System, p: Pid)
    requires Inv(d, s)
    ensures Inv(d, Next(d, s, Crash(p)))
  {
    hide ChainOk, LockOk, OwnerOk, LiveOk, OutcomeOk, MigrationsOk, Lineage;
    if p in s.procs {
      CrashedLock(s, p);
      AlikeRest(d, s, Next(d, s, Crash(p)));
    }
  }

  lemma CrashedLock(s: System, p: Pid)
    requires LockOk(s) && p in s.procs
    ensures LockOk(s.(procs := s.procs[p := s.procs[p].(alive := false)]))
  {
    var t := s.(procs := s.procs[p := s.procs[p].(alive := false)]);
    assert forall q :: Recovering(t, q) ==> Recovering(s, q);
  }

  /** The invariants hold in every run: any processes, any interleaving, crashes anywhere. */
  lemma {:induction false} EveryRunInv(d: Digest, events: seq<Event>)
    ensures Inv(d, Run(d, events))
  {
    hide Inv, Next, Act;
    if events == [] {
      EmptyInv(d);
    } else {
      EveryRunInv(d, events[..|events| - 1]);
      NextInv(d, Run(d, events[..|events| - 1]), events[|events| - 1]);
    }
  }

  lemma NextInv(d: Digest, s: System, e: Event)
    requires Inv(d, s)
    ensures Inv(d, Next(d, s, e))
  {
    hide Inv, Act;
    match e
    case Begin(p, op) => StepBegin(d, s, p, op);
    case Step(p, ok, pick) =>
      if p in s.procs && s.procs[p].alive {
        StepAct(d, s, p, ok, pick);
      }
    case Crash(p) => StepCrash(d, s, p);
  }

  lemma EmptyInv(d: Digest)
    ensures Inv(d, EMPTY)
  {
  }
}
