# Verified model of the orchestrator

This project models the parts of the orchestrator whose correctness does not show in any single
function body, and proves what they guarantee. `dafny verify dfyconfig.toml` checks it.

| modules | what they model |
|---|---|
| `StoreModel`, `StoreSafety`, `StoreRecovery`, `StoreWitness`, `StoreOutcomes`, `StoreFate`, `ProjectStore` | the transactional store: lock file, hash-chained history, live alias, migration journal, recovery |
| `Integers`, `ChaCha20`, `Poly1305`, `Aead`, `TransportHeader` | ChaCha20-Poly1305 (RFC 8439) and the envelope header it binds |
| `CanonicalJson`, `Utf8`, `Order` | the canonical encoding that every hash rests on |
| `Acp`, `AcpWire`, `Text` | ACP wire text |
| `Journal`, `KeyStore` | hash-chained journals and the key service built on them |
| `MissionSpec`, `Graph`, `MissionDriver`, `MissionRestart` | mission parsing, the cycle check, the driver loop and its attempt table, deaths and restarts |
| `Execution`, `ExecutionRuns`, `Milestones`, `MilestoneRuns`, `TeamPhases` | assignments, sessions, scheduling, the milestone barrier, and the phases a team is bound to |

## How to read the store model

`StoreModel` is a state machine. One action of a process is one atomic file operation (exclusive
creation or removal of the lock, one rename, one record) or a decision taken under the lock. A run
is any list of events: a process begins an operation, takes its next action, or dies. Its
assumptions are part of the definitions:

- process ids, and with them lock ids, are unique;
- the liveness check answers False only for a dead owner (`Inspect`);
- one recovery runs at a time (`Next`), since inspecting a stale lock and renaming it are two steps;
- gates outside the model (evidence, contracts, audits, checkpoints, lease expiry) may fail at any
  moment (`ok`).

`torn` and `crossed` are auxiliary variables that no action reads. They record the two situations in
which a promise of the protocol fails, and `TornExactly` and `CrossedExactly` say when they arise.
`ProjectStore` is the same store as a class whose methods run alone; `UpdateIsRun`, `MigrateIsRun` and
`RecoverIsRun` tie it to the machine.

No theorem assumes that a hash is injective on everything. `LastHashDetermines` assumes that no two
records of the two journals at hand collide.

## What the proofs found

- **A store wedged before its first revision.** Recovery can succeed exactly when something has been
  published (`RecoveryExactly`), because it validates before it looks at the lock and validation reports
  a missing history. A process that dies with the lock on an empty store, in `initialize`, `update` or
  `migrate` (`WedgeReachable`), therefore leaves a store that nothing in the program can open again
  (`WedgedForever`). With a free lock initialisation still works (`InitializationExactly`).
- **Free lock, stale alias.** Between the rename of a stale lock and the promotion of the highest
  revision the lock is free while `live.json` lags. If the recoverer dies there, this state lasts until
  the next recovery (`TornReachable`); nothing else causes it (`TornExactly`), meanwhile every update
  halts (`TornPublishesNothing`), and no published revision is lost (`RevisionsStay`).
- **Migration verdicts.** `migrate` loads with the migration check off. A second migration can
  therefore publish while a crash-left record is STARTED, and recovery then marks the first one
  SUCCEEDED although it published nothing (`WrongVerdictReachable`, `VerdictExact`). With a single
  migration every verdict is right (`SingleMigrationVerdict`), and a verdict recorded before migrations crossed stays right for good
  (`RecordedVerdicts`).
- **Outcomes.** HALTED and IO_FAILURE of an update say nothing about publication (`BothWays`): a load
  that fails answers them before it, a checkpoint or an audit record that fails after it. Every other
  outcome tells the truth (`UpdateOutcomes`, for all operations `EveryTells`).
- **Cancelling a paused mission.** `cancel` accepts it, but the store's transition table has no row for
  INTERRUPTED, so a paused mission cannot be cancelled (`CancelNeedsActive`).
- **Pausing.** Pending work comes back READY from a pause, so readiness alone does not imply completed
  dependencies (`PauseBreaksOrder`). A pause is harmless exactly when no pending assignment of the
  mission waits for a dependency (`PauseResumeExactly`, over runs `OrderlyExactly` and, looking at
  resumptions instead, `GroundedExactly`), on runs without fail and cancel when none is pending at all
  (`PauseHarmlessExactly`). Dispatching only what `schedule()` answered keeps the order in any case
  (`ScheduledRuns`).
- **Milestones.** When every milestone is passed while the cursor still names one, `schedule()`
  answers RECOVERY_REQUIRED (`MismatchExactly`). It answers NO_WORK although work is ready exactly when
  all of it lies outside the computed milestone (`IdleExactly`), that is, in skipped or later ones
  (`UnfinishedElsewhere`). When work depends on work of a later milestone both are stuck for good
  (`IdleWitness`, `StuckForever`). A mission can be finished exactly when its needs form no cycle and
  never lead backwards, and its work lies in open milestones (`FinishableExactly`); binding a team
  whose dependencies form no cycle makes such milestones (`SettlePhases`, `BoundFinishes`).
- **Attempts.** Executor and verifier leave separate records, and reconciliation compares the number of
  records with the maximum, the loop the attempt count. A restart gives up with attempts left exactly
  when count < max <= records, and goes on with none left exactly when records < max <= count
  (`ReconcileExact`). So one death can buy an attempt beyond the maximum (`OneDeathOverruns`,
  `OverrunsFromZero`), each further death one more (`AttemptsBounded`), without limit
  (`AttemptsUnbounded`). A used-up count still launches once (`ExecuteTaskWithRetry`).
- **Cycle check.** It also answers False for repeated ids (`CheckCycles`).
- **Rotation.** The old key is retired before the new one is created, and stays retired when creation
  fails (`RotateSound`).

## Model

| member | source | states |
|---|---|---|
| `StoreModel.EveryRunInv` | src/asc_orchestrator/pese.py:516-640 | One invariant holds in every interleaving of update, migrate, recover and initialize with crashes anywhere: chained history, exclusive lock, what the lock owner knows about the disk at each point, where live may lag, which operation wrote each revision, what UPDATED owns, and what a STARTED record implies |
| `StoreSafety.Safety` | src/asc_orchestrator/pese.py:516-640 | At every point of every run the history is exactly 1..n and hash-linked, at most one live process is inside its critical section and owns the lock, the live alias is absent, highest or second-highest, and while the lock is free it is the highest revision exactly when the store is not torn by a takeover |
| `StoreSafety.TornExactly` | src/asc_orchestrator/pese.py:972-994 | The store becomes torn only when a stale lock is renamed away whose dead owner had published history but not live, and is mended only by a recovery's promotion |
| `StoreSafety.TornPublishesNothing` | src/asc_orchestrator/pese.py:471-480 | While the store is torn no event publishes anything: every writer's load finds live behind and halts |
| `StoreSafety.RevisionsStay` | src/asc_orchestrator/pese.py:585-590 | No published revision is dropped or rewritten by anything that happens later in a run, recovery included |
| `StoreSafety.NoLostUpdate` | src/asc_orchestrator/pese.py:549-604 | Each UPDATED outcome for expected revision e owns revision e+1, which is its mutation applied to revision e; two updates with the same e never both succeed; live is the fold of all published operations in revision order |
| `StoreSafety.MigrationRevisions` | src/asc_orchestrator/pese.py:1118-1124 | In every run a revision published by a migration is what its transform makes of the revision before, every field of it, with schema_version set to the target |
| `StoreSafety.VerdictExact` | src/asc_orchestrator/pese.py:2328-2367 | Recovery's verdict on a crash-left STARTED migration is the right one (SUCCEEDED with its own revision if published, ROLLED_BACK if not) exactly when nobody else has published since it started, and always unless migrations crossed |
| `StoreSafety.StatusExact` | src/asc_orchestrator/pese.py:2328-2367 | Leaving the output revision aside: recovery marks a STARTED migration SUCCEEDED exactly if its own revision was published and ROLLED_BACK exactly if not, if and only if the highest revision is at its target version (published) or nothing was published since it started (not published) |
| `StoreSafety.CrossedExactly` | src/asc_orchestrator/pese.py:1058-1135 | Migrations have crossed exactly when they had before or the event publishes a migration while another one is marked STARTED |
| `StoreSafety.OneMigration` | src/asc_orchestrator/pese.py:1046-1135 | In a run in which at most one migration begins no migration ever crosses another |
| `StoreSafety.SingleMigrationVerdict` | src/asc_orchestrator/pese.py:2328-2367 | In such a run recovery's verdict on the migration's record is right at every point |
| `StoreSafety.RecoveredMeans` | src/asc_orchestrator/pese.py:1009-1044 | A recovery about to report RECOVERED holds the lock, live is the highest revision and no migration is STARTED |
| `StoreOutcomes.EveryTells` | src/asc_orchestrator/pese.py:516-640 | At every point of every run each process past its publication has published, each before it has not, every outcome is one that its operation has, and every clear outcome of update, migrate, initialise and recover claims a publication exactly when there is one |
| `StoreOutcomes.PublishedExactly` | src/asc_orchestrator/pese.py:585-590 | A process owns a revision exactly when it passed its publication at some point of the run |
| `StoreOutcomes.UpdateOutcomes` | src/asc_orchestrator/pese.py:549-638 | Over all runs: UPDATED owns exactly the expected revision plus one; HALTED and IO_FAILURE own it exactly when the publication was passed; after any other outcome the update owns nothing |
| `StoreOutcomes.BothWays` | src/asc_orchestrator/pese.py:612-638 | From every reachable healthy state HALTED and IO_FAILURE are each answered with and without a publication |
| `StoreOutcomes.RecordedVerdicts` | src/asc_orchestrator/pese.py:2328-2367 | A verdict recorded before any migrations crossed is final, and right at every later point: SUCCEEDED names a revision of its owner, the owner of a ROLLED_BACK record never publishes |
| `StoreOutcomes.LockLeaves` | src/asc_orchestrator/pese.py:929-994 | In every run a lock leaves its owner only by the owner's own release or by a recovery that was told to take over stale locks while the owner is dead |
| `StoreRecovery.RecoveryCompletes` | src/asc_orchestrator/pese.py:956-1044 | From every crash point at which something is published, once nobody else runs, a recovery can run to the end: RECOVERED, history unchanged, live highest, every STARTED record settled, lock free, store not torn (the constructive half of RecoveryExactly) |
| `StoreRecovery.RecoverTwice` | src/asc_orchestrator/pese.py:1009-1044 | Recovering a recovered disk changes nothing |
| `StoreFate.RecoveryExactly` | src/asc_orchestrator/pese.py:956-1044 | From every crash point of every run, once nobody else runs, a recovery can report RECOVERED if and only if something has been published; whenever it does, the disk is the recovered disk, and on an empty history it never changes anything |
| `StoreFate.WedgedForever` | src/asc_orchestrator/pese.py:870-902 | A store left without history under the lock of a dead process keeps its disk in every continuation, and every process that begins later is told LOCKED or, recovering, SAFETY_HALT |
| `StoreFate.WedgeReachable` | src/asc_orchestrator/pese.py:276-299 | Initialise, update and migrate each reach such a store from the empty one by dying right after they took the lock |
| `StoreFate.InitializationExactly` | src/asc_orchestrator/pese.py:276-299 | On an empty store at rest an initialisation can succeed if and only if no dead process owns the lock |
| `StoreWitness.InitializeCompletes` | src/asc_orchestrator/pese.py:276-299 | From every reachable state with nothing published and a free lock an undisturbed initialisation leaves revision 1, live, with the lock free |
| `StoreWitness.UpdateCompletes` | src/asc_orchestrator/pese.py:549-640 | From every reachable healthy state an undisturbed update publishes its mutation as the next revision, whether it then answers UPDATED, HALTED for a refused checkpoint or IO_FAILURE for a missing audit record |
| `StoreWitness.TornReachable` | src/asc_orchestrator/pese.py:972-1014 | From every reachable healthy state two crashes lead to a free lock with live behind the history |
| `StoreWitness.WrongVerdictReachable` | src/asc_orchestrator/pese.py:1055-1116 | From every reachable healthy state two migrations and two crashes lead to a STARTED record that recovery would mark SUCCEEDED although its owner published nothing |
| `ProjectStore.Store.AcquireLock` | src/asc_orchestrator/pese.py:870-902 | The lock is created exactly if it was absent |
| `ProjectStore.Store.ReleaseLock` | src/asc_orchestrator/pese.py:929-945 | Only the owner's lock is removed |
| `ProjectStore.Store.ValidateHistory` | src/asc_orchestrator/pese.py:449-470 | The loop over the sorted records accepts exactly the chains 1..n |
| `ProjectStore.Store.Validate` | src/asc_orchestrator/pese.py:406-514 | Accepts exactly the stores whose history is a chain, whose live alias is the highest revision and, when asked, whose migrations are terminal |
| `ProjectStore.Store.CommitHeld` | src/asc_orchestrator/pese.py:549-640 | The body of update under a held lock, outcome and disk, for every input and failure point |
| `ProjectStore.Store.Update` | src/asc_orchestrator/pese.py:516-640 | update run alone: outcome and disk equal the specification UpdateAlone |
| `ProjectStore.Store.SettleStarted` | src/asc_orchestrator/pese.py:2328-2367 | After the loop every STARTED record is settled against the highest revision and no other record changed, in any directory order |
| `ProjectStore.Store.Recover` | src/asc_orchestrator/pese.py:947-1044 | recover run alone: outcome and disk equal RecoverAlone |
| `ProjectStore.Store.Migrate` | src/asc_orchestrator/pese.py:1046-1172 | migrate run alone: outcome and disk equal MigrateAlone |
| `ProjectStore.CommitHealthy` | src/asc_orchestrator/pese.py:549-640 | A commit on a healthy disk never finds its file taken, leaves the disk healthy whatever the outcome, and adds at most one revision, its own mutation of live |
| `ProjectStore.UpdateAnswers` | src/asc_orchestrator/pese.py:516-638 | For every disk: LOCKED, HALTED, CONFLICT or REFUSED with the disk as it was, each under its condition, otherwise the mutation of live is published and the answer is UPDATED, HALTED or IO_FAILURE by what fails behind the publication |
| `ProjectStore.MigrateTerminates` | src/asc_orchestrator/pese.py:1108-1169 | An undisturbed migration of a healthy disk publishes exactly when the nested update passes and the transform yields an object: that object, every field of it, with the target version; it answers MIGRATED exactly when nothing fails afterwards; its record is terminal and says so, and no other record is touched |
| `ProjectStore.RecoverHeals` | src/asc_orchestrator/pese.py:956-1044 | Recovery succeeds if and only if the gates pass, something is published, the history is chained and a present lock may be taken over; then the disk is healthy with the same history, each STARTED journal record is settled from the live state's revision and version as ROLLED_BACK, SUCCEEDED or FAILED, and repeating it changes nothing; otherwise it halts and changes nothing |
| `ProjectStore.UpdateIsRun` | src/asc_orchestrator/pese.py:516-640 | Every outcome of Update is reached, with the same disk, by an undisturbed process of the protocol |
| `ProjectStore.MigrateIsRun` | src/asc_orchestrator/pese.py:1046-1172 | Every outcome of Migrate is reached, with the same disk, by an undisturbed process of the protocol |
| `ProjectStore.RecoverIsRun` | src/asc_orchestrator/pese.py:947-1044 | Every outcome of Recover is reached, with the same disk, by an undisturbed recovery of the protocol |
| `Integers.Rotl32Rotates` | src/asc_orchestrator/etr.py:104-106 | On a 32-bit word the shift-or-mask expression swaps the high and low parts: bit rotation |
| `ChaCha20.QuarterInverse` | src/asc_orchestrator/etr.py:109-118 | The quarter round is a bijection on four words, with its inverse given |
| `ChaCha20.QuarterAtInverse` | src/asc_orchestrator/etr.py:109-118 | On sixteen words the quarter round is undone by its inverse and touches only its four indices |
| `ChaCha20.QuarterRound` | src/asc_orchestrator/etr.py:109-118 | The in-place quarter round equals the pure one on the array's contents |
| `ChaCha20.DoubleRoundInPlace` | src/asc_orchestrator/etr.py:137-144 | The eight in-place calls equal the pure double round |
| `ChaCha20.DoubleRoundInverse` | src/asc_orchestrator/etr.py:137-144 | A double round is a bijection on sixteen words |
| `ChaCha20.RoundsBijective` | src/asc_orchestrator/etr.py:136-144 | Any number of double rounds is a bijection on sixteen words |
| `ChaCha20.MixedStateInjective` | src/asc_orchestrator/etr.py:131-144 | The mixed state determines key, counter and nonce |
| `ChaCha20.ChaChaBlock` | src/asc_orchestrator/etr.py:121-147 | The imperative block function equals the specification, errors in the same order |
| `ChaCha20.Stream` | src/asc_orchestrator/etr.py:150-159 | Encryption keeps the length and succeeds exactly when the data is empty or key, nonce and every block counter are in range |
| `ChaCha20.ChaChaXor` | src/asc_orchestrator/etr.py:150-159 | The loop over 64-byte chunks equals the byte-wise stream specification for every length and counter |
| `ChaCha20.StreamInvolution` | src/asc_orchestrator/etr.py:150-159 | Applying the keystream twice gives the data back |
| `Poly1305.ComputePoly1305` | src/asc_orchestrator/etr.py:162-173 | The loop reduced modulo 2^130-5 at every step yields the tag of the polynomial of section 2.5 of RFC 8439 for every message length |
| `Integers.XorBits` | src/asc_orchestrator/etr.py:112-118 | Exclusive-or differs exactly where the bits of its arguments differ |
| `Integers.FromBytesAppend` | src/asc_orchestrator/etr.py:131-134 | Byte strings are read with the lowest byte first |
| `ChaCha20.StateBytes` | src/asc_orchestrator/etr.py:131-135 | Written out in little-endian words the initial state is "expand 32-byte k", the key, the counter and the nonce |
| `Poly1305.ClampClears` | src/asc_orchestrator/etr.py:166-166 | The mask clears the top four bits of bytes 3, 7, 11 and 15 and the bottom two of bytes 4, 8 and 12 of r, and nothing else |
| `Poly1305.TagSpells` | src/asc_orchestrator/etr.py:162-173 | The tag has 16 bytes and spells, lowest byte first, (the polynomial in the clamped first half of the key mod 2^130-5, plus the second half) mod 2^128 |
| `Poly1305.CoefficientsInjective` | src/asc_orchestrator/etr.py:169-171 | The coefficient list determines the message |
| `Aead.Pad16` | src/asc_orchestrator/etr.py:176-181 | Padding extends the data by zeros, fewer than 16, to a multiple of 16 |
| `Aead.ComputeTag` | src/asc_orchestrator/etr.py:184-196 | A tag exists exactly for 32-byte keys, 12-byte nonces and lengths that fit 64 bits, and the error names the first of these that is violated |
| `Aead.OpenExactlySealed` | src/asc_orchestrator/etr.py:199-215 | open(k, n, a, c, t) returns p if and only if seal(k, n, a, p) returns (c, t) |
| `Aead.SealDomain` | src/asc_orchestrator/etr.py:199-205 | Sealing succeeds exactly up to the 274877906880 plaintext bytes of section 2.8 of RFC 8439, with a well-formed key and nonce and an associated-data length that fits 64 bits |
| `Aead.SealedParts` | src/asc_orchestrator/etr.py:184-205 | A sealed pair is the plaintext under the stream from counter 1, and the Poly1305 tag, under what the stream of counter 0 makes of 32 zero bytes, of a text with the layout of section 2.8 of RFC 8439 |
| `Aead.MacDataLayout` | src/asc_orchestrator/etr.py:190-195 | The authenticated text is both texts, each padded with zeros to a multiple of 16, then both lengths in eight bytes, lowest first |
| `Aead.KeystreamSeparation` | src/asc_orchestrator/etr.py:184-205 | Ciphertext byte i is the plaintext byte xored with block 1 + i/64, while the tag is computed under the first half of the counter-0 block, and the mixed states of the two blocks differ |
| `Aead.CounterZeroApart` | src/asc_orchestrator/etr.py:184-203 | No later block of the same key and nonce has the mixed state of block 0 |
| `Aead.MacDataInjective` | src/asc_orchestrator/etr.py:190-195 | The authenticated string determines associated data and ciphertext |
| `Aead.AuthenticatedExactly` | src/asc_orchestrator/etr.py:189-196 | Two inputs give the same Poly1305 coefficients exactly when associated data and ciphertext agree |
| `TransportHeader.HeaderMeaning` | src/asc_orchestrator/etr.py:377-389 | The bound header is a JSON object with exactly the nine names, each carrying the record's value or its default |
| `TransportHeader.HeaderSpelling` | src/asc_orchestrator/etr.py:377-389 | The nine names, and the default of each where the record has no value |
| `TransportHeader.HeaderBytesExact` | src/asc_orchestrator/etr.py:377-389 | Two records have the same associated-data bytes exactly when their nine header values agree |
| `TransportHeader.EnvelopeExactlyAuthenticated` | src/asc_orchestrator/etr.py:676-677 | Two envelopes give the same MAC coefficients exactly when their nine header values and their ciphertexts agree |
| `CanonicalJson.DecodeEncode` | src/asc_orchestrator/pese.py:155-174 | A decoder undoes the encoding, string escapes and nesting included; hence the deep copy in update is the identity |
| `CanonicalJson.EncodeExact` | src/asc_orchestrator/pese.py:155-174 | Two documents have the same text exactly when they mean the same JSON value |
| `CanonicalJson.MeaningEncode` | src/asc_orchestrator/pese.py:162-169 | The text does not depend on the insertion order of objects |
| `CanonicalJson.ObjectText` | src/asc_orchestrator/pese.py:162-169 | The text of a dictionary is its keys in ascending code-point order, each quoted with its value behind a colon, commas between, braces around, and nothing else |
| `CanonicalJson.EscapeSpelling` | src/asc_orchestrator/pese.py:160-161 | Seven characters have two-character escapes, the other control characters are written as u00 with two lower-case digits, everything else stands for itself |
| `CanonicalJson.DecimalSpelling` | src/asc_orchestrator/pese.py:129-133 | Numbers are written without leading zeros |
| `CanonicalJson.CanonicalBytesExact` | src/asc_orchestrator/pese.py:118-174 | Two documents have the same canonical bytes exactly when they mean the same JSON value |
| `Utf8.EncodeInjective` | src/asc_orchestrator/pese.py:174-174 | UTF-8 encoding is injective |
| `Utf8.EncodeShape` | src/asc_orchestrator/pese.py:174-174 | Every character takes the shortest well-formed sequence, which spells its code point |
| `Order.LessIsBefore` | src/asc_orchestrator/pese.py:167-167 | The comparison is Python's: a proper prefix first, otherwise the first different character decides |
| `Order.SortForgetsOrder` | src/asc_orchestrator/pese.py:162-169 | Sorting keeps distinct keys, puts them in that ascending order, and depends only on their set |
| `MissionSpec.ParseDict` | src/asc/spec.py:48-190 | Answers the first fault in reading order, or the tasks in list order exactly when there is none |
| `MissionSpec.AcceptedOrdered` | src/asc/spec.py:115-136 | An accepted specification has distinct ids and every dependency earlier in the list |
| `MissionSpec.OrderedAcyclic` | src/asc/spec.py:206-230 | A list in dependency order has an acyclic graph, so accepted specifications always pass the cycle check |
| `MissionSpec.InsertionOrder` | src/asc/spec.py:209-210 | The dictionary keys are the task ids without repetition |
| `MissionSpec.BuildGraph` | src/asc/spec.py:209-216 | Adjacency lists and in-degrees count one edge for every listed dependency on a known task |
| `MissionSpec.AddTask` | src/asc/spec.py:212-216 | The edges of one task are entered, repeated dependencies as often as listed |
| `MissionSpec.InitialQueue` | src/asc/spec.py:219-219 | The queue starts with exactly the tasks of in-degree zero |
| `MissionSpec.Relax` | src/asc/spec.py:225-228 | Removing a task lowers its neighbours and queues exactly those that become free |
| `MissionSpec.CheckCycles` | src/asc/spec.py:206-230 | Kahn's loop terminates and answers True exactly when the ids are distinct and the dependency graph has no cycle, for every task list |
| `Graph.PredecessorsCycle` | src/asc/spec.py:222-230 | A finite non-empty set in which every node has a predecessor in the set contains a cycle |
| `MissionDriver.Driver.IncrementAttemptCount` | src/asc/state.py:646-674 | Adds one to the count of one row and returns it |
| `MissionDriver.Driver.SaveMission` | src/asc/state.py:377-421 | Saves the tasks one after another |
| `MissionDriver.SavingKeepsProgress` | src/asc/state.py:450-472 | Whatever is saved, every earlier row keeps its place, status and attempt count, and ids stay distinct |
| `MissionDriver.SavedFresh` | src/asc/state.py:473-510 | On an empty table tasks with distinct ids become pending rows in list order, with the count, maximum and verification of their definitions |
| `MissionDriver.SavingDefines` | src/asc/state.py:448-472 | Each saved id carries the definition that was saved last |
| `MissionDriver.Driver.ReconcileStaleTasks` | src/asc/driver.py:222-257 | After a restart no row is RUNNING; each such row is INTERRUPTED or FAILED by its record count, and the rest is unchanged |
| `MissionRestart.UndisturbedLife` | src/asc/driver.py:444-638 | Without a death the sequence of durable writes ends with the status, count and records that RunTask leaves |
| `MissionRestart.DeathsExactly` | src/asc/driver.py:444-601 | A first death leaves a RUNNING row with count c exactly with the records of all attempts before c, which failed, and any initial part of those of attempt c |
| `MissionRestart.ReconcileExact` | src/asc/driver.py:222-257 | After any number of deaths: the records are those of all attempts begun less those cut off; the restart gives up with attempts left exactly when count < max <= records, and goes on with none left exactly when records < max <= count |
| `MissionRestart.FirstRestartExactly` | src/asc/driver.py:222-257 | After a first death in attempt c past j of its records, the same two conditions with the records of attempts 1..c-1 plus j |
| `MissionRestart.OneDeathOverruns` | src/asc/driver.py:222-257 | One death lets some run begin an attempt beyond the last allowed one if and only if all earlier attempts fail and leave fewer records than the maximum |
| `MissionRestart.OverrunsFromZero` | src/asc/driver.py:524-550 | For a task at count zero that condition says that the executor fails on every attempt before the last allowed one |
| `MissionRestart.AttemptsBounded` | src/asc/driver.py:444-458 | In every life the count exceeds the allowed attempts by at most the number of deaths |
| `MissionRestart.AttemptsUnbounded` | src/asc/driver.py:222-257 | With enough deaths before the first record the attempts begun exceed any number, for any positive maximum |
| `MissionDriver.ReconcileGivesUpEarly` | src/asc/driver.py:233-249 | A concrete task with attempts left that reconciliation fails |
| `MissionDriver.Driver.StartAttempt` | src/asc/driver.py:445-458 | An attempt begins with a new count and status RUNNING |
| `MissionDriver.Driver.RunAttempt` | src/asc/driver.py:490-598 | One record for the executor and one more when the verifier is reached; the failing stage's exit code is answered |
| `MissionDriver.Driver.ExecuteTaskWithRetry` | src/asc/driver.py:402-638 | Stops at the first success within the bound, otherwise uses all attempts and answers the last exit code; launches, records and counts are exact; a used-up count still launches once |
| `MissionDriver.Driver.RunTask` | src/asc/driver.py:344-371 | One turn of the loop leaves the task COMPLETED exactly if an allowed attempt works, else BLOCKED |
| `MissionDriver.Driver.GetNextTask` | src/asc/driver.py:713-717 | The first ready row in table order, or none |
| `MissionDriver.Driver.Evaluate` | src/asc/dag.py:64-115 | COMPLETE exactly when there is a task and all are completed; RUNNING exactly when one runs; RUNNABLE only with a ready task; BLOCKED only without |
| `MissionDriver.Driver.Run` | src/asc/driver.py:313-394 | The re-evaluating loop terminates with a settled table: exactly the tasks whose dependencies all completed were executed, in increasing list order when the list is in dependency order, and the final status is COMPLETE exactly when all tasks (at least one) completed, otherwise BLOCKED; completed and failed count exactly the executed rows that are COMPLETED and BLOCKED |
| `MissionDriver.ParseSaveRun` | src/asc/driver.py:329-394 | Parse, save into an empty table, run: an accepted specification executes tasks in strictly increasing list order, each exactly when its dependencies all completed, leaves the rest pending, and ends COMPLETE exactly when every task (at least one) completed; a refusal means a fault; each task is COMPLETED exactly when it was executed and an allowed attempt passes executor and verifier; the reported counts are those of the completed and of the blocked tasks |
| `MissionDriver.SettledIsPass` | src/asc/driver.py:329-376 | In dependency order the settled table is the one a single left-to-right pass gives |
| `Acp.ParseMessage` | src/asc_orchestrator/acp.py:566-624 | The parsing loops equal the parsing specification on every text |
| `Acp.ParseSerialized` | src/asc_orchestrator/acp.py:546-618 | Parsing the text of a valid message gives the message back |
| `Acp.SerializeParsed` | src/asc_orchestrator/acp.py:546-618 | An accepted text is the text of a valid message |
| `Acp.WireBijection` | src/asc_orchestrator/acp.py:512-624 | serialize(m) is t if and only if parse(t) is m |
| `Acp.PayloadDetermined` | src/asc_orchestrator/acp.py:345-366 | Two valid payloads of a type are equal exactly when their field-value pairs are the same set |
| `AcpWire.AcceptedExactly` | src/asc_orchestrator/acp.py:512-624 | A text is accepted as a message, and a message printed as a text, if and only if the text is the eight header lines in their places and the payload lines, and every field obeys its rule: version, type, identities, mission, timestamp, correlation, the field list of the type, the payload domains, and the digest of the payload; a refused text is a parse error and a refused message a validation error |
| `AcpWire.DigestDecides` | src/asc_orchestrator/acp.py:534-542 | In an accepted text the PAYLOAD-SHA256 line is the digest of everything behind the eighth line break, and the text with any other single-line value there is refused |
| `AcpWire.PayloadShape` | src/asc_orchestrator/acp.py:53-215 | Each of the eighteen types carries exactly one of its one or two listed field sequences |
| `AcpWire.AgentPattern` | src/asc_orchestrator/acp.py:242-255 | Agent identities are AGENT, a lower-case kind and a version-4 UUID between colons |
| `AcpWire.InstantPattern` | src/asc_orchestrator/acp.py:258-268 | Timestamps have the shape dddd-dd-ddTdd:dd:dd.dddZ and pass the calendar check |
| `AcpWire.UuidPattern` | src/asc_orchestrator/acp.py:234-239 | Canonical version-4 UUIDs in lower case |
| `Journal.AuditJournal.VerifyChain` | src/asc_orchestrator/audit.py:189-217 | Accepts exactly the chains, answers False exactly when the first fault is a record, raises exactly when it is not |
| `Journal.ReadLastHash` | src/asc_orchestrator/audit.py:118-135 | The loop finds the hash of the last line that is not blank, or its error |
| `Journal.LastHashOfChain` | src/asc_orchestrator/audit.py:118-135 | On a chain the last-hash reader finds what the verification loop ends with |
| `Journal.AuditJournal.Append` | src/asc_orchestrator/audit.py:137-187 | Succeeds exactly for a valid direction and status on an intact journal, then extends the chain by one record with these four fields, the last entry_hash as previous_hash, and as entry_hash the digest of all other fields; otherwise the file is unchanged and the error says why |
| `Journal.LastHashDetermines` | src/asc_orchestrator/audit.py:205-217 | Two chains with the same last hash hold the same records entry by entry, if no two of their records collide under the digest |
| `Journal.EventJournal.VerifyChain` | src/asc_orchestrator/execution.py:217-228 | Accepts exactly when every non-blank line parses and the events are chained |
| `Journal.EventJournal.Append` | src/asc_orchestrator/execution.py:161-205 | Appends one event with the next number, its type and all other fields, linked to the last event and carrying its own digest, or leaves the file alone; events stay numbered 1..n |
| `Journal.NextSequenceMeans` | src/asc_orchestrator/execution.py:142-159 | The next number is one more than the last event's, where true counts as one and false as zero |
| `KeyStore.VerifyChainLast` | src/asc_orchestrator/keys.py:497-522 | The one-pass loop returns the tail of a chain and True, otherwise nothing and False, and raises on a line that is no object |
| `KeyStore.OnePassAgrees` | src/asc_orchestrator/keys.py:497-522 | It accepts exactly what separate verification accepts, with the hash a separate last-hash read finds |
| `KeyStore.KeyService.ReadStatus` | src/asc_orchestrator/keys.py:307-351 | The status of the last entry of a verified journal; otherwise, in this order, KEY_ID_INVALID, KEY_NOT_FOUND, LEDGER_BROKEN for a missing, broken or empty journal or a last entry without a status, and an unhandled exception on a line that is no object |
| `KeyStore.KeyService.RequireActive` | src/asc_orchestrator/keys.py:353-362 | Active keys of the supported type and nothing else |
| `KeyStore.KeyService.AppendStatus` | src/asc_orchestrator/keys.py:176-194 | One sealed entry is appended or the error is returned |
| `KeyStore.KeyService.CreateNew` | src/asc_orchestrator/keys.py:198-242 | State and outcome equal the specification CreateKey |
| `KeyStore.KeyService.SignBytes` | src/asc_orchestrator/keys.py:364-410 | State and outcome equal SignPayload |
| `KeyStore.KeyService.Verify` | src/asc_orchestrator/keys.py:412-435 | Outcome equals VerifySignature, and nothing changes |
| `KeyStore.KeyService.RotateActive` | src/asc_orchestrator/keys.py:437-462 | State and outcome equal RotateKey |
| `KeyStore.KeyService.RevokeActive` | src/asc_orchestrator/keys.py:464-485 | State and outcome equal RevokeKey |
| `KeyStore.CreateSound` | src/asc_orchestrator/keys.py:198-242 | Creation succeeds exactly for a new id; then this material is stored for HMAC-SHA256 with a status journal of one linked ACTIVE entry, field by field, and nothing else changes |
| `KeyStore.RetireSound` | src/asc_orchestrator/keys.py:440-485 | Retiring an active key never fails, appends exactly one linked entry with this status, reason, actor and time, and touches nothing else |
| `KeyStore.SignSound` | src/asc_orchestrator/keys.py:364-410 | Signing succeeds exactly for active keys: the signature is the HMAC of the payload under the key's material, one linked ledger entry records it field by field and its digest is returned; otherwise nothing changes |
| `KeyStore.RotateSound` | src/asc_orchestrator/keys.py:437-462 | An active old key is marked ROTATED first; then the new key is created with this material, or, if its id is taken, KEY_EXISTS is answered over the marked store |
| `KeyStore.RevokeSound` | src/asc_orchestrator/keys.py:464-485 | Revocation succeeds exactly for active keys and appends one REVOKED entry, nothing else |
| `KeyStore.EveryRun` | src/asc_orchestrator/keys.py:198-485 | In every run each status log is [ACTIVE] or [ACTIVE, ROTATED or REVOKED] and every journal is a chain; keys keep their material, journals only grow, and a retired key's journals never change again |
| `KeyStore.SignatureLife` | src/asc_orchestrator/keys.py:412-435 | A signature made in any run verifies at every later point exactly as long as its key is not retired |
| `KeyStore.VerifyAnswers` | src/asc_orchestrator/keys.py:412-435 | On any store: KEY_ID_INVALID for an unsafe id, KEY_NOT_FOUND for an unknown one, an unhandled exception when the status journal has a non-object line as its first fault; otherwise True exactly for an active key of the supported type and its own signature |
| `KeyStore.UnsafeExactly` | src/asc_orchestrator/keys.py:29-36 | An id is refused exactly when it holds two dots in a row, a slash, a backslash or a zero character |
| `KeyStore.ExtendedFails` | src/asc_orchestrator/keys.py:154-174 | An append without a known hash fails exactly when the last non-blank line carries no 64-character hash: an unhandled exception for a non-object line, else LEDGER_BROKEN |
| `Execution.State.ActivateRoots` | src/asc_orchestrator/execution.py:422-432 | Exactly the pending assignments without dependencies become ready, and the count is exact |
| `Execution.State.Sweep` | src/asc_orchestrator/execution.py:465-476 | One pass makes ready exactly what was eligible at its start, in any dictionary order |
| `Execution.State.PromoteDependents` | src/asc_orchestrator/execution.py:451-477 | The sweep-until-stable loop equals a single sweep, in any dictionary order, with an exact count |
| `Execution.State.Recompute` | src/asc_orchestrator/execution.py:435-448 | The candidates are exactly the ready assignments of the mission with completed dependencies, in ascending code-point order |
| `Execution.State.Collect` | src/asc_orchestrator/execution.py:824-831 | Exactly the mission's assignments with one of the given statuses |
| `Execution.State.StartMission` | src/asc_orchestrator/execution.py:540-592 | start equals its specification and updates exactly planned missions |
| `Execution.State.PauseMission` | src/asc_orchestrator/execution.py:804-851 | pause equals its specification and updates exactly active missions |
| `Execution.State.ResumeMission` | src/asc_orchestrator/execution.py:869-914 | resume_session equals its specification and updates exactly paused missions |
| `Execution.State.CancelMission` | src/asc_orchestrator/execution.py:932-979 | cancel, with the store's transition table, updates exactly active missions |
| `Execution.State.FinishMission` | src/asc_orchestrator/execution.py:992-1055 | complete updates exactly active missions whose assignments are all completed |
| `Execution.State.DispatchAssignment` | src/asc_orchestrator/aex.py:348-393 | READY to IN_PROGRESS, exactly for a ready assignment of the mission |
| `Execution.State.CompleteAssignment` | src/asc_orchestrator/aex.py:395-455 | IN_PROGRESS to COMPLETED, with its dependents promoted and the candidates recomputed |
| `Execution.State.FailAssignment` | src/asc_orchestrator/aex.py:510-562 | IN_PROGRESS to FAILED |
| `Execution.State.BlockAssignment` | src/asc_orchestrator/aex.py:564-616 | READY or IN_PROGRESS to BLOCKED |
| `Execution.State.UnblockAssignment` | src/asc_orchestrator/aex.py:618-667 | BLOCKED to READY |
| `Execution.ApplyEntries` | src/asc_orchestrator/execution.py:395-448 | What each of the ten operations does entry by entry: the new status of every assignment, the mission's status, and whether the candidates are computed anew |
| `ExecutionRuns.ApplyGrows` | src/asc_orchestrator/execution.py:395-419 | No operation leaves COMPLETED or changes mission, milestone or dependencies |
| `ExecutionRuns.ScheduledRuns` | src/asc_orchestrator/aws.py:389-407 | In every run that dispatches only scheduled work, pauses included, everything in progress or completed, everything scheduled and every id ever stored as a candidate has all dependencies completed |
| `ExecutionRuns.UnpausedRuns` | src/asc_orchestrator/aex.py:348-374 | Without a pause, whatever is ready, in progress, blocked or completed has all dependencies completed, for any dispatch |
| `ExecutionRuns.PauseBreaksOrder` | src/asc_orchestrator/execution.py:824-902 | From any fresh state start, pause, resume and an unscheduled dispatch put an assignment in progress whose dependency is not completed |
| `ExecutionRuns.PauseResumeExactly` | src/asc_orchestrator/execution.py:824-902 | After pause and resume readiness implies completed dependencies if and only if, before the pause, every pending assignment of the mission had its dependencies completed |
| `ExecutionRuns.PauseExactly` | src/asc_orchestrator/execution.py:824-851 | A pause keeps the order, open and interrupted work only after completed dependencies, exactly under that condition |
| `ExecutionRuns.OrderlyExactly` | src/asc_orchestrator/execution.py:804-914 | Over every run the order holds at every point if and only if every pause that takes effect meets the condition when it happens |
| `ExecutionRuns.GroundedExactly` | src/asc_orchestrator/execution.py:869-914 | Over every run readiness implies completed dependencies at every point if and only if at every resumption that takes effect the interrupted work of the mission has its dependencies completed |
| `ExecutionRuns.PauseHarmlessExactly` | src/asc_orchestrator/execution.py:824-851 | On runs without fail and cancel a pause is harmless exactly when the mission has no pending assignment |
| `ExecutionRuns.CancelNeedsActive` | src/asc_orchestrator/pese.py:2575-2620 | cancel accepts paused missions but a mission is dropped exactly when it is active, because the store's table has no row for an interrupted mission |
| `ExecutionRuns.EveryRunAtRest` | src/asc_orchestrator/execution.py:992-1043 | In every run completed work stays completed, a validating mission has only completed work, and a paused or cancelled one has nothing open |
| `ExecutionRuns.Frozen` | src/asc_orchestrator/execution.py:824-838 | While a mission is paused or cancelled no operation but its resumption changes any of its assignments |
| `ExecutionRuns.NoDeadlock` | src/asc_orchestrator/execution.py:451-477 | With acyclic dependencies inside the mission and no fail or cancel, an active unfinished mission always has a ready, in-progress or blocked assignment whose dependencies are all completed |
| `ExecutionRuns.RunOnTrack` | src/asc_orchestrator/execution.py:540-930 | In such runs no pending assignment of an active mission has all its dependencies completed |
| `Milestones.FirstStop` | src/asc_orchestrator/pese.py:2918-2947 | The index of the first milestone, in order, that is not skipped, holds work of the mission and is not passed |
| `Milestones.StopsExactly` | src/asc_orchestrator/pese.py:2922-2947 | A milestone stops the mission exactly when it is not skipped, holds work of it, and some of that work is not completed or one of its gates is not green |
| `Milestones.Barrier` | src/asc_orchestrator/pese.py:2913-2948 | A milestone is computed if and only if it is not skipped, holds work and is not passed, while every milestone before it, by order and within an order by place in the list, is skipped, holds no work of the mission or is passed; none is computed exactly when that is true of all |
| `Milestones.MilestoneForward` | src/asc_orchestrator/pese.py:2913-2948 | Over every run of operations, gates turning green and anything else the scheduler reads changing, the computed milestone never moves back |
| `Milestones.InvalidatedExactly` | src/asc_orchestrator/pese.py:2936-2947 | A gate that turns red moves it back exactly when it belongs to an earlier unskipped milestone with work of the mission |
| `Milestones.Pick` | src/asc_orchestrator/pese.py:809-847 | The candidate loop and min answer the eligible id that comes first in code-point order, whatever the dictionary order, and nothing exactly when none is eligible |
| `Milestones.AdvanceSettles` | src/asc_orchestrator/execution.py:705-733 | After a successful advance the retried plan reports no mismatch |
| `Milestones.MismatchExactly` | src/asc_orchestrator/execution.py:711-740 | With nothing else wrong, schedule answers RECOVERY_REQUIRED exactly when every milestone is passed while the cursor still points at one |
| `Milestones.AnsweredMeans` | src/asc_orchestrator/execution.py:693-802 | A READY answer is the least eligible id: ready, of the mission and of the computed milestone, all dependencies and manifest edges completed, with every milestone before it skipped, without work of the mission, or passed |
| `Milestones.ScheduleTable` | src/asc_orchestrator/execution.py:693-802 | Every answer of schedule with the board it leaves: the checks in their order, the milestone advance, then the eligible id that comes first, answered unless a manifest edge into it is unsatisfied |
| `Milestones.IdleExactly` | src/asc_orchestrator/pese.py:809-849 | schedule answers NO_WORK if and only if it reaches the candidate loop and a stop risk is open or all runnable work of the mission lies outside the computed milestone |
| `Milestones.UnfinishedElsewhere` | src/asc_orchestrator/pese.py:2913-2948 | Unfinished work outside the computed milestone lies only in skipped or later milestones |
| `Milestones.WaitsElsewhere` | src/asc_orchestrator/pese.py:809-832 | When unfinished work of a milestone cannot move, some of it waits for an unfinished assignment of another milestone |
| `Milestones.BarrierMoves` | src/asc_orchestrator/execution.py:693-802 | On runs without fail or cancel whose dependencies respect the milestones, the computed milestone holds work that can move unless all its work is completed |
| `MilestoneRuns.StuckForever` | src/asc_orchestrator/execution.py:693-802 | If an assignment needs one whose unskipped milestones all come after one of its own, neither is ever started in any run that dispatches only answered work, whatever else happens |
| `MilestoneRuns.IdleWitness` | src/asc_orchestrator/execution.py:744-754 | A started mission in which schedule answers NO_WORK although work is ready, and which never gets further |
| `MilestoneRuns.CompletableExactly` | src/asc_orchestrator/execution.py:693-802 | An assignment can be completed by dispatching only answered work if and only if it belongs to no set whose members all hold each other up; one run without fail, cancel or pause completes all of these at once |
| `MilestoneRuns.FinishableExactly` | src/asc_orchestrator/execution.py:693-802 | A mission can be finished that way if and only if its needs form no cycle, never lead from a later milestone back to an earlier one, and all its work lies in listed, unskipped milestones; then also without fail, cancel or pause |
| `MilestoneRuns.OrderableAnswers` | src/asc_orchestrator/execution.py:693-802 | In such a mission, at every point of every run without fail and cancel at which work is unfinished, none is in progress or blocked, and agents, gates, risks and checkpoint stand in no way, schedule names an assignment, and answers READY if the manifest asks for nothing beyond the dependencies |
| `TeamPhases.SettlePhases` | src/asc_orchestrator/tbe.py:808-820 | The relaxation loop ends with the least phases at or above the members' own that rise along every dependency if and only if the dependencies form no cycle, and raises exactly on an unknown assignment |
| `TeamPhases.BoundFinishes` | src/asc_orchestrator/tbe.py:836-864 | A mission bound to milestones made of such phases can always be finished by dispatching only what schedule answers |

## Left out

- StoreModel: checkpoints, audit files, evidence and contract validation, and the repository observation are gates that may fail at any moment; their own chains are not modelled. Lock leases appear only as "expired and the owner dead".
- StoreModel: reading several files under the lock is one action; under the proved exclusion no other process writes meanwhile. A migration's target version is not checked for its major number, and `renew_lock`, `reconcile_repository` and `_deep_merge` are not part of this model.
- StoreModel: I/O errors other than a missing audit record; a process that dies takes no further step.
- StoreModel: `_audit` takes a lock file of its own that nothing takes over; a death while it is held makes every later audit, and with it every later load, fail with IO_FAILURE until somebody removes the file. In the model this is a gate that fails from then on.
- ProjectStore.Store.Update: a load that fails because its audit record cannot be written; the protocol machine has it.
- ProjectStore.Store.Migrate: the checkpoint taken before a migration is one of the gates.
- CanonicalJson: floating-point numbers and lone surrogates, because their text depends on Python's `repr`; strings are Unicode scalar values.
- Aead: that a forger cannot find a tag; only what the tag binds is proved.
- Acp: bytes input that is no UTF-8, and the value domains of payload fields, which are a parameter; the calendar check of timestamps and the set of Unicode digits are parameters, a line break being assumed not to be a digit.
- Journal: the process lock and timestamps; a line is modelled as what `json.loads` makes of it.
- KeyStore: file permissions, key listing and the key-file hash; a death between the key file and its first status entry.
- MissionSpec: executor, timeout and command fields, which no dependency check reads.
- MissionDriver: git, events and commits; executor and verifier are functions of task and attempt number and return without raising.
- MissionRestart: one task by itself, called whenever its status allows it; the git commit that follows COMPLETED is left out.
- Execution: each operation is one atomic step, although the source checks status on one load and takes its revision from a second; timestamps, output references and the agents' environment flags.
- Milestones: the event journal entries written by `schedule()`; risks and agents enter as flags.
- MilestoneRuns: the milestone list and the skipped ones are fixed during a run, and a gate may turn green at any moment, whatever its validator still waits for.
- TeamPhases: the phases of the members themselves, and reviews and validators, which only add assignments with dependencies.
- `src/asc/repo.py`, `src/asc/lock.py`, and the health, risk, recovery, validation and agent runtimes: they repeat the patterns above or depend on git.
