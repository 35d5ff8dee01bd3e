# Tailvault verification model

Tailvault is a serverless store: every member node holds a hash-chained write-ahead log, a catalog and
content-addressed objects, and passive storage is driven by clients that race and crash. This project
models that core in Dafny and proves what its design promises.

| file | models |
|---|---|
| `Wal.dfy`, `WalLog.dfy`, `WalRace.dfy`, `WalKeys.dfy` | the log as values, its client code under interference, any number of racing clients as a state machine, and the file names |
| `Journal.dfy`, `Ops.dfy` | completing a list of ops in any order; listing and retrying not-done ops |
| `Catalog.dfy`, `Order.dfy`, `Text.dfy`, `Wrappers.dfy` | the catalog and shared vocabulary |
| `Vault.dfy`, `Commands.dfy`, `VaultCommands.dfy` | a cluster that remembers every state it was in; put, rename, rm, sync-mode and restore as plans, and as code that follows them |
| `Move.dfy`, `Resolver.dfy`, `Querier.dfy`, `Roster.dfy` | the eight-step cross-member move, the resolver, one member's answers, and the federation roster |
| `Projection.dfy`, `ReplayLaws.dfy`, `Retry.dfy`, `LiveReplay.dfy`, `PruneReplay.dfy` | rebuilding the catalog from the log, kind of entry by kind, finishing one op from its entry, why the rebuilt catalog is the live one, and what a prune leaves of that |
| `Bootstrap.dfy`, `Scan.dfy`, `ScanDiff.dfy`, `ScanRetry.dfy` | batched ingest and disk reconciliation, with crash and resume |
| `GcFed.dfy`, `GcRuns.dfy` | the journaled sweep, with crash and retry, alone and among the other commands |
| `Locks.dfy`, `Push.dfy`, `Repo.dfy` | the lock file and its merge, the push and its version lists, and branches over time |
| `Codec.dfy`, `Identity.dfy` | the frozen encodings that feed the hashes |

How it is modelled:

- A store is a map from key to content; Put is atomic create-if-absent, as internal/wal/log.go:74-77 intends.
- Crashing means stopping after any write. The cluster and the log store keep a ghost trail of every
  state, so a method's contract speaks about each crash point.
- Commands that write catalogs run one at a time, the assumption internal/fedtest/harness.go:57-62 states;
  appends and markers interleave freely.
- Hashes are injective: symbolic in the log, an arbitrary injective function where ids are minted.
- Clocks, op ids, hashes of files, probes, answers of other members, rules and storage errors are inputs.

What the code does not do, although its comments suggest it (each with a proof and an exact condition):

- An append compares only the op id on read-back, so two clients with one op id and different requests can
  both succeed (`WalRace.SameOpIdBothSucceed`, `WalRace.ReturnedIsStoredIff`); slots from ten to the twelfth on
  can never be marked (`WalKeys.MarkerReadsBackIff`).
- A crashed move or put cannot be repeated as the same command once its row is live, because the
  conflict check refuses the path first (`Moves.ResumeAcceptedIff`, `Commands.PutResumeAcceptedIff`).
- put derives its op id from node, path and sha, so put, rename, put of the same bytes gives two rows one id
  (`Commands.PutKeepsRowsIff`, `Commands.PutRenamePut`). rm derives its op id from id and sha, so put, rm, put,
  rm journals nothing the second time and a crash loses bytes silently (`Commands.RmWriteAheadIff`,
  `Commands.PutRmPutRm`). A restore locks only the id it brings back (`Commands.RestoreWriteAheadIff`). A
  retried put does not look at the bytes (`LiveReplay.RetriedPutCoveredIff`).
- `ops retry` sends moves through the strict replay, which takes member names for paths at both ends
  (`Retries.MoveReplaysRightIff`, `Retries.CrossMoveMisreplayed`, `Retries.ArrivalMisreplayed`). The journal of an
  arrival uses one sha as content and as birth content, so a file edited before it moved is rebuilt with a
  wrong birth record (`LiveReplay.ArrivalRebuildsGenesisIff`).
- mv derives its op id from id, members and path, so moving a file there, back and there again gives it two
  homes with nothing pending (`Moves.TwoHomesPendingIff`, `Moves.ThereAndBackAgain`).
- gc collects ids by sha but drops rows by sha, so with several rows of one sha a crashed sweep cannot be
  finished from the log (`GcFed.RetryCatalogIff`, `GcFed.TwoRowsOneSha`), and manual rows go with git-mode rows of
  the same bytes (`GcFed.ManualRowDroppedIff`). Its retry does not count referents, so bytes put again in between
  are deleted (`GcRuns.RetrySafeIff`, `GcRuns.PutBeforeRetry`).
- A scan run again after a crash journals new files under new op ids and file ids; retrying the first op then
  parts the live catalog from the log (`ScanRetries.RescanThenRetry`).
- After a prune the log no longer rebuilds rows born before it (`PruneReplay.PrunedReplayIff`), and a reader that
  listed before the prune and fetches after it sees a broken chain (`Wal.ListedBeforePruneBreaksIff`), which
  internal/wal/log.go:91-93 calls benign.
- Merged rosters depend on reading order when rows tie (`Rosters.MergeDeterministicIff`).
- Version lists stay with the path while entries move with the content, so a file with history that is moved
  and then edited loses its history (`Push.PushKeepsLockstepIff`, `Push.MoveThenEditForgets`); tasks/task-20-history-refs.md:21-23
  promises that renames key history correctly. The lists also outlive the blobs they name
  (`Push.VersionsPresentIff`, `Repo.SweptVersionReturns`).
- A sweep between a push and its commit may take what the commit points at (`Repo.SweepKeepsWorkIff`);
  an overwrite can let go of preserved content (`Push.OverwrittenKeptIff`); live beats tombstone only for
  equal content (`Locks.LiveBeatsTombstoneIff`), and the order of three merges can matter
  (`Locks.MergeMapOrderIff`).

`dafny verify dfyconfig.toml` checks everything.

## Model

| member | source | states |
|---|---|---|
| Wal.TailCommitsToLog | internal/wal/log.go:200-227 | whatever the decoder and for any injective hash, two logs that pass verification from one anchor and end in one self-hash hold the same bytes in every slot |
| Wal.TamperBreaksChain | internal/wal/log.go:200-227 | rewriting the bytes of any entry but the last makes verification fail |
| Wal.ReadsUnique | internal/wal/log.go:94-156 | a store has at most one verified reading |
| Wal.LockIsExclusive | internal/wal/log.go:264-269 | two pending intents never hold the same blob |
| Wal.AppendKeeps | internal/wal/log.go:250-322 | appending an op that is new and unblocked keeps the chain, distinct op ids and the lock order |
| Wal.PutSlotRepresents | internal/wal/log.go:295-299 | one slot file written turns a store that reads as a log into one that reads as the appended log; the slot was free and had no stale marker |
| Wal.PutMarkRepresents | internal/wal/log.go:335-356 | a marker written once or again reads as the log with that op marked, chain untouched |
| Wal.MarkDoneTakesEffect | internal/wal/log.go:159-173 | a done marker is seen by readers exactly for slots below ten to the twelfth |
| Wal.PrunedKeeps | internal/wal/log.go:383-429 | dropping the done prefix keeps chain, discipline, the next slot, its link, and every survivor with its state |
| Wal.AnchorPutRepresents | internal/wal/log.go:402-414 | the one anchor write is the moment a prune takes effect, and the anchor key is new |
| Wal.DeleteBelowRepresents | internal/wal/log.go:415-428 | every later delete of a prune leaves the reading unchanged |
| Wal.ListedBeforePruneBreaksIff | internal/wal/log.go:90-156 | a reader that listed the keys before a prune and fetches after it sees a broken chain if and only if the prune left an entry standing |
| WalKeys.MarkerReadsBackIff | internal/wal/log.go:159-173 | a marker file name parses back to its slot if and only if the slot has at most twelve digits |
| WalKeys.SeqFromMarker | internal/wal/log.go:159-173 | the parsing loop returns the slot that a twelve-digit name stands for and rejects every other name |
| WalRace.RaceSafe | internal/wal/log.go:250-356 | over every interleaving of any number of appending and marking clients the log stays readable and verified, keeps no op id twice, never lets two pending intents share a blob, and only grows |
| WalRace.RaceLockExclusive | internal/wal/log.go:264-269 | mutual exclusion in every reachable store: two pending intents on one blob are the same slot |
| WalRace.AppendedMeansOwned | internal/wal/log.go:301-318 | a client that reported success owns its slot: the stored entry there carries its op id, for ever after |
| WalRace.ReturnedIsStoredIff | internal/wal/log.go:301-318 | for two clients on an empty store that present two requests under one op id: in every run a successful append returns the stored entry, if and only if the two requests agree in everything but position and link |
| WalRace.OneBodyMeansStored | internal/wal/log.go:301-318 | over any run of any number of clients: if all records and requests under an op id have one body, what a successful append of it returned is what is stored |
| WalRace.SameOpIdBothSucceed | internal/wal/log.go:313-315 | a concrete run in which two clients with one op id both succeed and one returns an entry that was never stored |
| WalRace.RacingNeverBreaksChain | internal/wal/log.go:177-227 | no client ever sees a broken chain because of racing |
| WalRace.NotConvergedMeansOutrun | internal/wal/log.go:250-322 | progress: over any run an append gives up only if other ops took 256 slots between its begin and its end |
| WalRace.StalePutIsLost | internal/wal/log.go:295-315 | an append whose slot was pruned under it reports success though no reader will see it: why a prune needs a quiet log |
| WalRace.EmptyStoreIsInit | internal/wal/log.go:94-156 | an empty store with idle clients is a legal start |
| WalLog.Log.LoadRaw | internal/wal/log.go:94-156 | while others write, the loaded files, markers and anchor are those of the log at the moment of listing |
| WalLog.VerifyChain | internal/wal/log.go:200-227 | the loop accepts exactly the chains whose numbers and hashes link from the anchor |
| WalLog.Log.ReadVerified | internal/wal/log.go:177-196 | the files returned are the live records of the log, sorted, and they verify |
| WalLog.Log.Read | internal/wal/log.go:231-241 | the records returned are the log at the moment of listing |
| WalLog.Log.AppendIntent | internal/wal/log.go:250-322 | under interference the log stays disciplined and only grows, and the outcome is true of it; alone the call is exactly the specified append |
| WalLog.Log.TryAppend | internal/wal/log.go:251-319 | one attempt: duplicate, held, claimed, or lost to another writer |
| WalLog.Log.Mark | internal/wal/log.go:335-356 | marks the slot of the op, silently succeeding on repeats and unknown ops |
| WalLog.Log.Pending | internal/wal/log.go:360-376 | returns exactly the intent-state records, filtered by blob if asked |
| WalLog.Log.Prune | internal/wal/log.go:383-429 | every store state a prune passes through reads as the log minus its old done prefix |
| WalLog.FSBackend.Put | internal/backend/stub.go:92-128 | create if absent: an existing key keeps its bytes |
| WalLog.FSBackend.Delete | internal/backend/stub.go:138-148 | deleting is idempotent and touches one key |
| WalLog.FSBackend.List | internal/backend/stub.go:150-177 | lists every log key once |
| Ops.PendingFromRecs | internal/ops/ops.go:148-176 | the nested loops list every not-done op with the earlier not-done ops it shares a blob with |
| Ops.ListedInOrder | internal/ops/ops.go:148-176 | the listing holds each not-done record once, in log order, and nothing else |
| Ops.WaitsOnIff | internal/ops/ops.go:160-172 | the ids an op waits on are exactly those of the earlier not-done ops that share a blob with it |
| Ops.WaitsOnlyOnFailed | internal/ops/ops.go:160-172 | whatever an op waits on is an earlier op in the failed state that shares a blob with it |
| Ops.PassShrinksBacklogIff | internal/cli/ops.go:188-233 | whatever the executors do a retry-all pass never lengthens the backlog, and shortens it if and only if some op that waits on nothing is completed by its executor |
| Ops.PassesLeaveStuck | internal/cli/ops.go:190-194 | repeated passes complete all that can be completed: what is left is exactly what its executor does not complete and what waits, directly or not, on such an op |
| Ops.PassesDrainIff | internal/cli/ops.go:190-194 | repeated passes empty the backlog if and only if every not-done op has an executor that completes it |
| Ops.RetryAll | internal/cli/ops.go:209-232 | the pass over a listing taken beforehand refuses what waits, replays the rest with any outcome, and counts all that did not complete |
| Catalogs.Catalog.Find | internal/catalog/catalog.go:126-133 | finds the row a path has |
| Catalogs.Catalog.FindID | internal/catalog/catalog.go:136-143 | finds the first row that carries an id, and only fails when none does |
| Catalogs.Catalog.Upsert | internal/catalog/catalog.go:147-155 | keeps paths unique and changes the row of one path only |
| Catalogs.Catalog.Remove | internal/catalog/catalog.go:158-170 | drops one path only and reports whether it was there |
| Catalogs.Catalog.Canonicalize | internal/catalog/catalog.go:111-123 | sorts by path without losing or adding a row |
| Catalogs.CanonicalUnique | internal/catalog/catalog.go:111-123 | the canonical form is unique: catalogs with the same rows serialize alike |
| Rosters.Merge | internal/fed/roster.go:59-91 | fails exactly when the rosters do not agree on one federation id; otherwise holds one winning row per name, sorted |
| Rosters.WinnersAreMaximal | internal/fed/roster.go:147-169 | per name the winner is a row that was read and a maximum of (joined at, status rank) |
| Rosters.MergedStatus | internal/fed/roster.go:147-169 | of the rows no other is newer than, an eviction outranks a departure and a departure any other status |
| Rosters.MergeOrderIndependent | internal/fed/roster.go:54-91 | the standing of every member depends only on which rows were read |
| Rosters.MergeDeterministicIff | internal/fed/roster.go:54-91 | every order of reading the same rows merges to the same rows if and only if no two different rows of one member stand at the top |
| Rosters.MergeAssociative | internal/fed/roster.go:54-91 | merging a merged roster with more rosters is merging them all at once |
| Rosters.MergeIdempotent | internal/fed/roster.go:54-91 | merging a merged roster with itself changes nothing |
| Rosters.MergedTerminalIff | internal/fed/roster.go:52-57 | a member shows as gone if and only if some row says so that no other row is newer than |
| Rosters.DepartureSticks | internal/cli/fed.go:596-604 | a leave or eviction written to any non-empty subset of copies that agree on joined-at is terminal in the merge of all copies |
| Rosters.SetStatus | internal/cli/fed.go:596-604 | rewrites the status of one name and nothing else |
| Resolver.FollowPointers | internal/fed/resolve.go:175-215 | every member asked is the one the last answer pointed to, at most four and none twice, and the verdict is what the last of them, or the reason to stop, says |
| Resolver.QueryMembers | internal/fed/resolve.go:220-253 | collects the answers of the members that were up; one failed query fails all |
| Resolver.ResolveID | internal/fed/resolve.go:98-167 | home first, then fan-out, pointers, partial, pending, missing, in that order; the next seven rows say what each verdict means |
| Resolver.MissingMeansAllAnswered | internal/fed/resolve.go:148-166 | Missing is given if and only if no query failed, the home does not have the file, every active member was up and answered, none holds the id or has a move in flight, and every pointer is dead |
| Resolver.HeldIsFound | internal/fed/resolve.go:121-135 | completeness: whoever else is down, a file that an answering member holds is found, with the answer of the home or of the first holder in roster order |
| Resolver.PartialIsReal | internal/fed/resolve.go:136-160 | a partial view means nobody who answered holds the file, and comes of a pointer that cannot be followed, an active member that is down, or a move in flight |
| Resolver.PartialAccounts | internal/fed/resolve.go:259-310 | a partial view accounts for every active member as answering or out of reach, and for the member a pointer named |
| Resolver.FailureIsReal | internal/fed/resolve.go:104-147 | a failed query fails the resolution; otherwise only a pointer chase can, and only when nobody who answered holds the file |
| Resolver.HomeAnswers | internal/fed/resolve.go:104-119 | a home that has the file settles it with one query |
| Resolver.FoundIsReal | internal/fed/resolve.go:104-135 | a found verdict returns an answer some reachable member really gave, and is at-home exactly when that member is the hint |
| Querier.Query | internal/fed/backend_querier.go:50-89 | found wins; otherwise the last completed forwarding move and any pending move on the id; an unverifiable log is an error |
| Querier.WalViewTells | internal/fed/backend_querier.go:69-88 | a move is in flight exactly when a pending move names the id, and the pointer is that of the last completed move on it that carries one |
| Querier.SourceForwards | internal/cli/vault_mv.go:308-328 | once the source journal has the intent, its log answers in flight or moved to the destination, whatever older moves it records |
| Querier.NeverMissingDuringMove | internal/cli/vault_mv.go:296-302 | a resolver racing the move at any speed, under any changing reachability, any answers of other members, any crash and re-run, never concludes Missing |
| Moves.MvCross | internal/cli/vault_mv.go:303-448 | every recorded write is the next of the eight phases; it gets through them all if and only if neither intent is held, the bytes are at the source, and they arrive as what they were or the file is manual; then the row has left one catalog for the other, and no other node has changed |
| Moves.StepAdvances | internal/cli/vault_mv.go:303-448 | the closed form of each phase is what performing the steps one by one gives |
| Moves.IntentsTell | internal/cli/vault_mv.go:308-360 | what the two intents of a move carry, argument by argument; the source one alone forwards |
| Moves.MoveTouchesOneFile | internal/cli/vault_mv.go:383-443 | at every phase one row of each catalog has changed: the file with its id, birth record and mode, its hash that of the bytes that came, scanned now only if they are not the recorded ones |
| Moves.MoveOnlyAddsBytes | internal/cli/vault_mv.go:364-415 | no object is lost on either node, and the destination gains at most the file under its recorded and its true hash |
| Moves.MoveRecords | internal/cli/vault_mv.go:308-448 | each log gains one record, pending until the sixth and the eighth step |
| Moves.NeverHomeless | internal/cli/vault_mv.go:296-302 | at every crash point at least one catalog holds the id, two only while the source intent is pending, and id and birth record never change |
| Moves.MoveWriteAhead | internal/cli/vault_mv.go:366-443 | at every crash point both nodes have the bytes of every object-backed row or a pending delete or gc that explains their absence |
| Moves.ResumeContinues | internal/cli/vault_mv.go:467-485 | running the command body again at any later time changes nothing up to the crash and then continues the same phases, the intents keeping their first time stamps |
| Moves.ResumeUnhindered | internal/cli/vault_mv.go:467-485 | wherever the first run of a fresh move stopped, the intents it left do not hold up the next one |
| Moves.MoveConverges | internal/cli/vault_mv.go:300-302 | crash and re-run with a new clock: the re-run gets through and ends where an uninterrupted move ends, times apart; crashed again it is still a phase of the same move |
| Moves.TwoHomesPendingIff | internal/cli/vault_mv.go:556-571 | while the file has two homes the source log has the op pending if and only if it did not have the op already done or failed |
| Moves.ThereAndBackAgain | internal/cli/vault_mv.go:556-571 | the concrete run there, back, and there again to one path, in which the file has two homes and no op of that move is pending at the source |
| Moves.ResumeAcceptedIff | internal/cli/vault_mv.go:513-519 | repeating the same command is accepted if and only if the crash came before the destination row went live |
| Commands.ScriptSafe | internal/cli/vault_put.go:134-207 | intent, objects, catalog, done: if erasures are covered by the intent and final rows by bytes or another op, every crash point is covered |
| Commands.RefusedIff | internal/cli/vault_put.go:143-207 | when each of the five commands has nothing to do, path by path and row by row |
| Commands.PlanTouchesOneFile | internal/cli/vault_put.go:188-198 | each command changes the row it is about, field by field as stated, and no other |
| Commands.PlanTouchesOneBlob | internal/cli/vault_rm.go:139-163 | each command changes at most the blob it is about: put and a drifted mode flip add one, rm takes one, and that only from the last referent |
| Commands.IntentTells | internal/cli/vault_put.go:157-172 | what each command journals, argument by argument |
| Commands.NonDeletingCommandsWriteAhead | internal/cli/vault_put.go:143-207 | put, rename, sync-mode, and restore of a row with bytes keep every object-backed row covered at every crash point |
| Commands.RmWriteAhead | internal/cli/vault_rm.go:119-177 | an rm whose op is new or pending keeps every object-backed row covered at every crash point, whoever else shares the bytes |
| Commands.RmWriteAheadIff | internal/cli/vault_rm.go:123-163 | an rm is covered at every crash point if and only if its op is not already done, another row keeps the bytes, or the row needs no explanation |
| Commands.RestoreWriteAheadIff | internal/ingest/restore.go:78-97 | a restore is covered at every crash point if and only if the row it re-labels has its bytes |
| Commands.RunKeeps | internal/cli/vault_put.go:143-207 | over any run of crashing and repeated commands that meet their guards, ids stay distinct and self-certified and every object-backed row has its bytes or a pending op that explains their absence |
| Commands.CommandSafeIff | internal/cli/vault_put.go:143-207 | the guards are exact: a planned command keeps ids distinct and every crash point covered if and only if it meets its guard |
| Commands.PutKeepsRowsIff | internal/cli/vault_put.go:148-153 | a put keeps ids distinct and self-certified if and only if no row was born of the same content, path, op and node |
| Commands.PutRenamePut | internal/cli/vault_put.go:325-335 | the concrete run put, rename, put of the same bytes, after which two rows have one id |
| Commands.PutResumeAcceptedIff | internal/cli/vault_put.go:155-186 | repeating a crashed put as the same command is accepted if and only if its catalog had not been written |
| Commands.PutRmPutRm | internal/cli/vault_rm.go:124-160 | the concrete run put, rm, put, rm in which a crash loses the bytes with the row live and nothing pending |
| Commands.UnbornMintsNewID | internal/cli/vault_put.go:148-153 | a birth record that no row carries gets an id that no row has |
| VaultCommands.VaultPut | internal/cli/vault_put.go:77-227 | settles the destination, never on a taken path, then goes through exactly the planned states; old rows stay, and it ends verified, which alone may cost the local file, exactly when the node had no other bytes under that hash |
| VaultCommands.ResolvePutConflict | internal/cli/vault_put.go:249-299 | a free path is taken as it is; a taken one stops, refuses, or yields a free name, the first free numbered one to keep both |
| VaultCommands.VaultRm | internal/cli/vault_rm.go:119-180 | goes through exactly the planned states, erasing the blob only for the last referent |
| VaultCommands.VaultSyncMode | internal/cli/vault_syncmode.go:70-204 | goes through exactly the planned states, re-homing drifted bytes under their true hash before the catalog names it |
| VaultCommands.Rename | internal/cli/vault_mv.go:233-272 | goes through exactly the planned states of an intra-member move |
| VaultCommands.RestoreIdentity | internal/ingest/restore.go:43-103 | refuses a record that does not certify the id, an unknown path, an id already there or live elsewhere; otherwise follows the plan |
| VaultCommands.FreeDedupPath | internal/cli/vault_put.go:313-322 | returns the first free numbered name within one more try than the catalog has rows |
| VaultCommands.NumberedInjective | internal/cli/vault_put.go:313-322 | different numbers give different candidate names |
| VaultCommands.NumberedSplits | internal/cli/vault_put.go:313-322 | the number goes before the extension of the last path element |
| GcFed.PlanSweep | internal/gc/gc.go:49-63 | every stored blob is kept, preserved or eligible, exactly one of the three |
| GcFed.PlanFederated | internal/gc/fed.go:76-118 | refuses if and only if an active member is unreachable; otherwise dooms exactly the stored, git-mode, un-kept, un-preserved, un-locked shas, with ids that no pending op holds, and skips exactly the locked ones |
| GcFed.LockedIsBlocked | internal/gc/fed.go:211-229 | the lock the plan respects is the lock an append to the log meets |
| GcFed.ManualRowDroppedIff | internal/gc/fed.go:60-70 | a planned sweep drops a manual row and its bytes if and only if they are stored and referenced nowhere and an unlocked git-mode row has the same bytes |
| GcFed.IndexIsGitMode | internal/gc/fed.go:196-209 | candidates are exactly the shas of git-mode rows, each with the id of such a row |
| GcFed.SweepFederated | internal/gc/fed.go:127-190 | goes through exactly the states of the journaled sweep, or when storage fails of its failed form; a refused intent deletes nothing |
| GcFed.RemoveFilesBySHA | internal/gc/fed.go:231-245 | drops exactly the rows whose sha was doomed |
| GcFed.Retry | internal/cli/ops.go:321-343 | erases the objects of the doomed ids that still have rows, drops the rows, marks done, or fails where storage fails; every state on the way is described |
| GcFed.AlignedIffOneRow | internal/gc/fed.go:196-209 | the ids a sweep journals name the same rows as its shas if and only if every doomed sha has exactly one row |
| GcFed.TwoRowsOneSha | internal/gc/fed.go:196-209 | the instance: one sha with two rows, whose sweep journals one id, and whose retry leaves a row that the sweep drops |
| GcFed.FailedStatesMidway | internal/gc/fed.go:158-189 | every state of a sweep that storage failed is one a retry accepts |
| GcFed.SweepStatesMidway | internal/gc/fed.go:158-189 | every crash point of a sweep is the finished sweep or a state a retry accepts |
| GcFed.RetryFinishesSweep | internal/cli/ops.go:321-343 | a retry from any crash point ends with the objects, catalog and log of the uninterrupted sweep |
| GcFed.RetryStatesMidway | internal/cli/ops.go:321-343 | a retry that crashes leaves a state the next retry accepts |
| GcFed.RetryCatalogIff | internal/cli/ops.go:322-331 | from any crash before the catalog is written the retry of a sweep reaches the sweep's catalog if and only if every doomed sha has exactly one row |
| GcFed.SweepWriteAhead | internal/gc/fed.go:158-189 | at every crash point of a guarded sweep every object-backed row is covered |
| GcRuns.SweepSafeIff | internal/gc/fed.go:158-189 | all states a sweep may stop in are covered if and only if every object-backed row that loses its bytes is named by its op or accounted for already |
| GcRuns.RetrySafeIff | internal/cli/ops.go:321-343 | all states a retry may stop in are covered if and only if no unaccounted object-backed row shares the bytes of a doomed one |
| GcRuns.PutBeforeRetry | internal/cli/ops.go:321-343 | the run in which the doomed bytes are put again under a new path before the retry, which then deletes them and keeps the row |
| GcRuns.MixedRunKeeps | internal/gc/fed.go:158-189 | over any run of commands, sweeps and retries that meet their guards, each crashing anywhere, ids stay distinct and every object-backed row is covered |
| ScanDiff.Diff | internal/ingest/scan.go:80-146 | reports exactly the differences between catalog and disk, each once |
| Scan.SuspectsAreRotten | internal/ingest/scan.go:63-68 | a lazy scan suspects nothing; a paranoid one suspects exactly the files whose bytes changed with the same size and no later time |
| Scan.EditsAreReported | internal/ingest/scan.go:63-68 | every other drifted file is reported as edited, by either scan, with the hash it has now |
| Scan.VerifiedWereHashed | internal/ingest/scan.go:102-125 | an unchanged file is reported as verified exactly when it was hashed: always, or because it moved |
| ScanDiff.PairMoves | internal/ingest/scan.go:150-194 | turns exactly the one-to-one hash matches into moves and keeps every other change and deletion |
| ScanDiff.PairingIsDiff | internal/ingest/scan.go:150-194 | pairing by hash groups means the same as pairing by unique deletion and unique addition |
| Scan.EveryDeletionOnce | internal/ingest/scan.go:150-194 | every deleted row is reported exactly one way, as a deletion or as the source of one move |
| Scan.EveryAdditionOnce | internal/ingest/scan.go:150-194 | every new file is reported exactly one way, as an addition or as the target of one move |
| ScanDiff.Apply | internal/ingest/scan.go:202-251 | journals and applies the changes in order, skips suspects and locked blobs, writes the catalog once, then marks done what was journaled |
| Scan.RotIsNeverAdopted | internal/ingest/scan.go:202-251 | applying a diff leaves the row of a rotten file as it is, hash and all |
| Scan.EditIsAdopted | internal/ingest/scan.go:202-251 | and gives the row of an edited file its new hash and size, keeping id and birth record |
| Scan.ChangeTakesEffect | internal/ingest/scan.go:256-319 | what each change does to the catalog, field by field; no other row is touched |
| Scan.ChangeTells | internal/ingest/scan.go:256-319 | what each change journals, argument by argument |
| ScanDiff.AppliedOrSkipped | internal/ingest/scan.go:202-251 | a change is skipped exactly when it is a suspect or its file is locked by an earlier intent |
| Scan.ScanConverges | internal/ingest/scan.go:202-319 | after a whole paranoid diff is applied the next one on the same disk reports only verified files and the same suspects |
| Scan.SuspectsRemain | internal/ingest/scan.go:63-68 | every suspect is reported again |
| ScanDiff.AppliedScanConverges | internal/ingest/scan.go:202-251 | convergence of the apply loop itself when it skipped nothing but suspects |
| ScanRetries.CrashedScanRetried | internal/ingest/scan.go:202-251 | a scan that died after journaling k changes and is finished by retrying them leaves the log and, times and sizes apart, the rows that completing those k changes leaves |
| ScanRetries.RescanThenRetry | internal/ingest/scan.go:202-251 | the run in which a new file is journaled, the scan dies, a second scan journals it again, and the first op is then retried: the live id is not the rebuilt one |
| Projection.ProjectCatalog | internal/ingest/replay.go:120-136 | the replay loop over done records gives the specified catalog in canonical form |
| ReplayLaws.IngestReplayed | internal/ingest/replay.go:146-149 | an ingest brings in the row its arguments describe, if its birth record is valid, and touches no other |
| ReplayLaws.ScanReplayed | internal/ingest/replay.go:151-159 | a scan changes one row's hash and times |
| ReplayLaws.SyncModeReplayed | internal/ingest/replay.go:181-194 | a mode flip changes one row's mode, hash and times, the scan time being the one journaled |
| ReplayLaws.RestoreReplayed | internal/ingest/replay.go:258-276 | a restore gives one row the recorded id and birth record, if the one certifies the other |
| ReplayLaws.RowsForgotten | internal/ingest/replay.go:167-176 | a sweep or a departure takes out exactly the rows with the ids of the entry |
| ReplayLaws.ArrivalReplayed | internal/ingest/replay.go:222-236 | an arrival brings in the row its arguments describe |
| ReplayLaws.RenameReplayed | internal/ingest/replay.go:237-249 | a rename moves the row with the entry's id, or else the one at its source, as it was but for path and times |
| ReplayLaws.StrictReplay | internal/ingest/replay.go:54-94 | the strict replay takes four kinds of entry, fails exactly when one lacks what it needs, and does what the projection does but for the times |
| Projection.ReplayOp | internal/ingest/replay.go:31-43 | applies one entry, persists, marks done; on an error changes nothing |
| Retries.RetryIsIdempotent | internal/ingest/replay.go:23-26 | applying any catch-up entry, moves included, that already took effect changes nothing more at any later time, times apart |
| Retries.MoveReplaysRightIff | internal/ingest/replay.go:76-85 | retrying a move entry does to the catalog what the projection does, times apart, if and only if it is a rename with a target or nothing was left to do |
| Retries.JournaledRenamesReplayRight | internal/ingest/replay.go:76-85 | the renames that commands and scans journal are always replayed right |
| Retries.CrossMoveMisreplayed | internal/ingest/replay.go:76-85 | given the source end of a cross-member move the strict replay renames the row to the member's name, where the projection drops it |
| Retries.ArrivalMisreplayed | internal/ingest/replay.go:76-85 | given the destination end it renames a live row to the empty path, which no reader of the catalog accepts, and does nothing when the row has not arrived |
| LiveReplay.CatalogIsProjection | internal/ingest/replay.go:120-275 | after any history of freshly journaled, completed operations of every kind, replaying the log gives the live paths, ids, birth records and modes, and the shas unless drifted files arrived; ids stay distinct |
| LiveReplay.CompleteKeepsStep | internal/ingest/replay.go:144-202 | each single operation keeps the live catalog and the replay in step |
| LiveReplay.ArrivalRebuildsGenesisIff | internal/ingest/replay.go:222-236 | an arrived row is rebuilt with its birth record if and only if its content never changed since birth |
| PruneReplay.PrunedReplayIff | internal/wal/log.go:383-429 | after any history, the log without what preceded it rebuilds exactly the rows born or arrived since, and so the live catalog if and only if those are all |
| PruneReplay.CompleteKeepsKnown | internal/ingest/replay.go:144-202 | each single operation keeps the rebuilt rows those born or arrived since, whether or not it touches a row the rebuilt catalog lacks |
| LiveReplay.MoveIsDepartureAndArrival | internal/cli/vault_mv.go:303-448 | a finished cross-member move leaves each member with the catalog and log of its own departure or arrival |
| LiveReplay.ScanIsHistory | internal/ingest/scan.go:202-251 | a scan that journals everything first and marks it done at the end leaves exactly what completing its changes one by one would |
| LiveReplay.BootstrapIsHistory | internal/ingest/bootstrap.go:143-278 | a bootstrap of files new to the log leaves exactly what completing their additions one by one would |
| LiveReplay.EmptyInStep | internal/ingest/replay.go:120-136 | a new member starts in step |
| LiveReplay.RetriedPutCoveredIff | internal/ingest/replay.go:28-43 | retrying a crashed put from its entry keeps the write-ahead invariant if and only if the bytes had been uploaded |
| Bootstrap.Run | internal/ingest/bootstrap.go:152-278 | for any batch size every recorded state is a legal crash state; where ids are told apart a run gets through if and only if every file has a valid row and no op from outside the plan holds the id of one still to be journaled; then it leaves exactly the one outcome, every op done |
| Bootstrap.ResumeUnobstructed | internal/ingest/bootstrap.go:143-151 | if an uninterrupted run would get through, so does the re-run from any crash state: the intents left behind do not hold it up |
| Bootstrap.InjectiveOwnIDs | internal/ingest/bootstrap.go:217-230 | under injective minting the ids of the files of a plan are told apart |
| Bootstrap.ResumeSameOutcome | internal/ingest/bootstrap.go:143-151 | from any crash state a re-run ends with the catalog, log and objects of the uninterrupted run |
| Bootstrap.OutcomeTells | internal/ingest/bootstrap.go:152-278 | that outcome changes the rows of planned paths and no bytes, keeps every record, changes the state of no record but its own, adds none but its own, and leaves its own done |
| Bootstrap.NewRowTells | internal/ingest/bootstrap.go:217-253 | a planned file the log has not seen gets the row this run minted, field by field |
| Bootstrap.RecordedRowTells | internal/ingest/bootstrap.go:205-215 | a recorded one gets the row its record describes, whatever this run finds on disk or on the clock |
| Journals.CompleteAppend | internal/ingest/bootstrap.go:143-151 | journaling one op of a list ahead of time does not change what completing the list leaves |
| Journals.CompleteMark | internal/ingest/bootstrap.go:143-151 | nor does marking one done ahead of time |
| Bootstrap.StartIsTorn | internal/ingest/bootstrap.go:152-162 | a run may die before its first write |
| Bootstrap.TornAgain | internal/ingest/bootstrap.go:143-151 | crashes of resumed runs are crash states of the first run; in each, done markers exist only for rows in the catalog on disk |
| Bootstrap.NewFilesPlannable | internal/ingest/bootstrap.go:284-318 | files the log has not seen always have a row |
| Push.Clone.Run | internal/push/push.go:52-216 | preflight first; it succeeds if and only if the node is reachable and every changed file gets through, pointers included when their bytes are there; then lock, blobs, version lists and report are what the push relation says, the lock written last; a broken push or a dry run leaves the lock alone, and only the described traces on the node |
| Push.WhatHoldsUp | internal/push/push.go:101-151 | which files each kind of fault stops: none that is unchanged or moved, none by a sending fault whose bytes are there, none by a list fault without history |
| Push.Clone.Relist | internal/history/history.go:53-76 | appends to a path's list unless the content heads it; breaking between delete and put loses the list |
| Push.RenameSource | internal/push/push.go:275-296 | the first, in order, of the vanished live paths with the content; none exactly when there is none |
| Push.MatchOne | internal/push/push.go:88-99 | taking the first source left for each new path in order pairs, content by content, the n-th new path with the n-th vanished one |
| Push.PushStaysPresent | internal/push/push.go:1-5 | if the old lock's content was on the node the new lock's is |
| Push.LiveEntriesAreTree | internal/push/push.go:80-156 | the live entries are exactly the files of the tree with their shas |
| Push.RenamesMatched | internal/push/push.go:88-99 | of the new files with one content exactly as many are carried over as there are vanished files to carry them from |
| Push.MovesSendNothing | internal/push/push.go:80-99 | a push in which every changed path is new and every content has as many vanished as new paths changes nothing on the node |
| Push.PreservedSurvivesDeletion | internal/push/push.go:174-194 | deleting or moving a preserved file never lets go of its content |
| Push.NothingAutoDeleted | internal/push/push.go:179-200 | with auto-delete off no deletion lets go of any content: the entry stays as a tombstone or went along with a move |
| Push.AutoDeleted | internal/push/push.go:190-200 | with it on an unpreserved deleted file leaves nothing at its path and is reported, a preserved one leaves a tombstone |
| Push.TreeEntries | internal/push/push.go:80-156 | what becomes of each file of the tree, entry field by entry field, versions included |
| Push.NodeAfter | internal/push/push.go:101-151 | the node ends with the content of the changed files besides what it had, and with lists that grew only there |
| Push.MarkedIff | internal/push/push.go:130-194 | what is reported for gc is exactly the old content of unpreserved files overwritten without history, or deleted with auto-delete on and not moved |
| Push.OverwrittenKeptIff | internal/push/push.go:123-154 | content a path referred to survives an overwrite if and only if history is on and the node's list of this path has it |
| Push.KeptMarkedOrSilent | internal/push/push.go:130-190 | content of the old lock is still referred to, or reported for gc, unless it falls in one of two silent cases |
| Push.HistoryKeepsAll | internal/push/push.go:138-151 | with lock and node in lockstep, overwriting a file with history loses none of what its path referred to |
| Push.PushKeepsLockstepIff | internal/history/history.go:56-57 | a push keeps lock and node in lockstep if and only if the versions of each vanished path are listed already at the new path paired with it |
| Push.MoveThenEditForgets | internal/push/push.go:88-99 | a file with history that is moved and then edited refers to its new content only |
| Push.VersionsPresentIff | internal/push/push.go:138-151 | the versions in the lock point at stored content after a push if and only if the lists it grew name nothing that is gone |
| Locks.Merge | internal/lock/merge.go:24-48 | the canonical list of the path-by-path merge |
| Locks.MergeCommutes | internal/lock/merge.go:5-23 | exactly the union of paths, and both argument orders agree on sha, liveness and version set |
| Locks.MergeKeepsEntries | internal/lock/merge.go:38-67 | a merged entry equals the one whose content it has in every field but its versions, and ours where the contents agree, then live if either is; an entry only one side has is kept whole |
| Locks.MergedVersionsOrder | internal/lock/merge.go:69-90 | its versions are the winner's in order, then the other's that were not among them |
| Locks.MergeKeepsReferences | internal/lock/merge.go:16-18 | a sha referenced at a path survives there if and only if it is not the loser's current sha, unlisted by either side |
| Locks.LiveBeatsTombstoneIff | internal/lock/merge.go:10-14 | a live entry survives a tombstone if and only if the content is the same or the live side wins |
| Locks.MergeOrderIff | internal/lock/merge.go:38-73 | for any three entries of a path both orders of merging agree on the content if and only if a third content fares no better against the push time that is kept than against the one forgotten |
| Locks.MergeMapOrderIff | internal/lock/merge.go:24-48 | for any three locks both orders give the same paths, and the same contents if and only if that holds at every path all three have |
| Locks.MergeOrderMatters | internal/lock/merge.go:38-41 | three branches can merge to different contents depending on the order |
| Locks.ReferencedSHAs | internal/lock/query.go:41-61 | exactly the non-empty current and recorded shas, each once |
| Repo.BuildKeepSet | internal/gc/keepset.go:18-29 | exactly the shas some branch refers to |
| Repo.BuildPreserveSet | internal/gc/keepset.go:34-51 | exactly the shas of preserve-marked entries |
| Repo.PreserveAddsNothing | internal/gc/keepset.go:30-33 | what a preserve-marked entry names is preserved, and all of it is in the keep set already, so preserving never changes what a sweep may take |
| Repo.Sweep | internal/gc/keepset.go:57-69 | deletes exactly the eligible blobs, none on a dry run |
| Repo.Revert | internal/revert/revert.go:57-104 | repoints a path exactly when the sha is a recorded version, differs, and is on the node intact; entry by entry nothing changes but the sha of that path, its versions staying |
| Repo.RevertKeepsReferences | internal/revert/revert.go:95-104 | after a revert everything any path referred to is still referred to, but for an old current sha that no version list named |
| Repo.RunSafe | internal/gc/keepset.go:11-17 | over any run of pushes, broken pushes, commits, branches, merges, reverts and clean sweeps every entry of every branch's lock has its content on the node |
| Repo.RunInLockstep | internal/history/history.go:53-61 | over any run of pushes, broken pushes, commits, branches, merges, reverts and sweeps that carries no unlisted versions and loses no list, every entry of every lock has its versions on the node's list of its path |
| Repo.HistoryOutlivesRuns | internal/history/history.go:3-8 | after any such run, overwriting a file with history loses none of what its path referred to |
| Repo.SweptVersionReturns | internal/gc/keepset.go:57-69 | a swept blob that a version list still names comes back into the lock with the next push of that path, pointing at nothing |
| Repo.SweepKeepsCommitted | internal/gc/keepset.go:11-17 | a sweep never takes what a committed lock points at |
| Repo.SweepKeepsWorkIff | internal/gc/keepset.go:11-29 | a full sweep spares the uncommitted lock if and only if branches refer to all it points at |
| Repo.CleanAfter | internal/gc/keepset.go:11-29 | right after a commit, a checkout or a merge the working lock is its branch's, and a sweep spares it |
| Repo.SweepThenCommitDangles | internal/gc/keepset.go:11-29 | otherwise sweep then commit leaves a committed lock pointing at a deleted blob |
| Codec.Encode | internal/wal/entry.go:102-132 | writes the canonical bytes of an entry |
| Codec.EncodingIsUnique | internal/wal/entry.go:84-88 | an entry has one canonical encoding, however its table is ordered in memory |
| Codec.EncodingIsInjective | internal/wal/entry.go:102-170 | entries with the same canonical bytes are equal, given bare argument keys and years up to 9999 |
| Codec.UnbareKeysCollide | internal/wal/entry.go:121-129 | two different argument tables with the same bytes, when a key is not bare |
| Codec.StampIsRead | internal/wal/entry.go:120-120 | an RFC 3339 timestamp with trimmed nanoseconds reads back exactly |
| Codec.DraftIsRead | internal/wal/entry.go:90-101 | the reader inverts the writer on every entry |
| Text.QuotedReadsBack | internal/wal/entry.go:143-170 | unescaping inverts TOML basic-string escaping up to the closing quote |
| Text.EscapeBasic | internal/identity/genesis.go:57-84 | the loop escapes exactly as the reader expects to unescape |
| Identity.SerializeGenesis | internal/identity/genesis.go:39-53 | writes the four frozen lines of a birth record |
| Identity.GenesisRoundTrip | internal/identity/genesis.go:33-46 | every birth record can be read back from its bytes |
| Identity.EqualIDsEqualGenesis | internal/identity/genesis.go:87-94 | under an injective hash equal file ids mean equal birth records |
| Identity.MintedVerifies | internal/identity/genesis.go:109-115 | a minted id is certified by its own record |

## Left out

- WalLog.Log.Prune: assumes no append is in flight, because a stale client can re-create a pruned slot (`WalRace.StalePutIsLost`).
- WalRace.RaceSafe: does not let a prune run among the racing clients, for the same reason and because a read that spans one may see a broken chain (`Wal.ListedBeforePruneBreaksIff`).
- Codec.EncodingIsInjective: keys must not contain a space and years end at 9999; the log modules use symbolic bytes and typed argument keys rather than this text form.
- LiveReplay.CatalogIsProjection: does not compare sizes or timestamps, which scans, renames and moves do not journal faithfully; every op must be freshly appended, because a repeated deterministic op id journals nothing; an arriving file must still have its birth content.
- Commands.RunKeeps: excludes exactly the commands whose guards in `PutKeepsRowsIff`, `RmWriteAheadIff` and `RestoreWriteAheadIff` fail, and assumes that a record with the same op id is the same request; gc joins in with `GcRuns.MixedRunKeeps`, and cross-member moves have their own theorems.
- VaultCommands.VaultPut: the bytes sent are those that were hashed; the code reads the local file twice.
- Commands.NonDeletingCommandsWriteAhead: one name stands for the member and its node.
- GcFed.RetryFinishesSweep: needs the ids and shas to name the same rows, which by `AlignedIffOneRow` is one row per doomed sha.
- Moves.NeverHomeless: starts from a move whose op neither log has; `ThereAndBackAgain` is what happens otherwise.
- ScanRetries.CrashedScanRetried: is about a crash before the catalog write; after it, retrying an op changes nothing more (`Retries.RetryIsIdempotent`).
- Querier.NeverMissingDuringMove: needs the source to be an active member and the destination to be in the roster.
- Moves.MvCross: the size of the moved object is an input; both catalogs must exist, as the command checks.
- Scan.ScanConverges: hashing errors and the ignore rules are not modelled; the disk is a map from path to hash, size and mtime.
- Repo.RunSafe: speaks of current shas only; versions may point at swept blobs exactly as `Push.VersionsPresentIff` says, and revert checks for that.
- Repo.RunInLockstep: excludes pushes that carry versions to a path that does not list them, which `PushKeepsLockstepIff` shows to break it, and pushes that die between deleting a list and writing it.
- Push.Clone.Run: scanning, pointer parsing, rule evaluation and the pusher's identity are inputs; a path stands for its normalized id.
- Ops.RetryAll: an executor comes to the same end for an op in every pass.
- Resolver.ResolveID: the advisory cache colours messages only and is not modelled; sorted name lists are sets.
- Identity.MintedVerifies: trimming and lower-casing are modelled for ASCII; strings are Unicode scalar values, and UTF-8 itself is below the model.
- SSH, exec, rsync and Taildrive plumbing, temp files and fsync, and non-atomic directory walks: below the model.
- SHA-256, argon2, random bytes, UUID bits and the TOML library: the hash is abstract and op ids are opaque.
- Passwords, gates, prompts, JSON output, exit codes, discovery, self-update, hooks and configuration: no state of the core.
- Lock entries carry no id or birth record here, so lock self-certification (internal/lock/lock.go:112-136) is not modelled.
- The conflict modes of mv: they settle on a free path exactly as put's do (`VaultCommands.ResolvePutConflict`).
- Roster fan-out, locations and federation joins: each write is one journaled catalog write like the commands above.
