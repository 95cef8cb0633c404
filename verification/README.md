# A verified model of the secret-serving daemons

The system serves secret files read-once through a FUSE mount. A *policy daemon* (`fuse-server`) keeps a record per
secret, decides every read, lets an operator grant or deny pending reads, and writes each change to a store file that
the next process loads. A *data daemon* (`fuse-mount`) holds the tree of served names and hands out inode numbers. It is
told what to serve by a command log that the policy daemon replays to every connection. A terminal panel
(`fuse-client`) shows pending requests, and a small trie (`fuse-protocol`) shortens names for display.

The project models that logic in Dafny and proves what holds over every run of it.

| module | models |
|---|---|
| `Records` | the rules for one record: reads, manual grants, re-adds, rotation, whitelisting, restart |
| `PolicyStore`, `Policy` | the store file, hex, and every command as a function on the policy state |
| `Server` | the policy state as classes updated in place, each method proved against `Policy` |
| `Hub`, `Handler` | the command log, the operator's commands, the startup load |
| `Overlap` | handlers that overlap: each changes the state first and makes its announcement later |
| `Promises` | what comes of every command, in terms of what was there before: who may read, what is refused and why, what each command leaves |
| `Daemon` | the policy daemon as a step system: threads, record and persist locks, snapshots record by record, the desk of pendings, the clock, the disk, crashes |
| `DaemonShape`, `DaemonDurability`, `DaemonBudget`, `DaemonStream`, `DaemonAdmission`, `DaemonGrants`, `DaemonRotation`, `DaemonAsks` | invariants of that step system and the theorems about its runs |
| `DaemonHistory` | which steps the history records, and as what |
| `DaemonRefines` | the steps, run undisturbed, do what the sequential commands of `Policy` do |
| `DaemonRaces` | runs that show where a guarantee stops |
| `Paths`, `Tree`, `Mount` | names as path components, the frozen tree, and the data daemon's store as a value |
| `Store` | that store as a class updated in place, each method proved against `Mount` |
| `Identity` | inode numbers over whole runs, and opening through them |
| `Replay`, `EndToEnd` | the store refines a map, reconnecting converges when no name lies inside another, and both daemons agree |
| `Nested` | exactly which name spaces still converge when names do lie inside one another |
| `Collapse` | the display trie on the heap, its exact specification, and when two names look alike |
| `Panel` | slot reconciliation on an array, and the cursor |
| `Text` | joining and splitting |

How the parts connect: a method is proved equal to a specification function on the state it changes. What the source
promises is proved about those functions, about sequences of events, or about every reachable world of the step system.
The step system carries a history that no step reads (`Daemon.Past` and part of `Daemon.Desk`): what was answered, who was
admitted and why, what was granted, denied and rotated. Bytes served are counted from the request and the file's size.

## What the proofs found

Each of these is stated as a lemma, with the exact condition where there is one.

- A grant-forever that finds its pending gone after it has changed the record reports failure and persists nothing, so
  memory stays ahead of the disk (`DaemonRaces.FailedForeverLeavesMemoryAhead`). A store file without a usable salt is
  overwritten with an empty one before its secrets are taken in, with the same effect until the first write; a second
  restart before that finds none of them (`Policy.SaltlessStoreIsLost`). With nothing under way, disk equals memory on
  exactly the secrets neither has happened to since the last write (`DaemonDurability.QuiescentDiskIsMemory`), and a
  crash keeps exactly those (`DaemonDurability.QuiescentCrashLosesNothing`).
- A deny that arrives after the reader's deciding look succeeds and changes nothing
  (`DaemonRaces.DenyAfterTheDecidingPoll`). A deny stops its ask exactly when it comes before that look
  (`DaemonAsks.DenyStopsUnlessWon`), and an ended ask was let through exactly when its loop had seen the grant
  (`DaemonAsks.LookDecides`).
- The comment in the ask loop says the reason at the boundary is "expired". The loop asks whether the pending is denied
  after it has asked whether its own slightly later deadline is past, and answers "denied" for an expired pending
  (`DaemonRaces.ExpiryReportedAsDenial`). What each look answers, and when, is `DaemonAsks.PollWins`,
  `DaemonAsks.DeadlineTimesOut` and `DaemonAsks.DeniedOrExpired`. The model follows the code.
- A rotation keeps every other package from opening a stream (`Promises.RotationLasts`, and over every interleaving
  `DaemonRotation.RotationStands`), but a stream that is open goes on (`Promises.RotationKeepsStream`).
- A denial remembered past its expiry can be granted forever, and only then: an expired pending without a hash cannot
  (`Promises.ForeverSucceeds`, `Promises.ForeverRefusals`, `Promises.RememberedDenialIsGrantable`).
- The second attempt that fetches the denial text is made without a hash, so for a known mismatching hash the text names
  `<unknown>` instead (`Records.ProbeRepeatsDenial`).
- A salt text whose pairs do not fall between characters ends the process at startup (`Handler.Load`), for instance a
  digit and a character of two bytes (`PolicyStore.SplitCharacterEndsProcess`); no text a process writes is one
  (`Policy.StoreLoadRoundTrip`).
- Byte ranges granted within a cycle are disjoint across restarts too, manual grants included, as long as no manual grant
  follows a restart that found the budget spent (`Records.ForwardOnlyConservation`, and over every interleaving
  `DaemonStream.NoByteAnsweredTwice`). After a restart, some continuation with a manual grant serves a byte again exactly
  when a byte had been served before it (`Records.RestartReopensServedBytes`).
- A label collision leaves a new file without a label (`Mount.ServeLabelsFiles`), and removing a name right after
  serving it restores everything unless a new component is special or the name is spelled unlike its components
  (`Mount.RemoveUndoesServe`): `a//b` leaves its label behind (`Mount.DoubledSlashKeepsLabel`), `a/..` its directories
  (`Mount.DotsKeepDirectories`).
- Reconnecting data daemons end up like fresh ones, for every log over a canonical name space, exactly when no name lies
  inside or around two others (`Nested.ConvergesExactly`). One name inside another is harmless; of three names, one
  related to both others, there is always a log whose second telling comes out otherwise.
- A data daemon keeps, beyond what a new log says, exactly the names it held that the log never mentions
  (`Replay.StaleNamesRemain`).
- Handlers that overlap may announce out of the order of their changes. A request leaves the mirror safe, in whatever
  order what is owed gets announced, exactly when nobody still owes an announcement about the same name that means
  something else (`Overlap.SafeUnlessClash`). Adding a secret and removing it, announced crosswise, leaves data daemons
  serving it (`Overlap.AddRemoveCrossed`).
- With names inside one another a data daemon may serve fewer secrets than the policy daemon has, and never anything else
  (`EndToEnd.DaemonsMind`).
- Two different names are displayed alike only when one lies inside the other, and exactly under `Collapse.Hides`.
- Crossing the panel's all-row turns the Forever button into Grant (`Panel.UpUndoesDown`, `Panel.DownUndoesUp`).

## Assumptions

- Replacing the store file is atomic and, in the step system, succeeds. `Server` and `Handler.Load` also cover a state
  without a store path and a missing, unreadable or unparsable file.
- A run of `Daemon` starts from a store the process can read and with persistence armed; a store it cannot read disarms
  persistence, and a salt it cannot take apart ends it, as `Handler.Load` says.
- A step of `Daemon` is what a thread does under one record lock, at one look at the pending map, or between two
  accesses of shared state under the persist lock. A reader may hold a record that has since left the map.
- Broadcasts are serialised, and replaying the log to a connection and registering it is one step. Whether operator
  connections overlap at all rests on the library that serves them, `servyi_servatui`, which is not part of this model;
  `Overlap` allows it, `Handler` and `EndToEnd` take requests one after the other.
- Clocks, package hashes, process names, host files, metadata and salts are inputs. The anonymiser is any function of
  salt and name; where labels must differ, a lemma says so (`Replay.OwnTags`).

## Model

| member | source | states |
|---|---|---|
| `Records.EntitledReadsAreGranted` | crates/fuse-server/src/state.rs:347-401 | a listed hash of an unlimited secret is granted for every pid, offset and lockdown setting |
| `Records.WhitelistedLists` | crates/fuse-server/src/state.rs:664-681 | whitelisting adds exactly the one hash to the permitted list |
| `Records.EntitlementStep` | crates/fuse-server/src/state.rs:275-294 | nothing but rotation takes an entitlement away, and no rule brings a duplicate into the permitted list |
| `Records.WhitelistingLasts` | crates/fuse-server/src/state.rs:347-401 | after whitelisting, reads by that package are granted after any events but a rotation |
| `Records.ProbeRepeatsDenial` | crates/fuse-server/src/oracle_service.rs:291-296 | asking again without a hash is denied the same way and changes nothing; its text is the first text exactly when no known hash mismatched |
| `Records.StepConserves` | crates/fuse-server/src/state.rs:347-361 | one event of a limited cycle serves only bytes past the stream's progress and below the file's end, and leaves them behind the progress |
| `Records.SpentServesNothing` | crates/fuse-server/src/state.rs:363-365 | a spent budget without a stream serves nothing more on its own |
| `Records.ForwardOnlyConservation` | crates/fuse-server/src/state.rs:347-401 | in one cycle the granted ranges increase, never overlap, and add up to at most the largest size, with manual grants interleaved and across restarts, unless a manual grant follows a restart that found the budget spent |
| `Records.NoByteServedTwice` | crates/fuse-server/src/state.rs:347-401 | so no byte is asked for by two granted reads of a cycle |
| `Records.EndExact` | crates/fuse-server/src/state.rs:353-353 | where a read is said to end is where the bytes it asks for and the file has end, with no wrap-around |
| `Records.GrantedPassesBytes` | crates/fuse-server/src/state.rs:353-354 | after a granted read, automatic or manual, every byte it asks for is behind the stream |
| `Records.RestartReopensServedBytes` | crates/fuse-server/src/policy_store.rs:218-234 | after a restart some events serve a byte again exactly when a byte had been served before |
| `Records.ReopenedAfter` | crates/fuse-server/src/state.rs:763-778 | for instance a manual grant of nothing to any process, and its read from the start |
| `PolicyStore.HexDecodesEncoding` | crates/fuse-server/src/policy_store.rs:317-325 | decoding the encoding gives every byte string back |
| `PolicyStore.HexDecodesPairwise` | crates/fuse-server/src/policy_store.rs:317-321 | any text is decoded pair by pair: digits of either case, or a plus sign and a digit, give a byte, every other pair nothing |
| `PolicyStore.HexEncodesDecoding` | crates/fuse-server/src/policy_store.rs:317-325 | a text can be taken apart, and encoding its decoding gives it back, exactly when it is lower-case hex of even length |
| `PolicyStore.SplitCharacterEndsProcess` | crates/fuse-server/src/policy_store.rs:321-325 | a digit and a character of two bytes cannot be taken apart |
| `PolicyStore.ReviveProjectAll` | crates/fuse-server/src/policy_store.rs:200-234 | loading what was stored of all records gives them back with cleared streams and observed sizes |
| `Policy.StoreLoadRoundTrip` | crates/fuse-server/src/policy_store.rs:187-238 | persisting any state and loading it keeps its whole persisted part, and its salt can always be taken apart |
| `Policy.MintIsFresh` | crates/fuse-server/src/state.rs:549-575 | a new pending's id is no pending's, and neither is the next |
| `Policy.AttemptKeepsIds` | crates/fuse-server/src/state.rs:375-390 | reads keep every pending's id below the counter |
| `Policy.LoadKeepsStore` | crates/fuse-server/src/policy_store.rs:187-198 | loading leaves disk and memory in agreement exactly when the stored salt is lower-case hex, or there was no salt and nothing else stored |
| `Policy.SaltlessStoreIsLost` | crates/fuse-server/src/policy_store.rs:187-192 | a store without a usable salt is emptied by the load that reads it |
| `Policy.ProbeChangesNothing` | crates/fuse-server/src/oracle_service.rs:291-296 | the second attempt after a denial denies, has a text, and leaves the whole state as it was |
| `Server.SecretRecord.Attempt` | crates/fuse-server/src/state.rs:345-412 | the decision and the record's new value under the record lock |
| `Server.SecretRecord.ReadManually` | crates/fuse-server/src/state.rs:770-774 | what a manual grant does to the record |
| `Server.SecretRecord.ReAdd` | crates/fuse-server/src/state.rs:275-290 | what re-adding does to the record: the hash joins, budget and stream stay |
| `Server.SecretRecord.Whitelist` | crates/fuse-server/src/state.rs:664-681 | the loop over the list attributes the first matching entry or appends one |
| `Server.ServerState.PersistLocked` | crates/fuse-server/src/policy_store.rs:272-311 | whatever order the map is walked in, the file holds the state's persisted part |
| `Server.ServerState.AttemptRead` | crates/fuse-server/src/state.rs:333-413 | outcome and new state; a grant is on disk before it is answered, a denial leaves the file alone |
| `Server.ServerState.GrantedRead` | crates/fuse-server/src/state.rs:763-778 | a granted pending's read is recorded and persisted |
| `Server.ServerState.ObserveSize` | crates/fuse-server/src/state.rs:232-236 | the new size, and nothing that is persisted |
| `Server.ServerState.AddWithMode` | crates/fuse-server/src/state.rs:258-309 | the new or re-added record, persisted |
| `Server.ServerState.RemoveSecret` | crates/fuse-server/src/state.rs:316-325 | the record is gone from memory and disk |
| `Server.ServerState.ResetBookkeeping` | crates/fuse-server/src/state.rs:461-498 | one or all records start a new cycle; the count of cleared records is returned |
| `Server.ServerState.RotateHash` | crates/fuse-server/src/state.rs:506-523 | the permitted list becomes the one hash, persisted |
| `Server.ServerState.SetLockdown` | crates/fuse-server/src/state.rs:427-448 | the flag is on disk when the call returns |
| `Server.ServerState.CreatePending` | crates/fuse-server/src/state.rs:549-575 | the new entry under the counter's id, which no pending had, and the counter past it |
| `Server.ServerState.GrantPending` | crates/fuse-server/src/state.rs:577-585 | granted exactly when present and unexpired |
| `Server.ServerState.DenyPending` | crates/fuse-server/src/state.rs:700-702 | the entry is gone; true exactly when it was there |
| `Server.ServerState.CleanupExpired` | crates/fuse-server/src/state.rs:714-720 | expired entries without a hash go, remembered denials stay |
| `Server.ServerState.PendingPidNeedingHash` | crates/fuse-server/src/state.rs:603-608 | the pid exactly when the pending is live and lacks a hash |
| `Server.ServerState.RefreshPendingHash` | crates/fuse-server/src/state.rs:611-621 | a present pending's hash and error are overwritten |
| `Server.ServerState.CheckForever` | crates/fuse-server/src/state.rs:634-684 | every refusal of grant-forever in its order |
| `Server.ServerState.GrantPendingForever` | crates/fuse-server/src/state.rs:630-698 | result and new state for three clock readings, including the refusal after the record has changed |
| `Hub.FoldForgetsStart` | crates/fuse-server/src/oracle_service.rs:52-101 | replaying a log over any start forgets the start for every name it mentions, and only for those |
| `Hub.LastWordsDecide` | crates/fuse-server/src/oracle_service.rs:64-101 | two logs come to the same exactly when their last words on every name do |
| `Hub.OverlapHarmless` | crates/fuse-server/src/oracle_service.rs:64-101 | two commands may be announced in either order exactly when they are about different names or say the same |
| `Hub.OracleHub.Broadcast` | crates/fuse-server/src/oracle_service.rs:64-89 | the log grows by the command, live connections get it, broken ones are dropped |
| `Hub.OracleHub.Attach` | crates/fuse-server/src/oracle_service.rs:397-416 | a new connection has been told the whole log |
| `Handler.CommandMirrored` | crates/fuse-server/src/handler.rs:14-133 | after every command the folded log is exactly the served secrets, each with its anonymised name and its mode |
| `Handler.HandledKeepsIds` | crates/fuse-server/src/handler.rs:14-133 | no command mints a pending or takes the id counter back |
| `Handler.RegisterSecret` | crates/fuse-server/src/handler.rs:138-160 | a regular file is added and announced, anything else changes nothing |
| `Handler.WithdrawSecret` | crates/fuse-server/src/handler.rs:66-73 | a known secret is removed and withdrawn, an unknown one changes nothing |
| `Handler.HandleForever` | crates/fuse-server/src/handler.rs:99-115 | the late hash lookup, then grant-forever |
| `Handler.HandleCommand` | crates/fuse-server/src/handler.rs:14-133 | every command's answer, new state and announcement |
| `Handler.AnnouncementsFold` | crates/fuse-server/src/policy_store.rs:200-237 | announcing a file's entries in order folds to its contents, the last entry of a name winning |
| `Handler.Load` | crates/fuse-server/src/policy_store.rs:116-239 | loaded state, disk and log for each way of reading the store, the log mirroring the state; a salt that cannot be taken apart ends the process before it changes anything |
| `Promises.StreamAdmission` | crates/fuse-server/src/state.rs:347-352 | a process going on with its stream is refused exactly when the secret is limited and it goes back over what it was given |
| `Promises.FirstReadAdmission` | crates/fuse-server/src/state.rs:363-412 | any other read is granted exactly with a budget and a listed hash or wildcard; each refusal has its exact condition, and the mismatch text tells the hash and the list |
| `Promises.DenialTexts` | crates/fuse-server/src/state.rs:107-119 | what each denial tells its reader |
| `Promises.ReadEffects` | crates/fuse-server/src/state.rs:347-401 | a refused read changes nothing; a granted one counts or goes on, and passes exactly what it asks for |
| `Promises.ManualEffects` | crates/fuse-server/src/state.rs:770-774 | a manual grant counts, takes the stream, and passes what it asks for beyond what had been passed |
| `Promises.AttemptEffects` | crates/fuse-server/src/state.rs:333-413 | a read touches one record; only a refusal by the lockdown leaves a pending, with the hash, the secret and the timeout |
| `Promises.CreatedIsFresh` | crates/fuse-server/src/state.rs:296-308 | a new secret permits its one package, is limited and unread, and keeps the low nine mode bits |
| `Promises.ReAddJoins` | crates/fuse-server/src/state.rs:275-290 | re-adding joins the hash, refreshes host, size and mode, and leaves budget, stream and limit |
| `Promises.ResetIsFresh` | crates/fuse-server/src/state.rs:471-473 | after a reset any process may read from anywhere, exactly if its package is listed |
| `Promises.RotationRevokes` | crates/fuse-server/src/state.rs:506-523 | after a rotation a hash is listed exactly when it is the new one |
| `Promises.RotationLasts` | crates/fuse-server/src/state.rs:506-523 | from then on only the new package opens a stream, after any events but a rotation, re-add or grant-forever |
| `Promises.RotationKeepsStream` | crates/fuse-server/src/state.rs:347-361 | a stream already open goes on under a rotation |
| `Promises.RestartEffects` | crates/fuse-server/src/policy_store.rs:200-234 | a restart keeps host, mode, list, count and limit of each record, clears its stream, and sees its size anew, zero for a file that is gone |
| `Promises.WhitelistEffects` | crates/fuse-server/src/state.rs:664-681 | grant-forever attributes the first entry for the hash, or appends one, lifts the limit, and leaves the rest |
| `Promises.PendingLife` | crates/fuse-server/src/state.rs:558-597 | when a pending is found granted or denied, by when it was made, granted and looked at |
| `Promises.CleanupDropsTheUseless` | crates/fuse-server/src/state.rs:714-720 | cleanup drops exactly the expired without a hash, and no later grant, look or grant-forever comes out otherwise for it |
| `Promises.ForeverSucceeds` | crates/fuse-server/src/state.rs:630-698 | grant-forever succeeds exactly on a pending with a hash whose secret is there, unless it expires between the last two clock readings |
| `Promises.ForeverRefusals` | crates/fuse-server/src/state.rs:634-697 | each refusal has its exact condition |
| `Promises.ForeverEffects` | crates/fuse-server/src/state.rs:658-698 | what it leaves in record and pending, the late refusal included |
| `Promises.RememberedDenialIsGrantable` | crates/fuse-server/src/state.rs:639-648 | a denial kept past its expiry can be granted forever, and its package reads from then on |
| `Promises.LateLookup` | crates/fuse-server/src/handler.rs:99-115 | what the late lookup finds is whitelisted, and why it found nothing is the refusal |
| `Promises.RecordAnswers` | crates/fuse-server/src/handler.rs:14-81 | what add, remove, rotate and reset answer, and the state that goes with each answer |
| `Promises.AnnouncedUnlessRefused` | crates/fuse-server/src/handler.rs:57-73 | data daemons are told of an add or remove exactly when it is not refused, and of nothing else |
| `Promises.PendingAnswers` | crates/fuse-server/src/handler.rs:87-123 | the same for grant, deny, grant-forever and list |
| `Promises.LockdownDirection` | crates/fuse-server/src/handler.rs:25-36 | arming refuses and files what would mismatch, disarming lets it mismatch; permitted reads and open streams are the same either way |
| `Overlap.RunMirrorsExactly` | crates/fuse-server/src/handler.rs:57-73 | after any run of overlapping handlers the log mirrors the state exactly when its last word on every name means what the last change to it announced |
| `Overlap.CalmRunsMirror` | crates/fuse-server/src/handler.rs:57-73 | while no request meets an owed announcement it contradicts, the log mirrors the state whenever nothing is owed |
| `Overlap.SafeUnlessClash` | crates/fuse-server/src/handler.rs:138-160 | at any such point a request leaves every order of the announcements mirroring the state if and only if it contradicts none that is owed |
| `Overlap.CrossedMirrors` | crates/fuse-server/src/handler.rs:66-73 | two requests announced crosswise keep the mirror exactly when they speak of different names or mean the same |
| `Overlap.AddRemoveCrossed` | crates/fuse-server/src/handler.rs:57-73 | an add and a remove announced crosswise break it, from every settled state |
| `DaemonRefines.AttemptRefines` | crates/fuse-server/src/state.rs:345-412 | the step under the record lock is the sequential read: same decision, record and pending |
| `DaemonRefines.OrderRefines` | crates/fuse-server/src/state.rs:258-523 | each step under the persist lock changes memory as the sequential add, remove, reset, rotate, lockdown or manual grant does |
| `DaemonRefines.ResetAllStarts` | crates/fuse-server/src/state.rs:479-484 | resetting everything sets out with every record still to do |
| `DaemonRefines.ResetAllRefines` | crates/fuse-server/src/state.rs:479-492 | resetting record by record ends as the sequential reset of all |
| `DaemonRefines.WalkStartsFaithful` | crates/fuse-server/src/policy_store.rs:276-282 | every snapshot starts with all records to do and the current lockdown flag |
| `DaemonRefines.SnapshotRefines` | crates/fuse-server/src/policy_store.rs:282-311 | an undisturbed snapshot lands as exactly the persisted part of the state |
| `DaemonRefines.DeskRefines` | crates/fuse-server/src/state.rs:577-720 | grant, deny, cleanup and late lookup on the desk are the sequential operations at the desk's time |
| `DaemonRefines.LooksRefine` | crates/fuse-server/src/oracle_service.rs:318-348 | the loop's three looks, each at its own time, decide by whether the pending is granted, the deadline past, the pending denied |
| `DaemonRefines.FirstAttemptLeads` | crates/fuse-server/src/oracle_service.rs:279-291 | where an ask goes from its first attempt |
| `DaemonRefines.ProbeLeadsToFiling` | crates/fuse-server/src/oracle_service.rs:291-316 | the second attempt always ends in a pending being filed |
| `DaemonRefines.FileRefines` | crates/fuse-server/src/oracle_service.rs:297-316 | that pending carries the ask's secret, process and hash, and the ask waits for it; with no timeout the ask ends |
| `DaemonRefines.ForeverRefines` | crates/fuse-server/src/state.rs:630-698 | the three parts of grant-forever at its three clock readings are the sequential grant-forever, late refusal included |
| `DaemonRefines.MarkRefines` | crates/fuse-server/src/state.rs:634-684 | the first part decides as the sequential one and changes the record only if it goes on |
| `DaemonRefines.SettleRefines` | crates/fuse-server/src/state.rs:689-697 | the last part grants a live pending, accepts a remembered denial and gives up on the rest |
| `DaemonShape.StepShape` | crates/fuse-server/src/state.rs:341-360 | one lock holder at a time, and every record a thread holds exists, kept by every step |
| `DaemonHistory.MarkedByName` | crates/fuse-server/src/state.rs:461-523 | the history calls a secret touched exactly by its reset, remove or grant-forever, and reopened exactly by a manual grant on its spent record without a stream |
| `DaemonHistory.LostByName` | crates/fuse-server/src/state.rs:689-696 | the disk is recorded as behind on a secret exactly after a failed grant-forever that had changed it, until the next write |
| `DaemonHistory.AnsweredByName` | crates/fuse-server/src/oracle_service.rs:279-282 | an answer is recorded exactly when a granted first attempt has persisted and answers |
| `DaemonHistory.CrashKeepsOnlyTheDisk` | crates/fuse-server/src/policy_store.rs:200-234 | a crash leaves the disk, and memory as it holds, without streams, pendings or locks |
| `DaemonDurability.StepDurable` | crates/fuse-server/src/policy_store.rs:261-311 | every step keeps each difference between disk and memory accounted for |
| `DaemonDurability.DifferencesAreOwed` | crates/fuse-server/src/state.rs:392-400 | in every run from every store disk and memory differ on a secret only while a mutator owes a write over it, after a failed grant-forever, or before the first write over a store without a salt |
| `DaemonDurability.QuiescentDiskIsMemory` | crates/fuse-server/src/policy_store.rs:187-198 | with nothing under way the disk equals memory on exactly the secrets neither a failed grant-forever nor an unsalted store has left behind, and on the lockdown flag unless it came armed from such a store |
| `DaemonDurability.QuiescentCrashLosesNothing` | crates/fuse-server/src/policy_store.rs:200-234 | a crash then loses nothing but live streams, on exactly those secrets |
| `DaemonBudget.StepBudgeted` | crates/fuse-server/src/state.rs:355-360 | at most one thread can claim a secret's first grant, kept by every step |
| `DaemonBudget.FirstGrantAtMostOnce` | crates/fuse-server/src/state.rs:341-401 | over every interleaving with crashes, an untouched secret answers its automatic first grant at most once, and from then on the store holds a non-zero count |
| `DaemonStream.StepFlowing` | crates/fuse-server/src/state.rs:347-361 | every step keeps all granted and answered bytes disjoint and behind the stream |
| `DaemonStream.NoByteAnsweredTwice` | crates/fuse-server/src/state.rs:347-401 | over every interleaving with crashes and manual grants, no two answered reads of a secret give out the same byte, unless it was reset, removed, grant-forevered, or opened again by a manual grant after a restart that found it spent |
| `DaemonAdmission.StepLetIn` | crates/fuse-server/src/state.rs:367-401 | every step keeps each stream and each answer with a process that was admitted |
| `DaemonAdmission.FirstAnswersWereListed` | crates/fuse-server/src/state.rs:367-401 | over every interleaving with crashes, an answered read that opened its stream was by a package listed when it was decided |
| `DaemonAdmission.AnsweredWereAdmitted` | crates/fuse-server/src/oracle_service.rs:279-328 | every automatic answer went to a process let in by the list, or by an operator through a live pending about that very secret |
| `DaemonGrants.StepStanding` | crates/fuse-server/src/state.rs:658-698 | an answered grant-forever is in memory, on disk and in every snapshot under way |
| `DaemonGrants.GrantForeverLasts` | crates/fuse-server/src/state.rs:347-401 | after grant-forever has answered, the package is granted for every pid and offset in every later world, across crashes |
| `DaemonGrants.FetchedReadIsGranted` | crates/fuse-server/src/state.rs:341-401 | a reader that looks the secret up after the answer is granted its read however late it gets to it, while the entitlement stands |
| `DaemonGrants.OnlyRotateOrRemoveEnds` | crates/fuse-server/src/state.rs:506-523 | only a rotation or removal of that secret ends it |
| `DaemonGrants.ForeverOrderMarks` | crates/fuse-server/src/state.rs:634-684 | under the lock it goes on exactly for a pending with a hash, expired or not, whose secret is there, and then the record admits the package |
| `DaemonGrants.ForeverOrderSettles` | crates/fuse-server/src/state.rs:689-697 | a pending found expired is settled whatever happens to it meanwhile, one found alive by whether it still is |
| `DaemonGrants.ListsStayDistinct` | crates/fuse-server/src/state.rs:275-294 | no permitted list ever holds a hash twice, in memory, snapshots or on disk |
| `DaemonGrants.RunsStayDistinct` | crates/fuse-server/src/policy_store.rs:200-234 | from a store without duplicates, in every world of every run |
| `DaemonRotation.StepRevoking` | crates/fuse-server/src/state.rs:506-523 | every step keeps rotations standing in memory, and answered ones on disk and in snapshots |
| `DaemonRotation.RotationStands` | crates/fuse-server/src/state.rs:506-523 | in every reachable world a rotated secret lists only the new package, and once answered so does the disk, across crashes |
| `DaemonRotation.RotatedReadsAreRefused` | crates/fuse-server/src/state.rs:363-412 | a read of it by another package is refused unless it goes on with its stream |
| `DaemonRotation.OnlyGrowingEnds` | crates/fuse-server/src/state.rs:275-294 | only an add, remove, grant-forever or another rotation of that secret ends it |
| `DaemonAsks.StepAsking` | crates/fuse-server/src/oracle_service.rs:304-348 | every step keeps pendings, ids and askers consistent |
| `DaemonAsks.LookDecides` | crates/fuse-server/src/oracle_service.rs:318-328 | an ended ask was let through exactly when its loop had seen its pending granted; that id had been granted before expiry and not denied when it was seen |
| `DaemonAsks.OneReadPerGrant` | crates/fuse-server/src/oracle_service.rs:319-323 | at most one read is recorded for an id, only after its grant was seen, and an ask is answered with its read exactly when it was recorded |
| `DaemonAsks.OneVerdictPerId` | crates/fuse-server/src/state.rs:549-575 | one asker per id and none once it is decided, one verdict per id that nothing changes, and no id is minted twice |
| `DaemonAsks.PollWins` | crates/fuse-server/src/state.rs:704-708 | the loop wins exactly when its pending has been granted, not denied, and has not expired |
| `DaemonAsks.DeadlineTimesOut` | crates/fuse-server/src/oracle_service.rs:333-336 | the loop times out exactly past its deadline, which is no earlier than the expiry |
| `DaemonAsks.DeniedOrExpired` | crates/fuse-server/src/state.rs:592-597 | the loop answers "denied" exactly when the pending has been denied or has expired |
| `DaemonAsks.DenyStopsUnlessWon` | crates/fuse-server/src/state.rs:700-702 | a deny stops its ask, however the process goes on, exactly when the loop has not yet seen the grant |
| `DaemonAsks.LoopEndsByDeadline` | crates/fuse-server/src/oracle_service.rs:317-348 | past the deadline no look wins and none goes back to the start: the loop ends within its round |
| `DaemonRaces.FailedForeverLeavesMemoryAhead` | crates/fuse-server/src/state.rs:689-696 | a run that leaves memory ahead of the disk with nothing under way |
| `DaemonRaces.DenyAfterTheDecidingPoll` | crates/fuse-server/src/oracle_service.rs:319-328 | a run in which a deny succeeds and the ask is allowed all the same |
| `DaemonRaces.ExpiryReportedAsDenial` | crates/fuse-server/src/oracle_service.rs:329-346 | a run in which an ask nobody denied is answered "denied" |
| `Paths.ComponentsOfJoin` | crates/fuse-mount/src/fs.rs:168-173 | joining ordinary components and taking the name apart gives them back |
| `Paths.ComponentsAgain` | crates/fuse-mount/src/fs.rs:247-247 | a name's joined components have the same components, for every name |
| `Tree.PruneRooted` | crates/fuse-mount/src/fs.rs:287-304 | pruning from any path keeps every node under a directory that lists it |
| `Tree.PruneTidy` | crates/fuse-mount/src/fs.rs:287-304 | pruning leaves no dangling child and no empty directory exactly when the walk up meets no special component |
| `Tree.PruneUndoesGrowing` | crates/fuse-mount/src/fs.rs:287-304 | pruning undoes growing a branch exactly when every created component is ordinary, stopping where the tree was before |
| `Tree.FileBelow` | crates/fuse-mount/src/fs.rs:995-1021 | every directory but an empty root leads to a file |
| `Mount.NumbersDistinct` | crates/fuse-mount/src/fs.rs:133-150 | two files never share an inode number |
| `Mount.SeenIsRecorded` | crates/fuse-mount/src/fs.rs:336-356 | a host file seen keeps its path's number exactly when it is the one that number stands for; otherwise the path gets a number nothing had, and nothing else changes |
| `Mount.ServeKeeps` | crates/fuse-mount/src/fs.rs:165-264 | serving any name keeps the store sound, a canonical one keeps it well formed |
| `Mount.ServeLabelsFiles` | crates/fuse-mount/src/fs.rs:245-263 | every file stays labelled unless a new file's label was taken |
| `Mount.RemoveKeeps` | crates/fuse-mount/src/fs.rs:272-305 | removing any name keeps the store sound, and tidy exactly when the walk is not cut short |
| `Mount.RemoveCanonical` | crates/fuse-mount/src/fs.rs:272-305 | removing a canonical name keeps the store well formed and every file labelled |
| `Mount.RemoveUndoesServe` | crates/fuse-mount/src/fs.rs:165-305 | for any name that is no served file, removing after serving restores tree, labels and identities exactly under the stated condition, refusals included |
| `Mount.RemoveUndoesCanonicalServe` | crates/fuse-mount/src/fs.rs:165-305 | for canonical names it always does |
| `Mount.DoubledSlashKeepsLabel` | crates/fuse-mount/src/fs.rs:245-286 | `a//b` is filed under `a/b`, and removing it leaves that label |
| `Mount.DotsKeepDirectories` | crates/fuse-mount/src/fs.rs:287-304 | removing `a/..` leaves directories behind |
| `Store.Store.constructor` | crates/fuse-mount/src/fs.rs:113-127 | the empty store is well formed |
| `Store.Store.MintFino` | crates/fuse-mount/src/fs.rs:133-150 | the next number with its record; in a numbered store it was in no table before |
| `Store.Store.MakeParents` | crates/fuse-mount/src/fs.rs:182-210 | refused exactly when a file is on the way, and then nothing has changed; otherwise every directory is in place and listed |
| `Store.Store.Place` | crates/fuse-mount/src/fs.rs:182-244 | the refusals before the label, and the file with its number kept or minted |
| `Store.Store.Link` | crates/fuse-mount/src/fs.rs:245-263 | a taken label is refused, otherwise the pairing replaces the old one |
| `Store.Store.Serve` | crates/fuse-mount/src/fs.rs:165-264 | the whole serve, all four refusals included |
| `Store.Store.PruneUp` | crates/fuse-mount/src/fs.rs:287-304 | the loop over ancestors terminates and prunes as specified |
| `Store.Store.RemoveSecret` | crates/fuse-mount/src/fs.rs:272-305 | the whole remove |
| `Store.Store.Observe` | crates/fuse-mount/src/fs.rs:336-356 | the same identity keeps the number, another one mints a new number recorded under it |
| `Store.Store.Child` | crates/fuse-mount/src/fs.rs:308-324 | a label under the root names its file's number, anything else nothing |
| `Store.Store.ApplyCommand` | crates/fuse-mount/src/fs.rs:866-874 | one control command |
| `Identity.Mounted.Open` | crates/fuse-mount/src/fs.rs:682-730 | an open succeeds exactly when read-only, allowed, the answer arrives whole, and the file found is regular and the one the number was minted for |
| `Identity.Mounted.GetAttr` | crates/fuse-mount/src/fs.rs:627-680 | a stat without a descriptor shows the file a number was minted for, or nothing |
| `Identity.Mounted.Lookup` | crates/fuse-mount/src/fs.rs:580-625 | a lookup answers a number recorded with the identity that is there now, or changes nothing |
| `Identity.RanKeeps` | crates/fuse-mount/src/fs.rs:133-150 | over every run numbers only disappear or are new; their records never change |
| `Identity.OneNumberOneFile` | crates/fuse-mount/src/fs.rs:688-712 | all successful opens through a number yield descriptors of one host file, under one path |
| `Identity.GhostsNeverOpen` | crates/fuse-mount/src/fs.rs:702-708 | a number minted without an identity never opens |
| `Identity.FailuresByCause` | crates/fuse-mount/src/fs.rs:682-730 | the error number of each failed open, by its cause |
| `Identity.NumbersNeverReturn` | crates/fuse-mount/src/fs.rs:133-150 | a number that is gone is never handed out again |
| `Identity.ReplacedIsStale` | crates/fuse-server/src/oracle_service.rs:227-243 | once another file has taken the path, the old number is refused as stale and the new one opens |
| `Replay.RefusedIsContested` | crates/fuse-mount/src/fs.rs:182-233 | a canonical name is refused exactly when a served name lies inside or around it |
| `Replay.ServeMinds` | crates/fuse-mount/src/fs.rs:165-264 | in any canonical name space with own labels a contested serve is refused and any other sets just its name |
| `Replay.ServeRefines` | crates/fuse-mount/src/fs.rs:165-264 | with no name inside another a serve is never refused |
| `Replay.WithdrawRefines` | crates/fuse-mount/src/fs.rs:272-305 | a remove takes just that name |
| `Replay.StoreMindsMap` | crates/fuse-mount/src/fs.rs:857-880 | after any run over any canonical name space the store serves what the commands say, contested serves being refused |
| `Replay.StoreRefinesMap` | crates/fuse-mount/src/fs.rs:857-880 | with no name inside another it serves what folding the commands says |
| `Replay.ReconnectConverges` | crates/fuse-server/src/oracle_service.rs:397-402 | a daemon told any earlier pieces and then the whole log serves what a fresh one serves |
| `Replay.PrefixConverges` | crates/fuse-server/src/oracle_service.rs:397-402 | in particular after any prefix of the log |
| `Replay.ReachableWellFormed` | crates/fuse-mount/src/fs.rs:995-1021 | every reachable store is well formed when names are canonical |
| `Replay.StaleNamesRemain` | crates/fuse-server/src/oracle_service.rs:397-402 | beyond a log, a daemon keeps exactly the names it held that the log never mentions |
| `Nested.PairedConverges` | crates/fuse-mount/src/fs.rs:182-233 | with every name inside or around at most one other, telling a prefix and then the whole log comes to the whole log |
| `Nested.ForkDiverges` | crates/fuse-mount/src/fs.rs:182-233 | two unrelated names inside a third: a log whose second telling also serves what the first refused |
| `Nested.ChainDiverges` | crates/fuse-mount/src/fs.rs:182-233 | three names inside one another: a log whose second telling loses a name |
| `Nested.ConvergesExactly` | crates/fuse-server/src/oracle_service.rs:397-402 | in a canonical name space every reconnect converges if and only if no name is inside or around two others |
| `EndToEnd.TurnsMirrored` | crates/fuse-server/src/handler.rs:14-133 | over any run of requests the log mirrors the policy state under one salt |
| `EndToEnd.DaemonsAgree` | crates/fuse-server/src/oracle_service.rs:397-402 | with no name inside another, after any run of requests a reconnecting data daemon serves exactly the policy daemon's secrets, names and modes |
| `EndToEnd.DaemonsMind` | crates/fuse-mount/src/fs.rs:857-880 | with any canonical names it serves what it was told with contested serves refused: some of the secrets, each as it is, and no two inside one another |
| `Collapse.SegmentsExact` | crates/fuse-protocol/src/protocol.rs:144-169 | filling the gaps recovers the path, and a component is shown exactly when it is last or names share everything before it and differ in it |
| `Collapse.SegmentsUnique` | crates/fuse-protocol/src/protocol.rs:144-169 | there is only one way to cut a path into shown components and maximal gaps |
| `Collapse.CollapseTrie.Insert` | crates/fuse-protocol/src/protocol.rs:133-141 | the trie has a node for every prefix of an inserted name and no other, and marks the names |
| `Collapse.CollapseTrie.Descend` | crates/fuse-protocol/src/protocol.rs:148-151 | the render lookup never fails, and a node has several children exactly where names branch |
| `Collapse.CollapseTrie.Render` | crates/fuse-protocol/src/protocol.rs:144-169 | the loop draws the segments |
| `Collapse.CollapsePaths` | crates/fuse-protocol/src/protocol.rs:172-187 | each different path once, in the order it first comes in, drawn against all; without repeats the k-th text is the k-th path's |
| `Collapse.LoneName` | crates/fuse-protocol/src/protocol.rs:144-169 | a path on its own is shown by its last component, behind dots for all the others |
| `Collapse.LookAlike` | crates/fuse-protocol/src/protocol.rs:144-169 | two different names are shown alike exactly when one hides the other |
| `Collapse.PrefixFreeAllDiffer` | crates/fuse-protocol/src/protocol.rs:172-187 | with no name inside another all are shown differently |
| `Collapse.NestedPairLooksAlike` | crates/fuse-protocol/src/protocol.rs:144-187 | `a/b` and `a/b/b` are shown alike |
| `Panel.SyncSlots` | crates/fuse-client/src/pending_layer.rs:204-223 | the two in-place passes compute the specified lines |
| `Panel.SyncKeepsOrder` | crates/fuse-client/src/pending_layer.rs:198-223 | pending requests keep their line with fresh data, only pending ones are shown, none twice, and one is hidden only when all lines are taken |
| `Panel.ClaimsFromTheTop` | crates/fuse-client/src/pending_layer.rs:214-222 | new requests fill the free lines from the top |
| `Panel.SyncIdempotent` | crates/fuse-client/src/pending_layer.rs:204-223 | the same snapshot again changes nothing |
| `Panel.LiveBelow` | crates/fuse-client/src/pending_layer.rs:234-242 | the live lines, each once, from the top |
| `Panel.TraversedLines` | crates/fuse-client/src/pending_layer.rs:234-242 | the arrows go over exactly the lines whose request's decision is not under way |
| `Panel.UpUndoesDown` | crates/fuse-client/src/pending_layer.rs:266-319 | up undoes down exactly when nothing is live, from the all-row, or from a live row unless Forever leaves the last one |
| `Panel.DownUndoesUp` | crates/fuse-client/src/pending_layer.rs:266-319 | the same the other way, with the first live row |
| `Panel.DownsTour` | crates/fuse-client/src/pending_layer.rs:300-319 | from the all-row the k-th down is on the k-th live row, and the one after the last returns |
| `Panel.UpsTour` | crates/fuse-client/src/pending_layer.rs:266-291 | ups make the same tour from the bottom |
| `Panel.TourMeetsEachOnce` | crates/fuse-client/src/pending_layer.rs:300-319 | the tour meets every live row exactly once |
| `Panel.NothingLiveStays` | crates/fuse-client/src/pending_layer.rs:266-305 | with nothing live the arrows do nothing |
| `Panel.StrandedGoesTop` | crates/fuse-client/src/pending_layer.rs:266-319 | from a row that is no longer live either arrow goes to the topmost live row |
| `Panel.CursorAfterAction` | crates/fuse-client/src/pending_layer.rs:247-257 | the next occupied line below, wrapping, or the all-row |

## Left out

- Server.SecretRecord.Attempt: the read count is unbounded here, while the source's 64-bit counter would wrap after 2^64 grants.
- Handler.HandleCommand: status, mount, map, log-path and version queries, and the text of the pending list and of error messages, are not modelled.
- Handler.Load: the size bound on the file counts as unparsable; renaming a corrupt file aside, JSON and the fsync-and-rename sequence are represented by what reading and replacing the file give.
- Identity.Mounted.GetAttr: the branch that asks an open descriptor for its own metadata, and a failed connection for the stat, are not modelled.
- DaemonStream.NoByteAnsweredTwice: says that answered bytes are disjoint, not in which order they reach their readers, because threads reading for one process may answer out of the order of their grants.
- DaemonAsks.OneVerdictPerId: ids are unique within one process; the counter starts over after a restart, when all pendings are gone too.
- Failed writes of the store, poisoned mutexes and thread panics.
- Sockets, JSON framing, descriptor passing, `/proc` inspection, hashd, mounting, signals and process control.
- SHA-256 itself: the anonymiser is a parameter.
- Directory listing order, `..` entries, block statistics and file attributes other than identity and mode.
- The raw spelling of a path in an inode record: the model keeps its components, which name the same file.
- The stat connection between lookup and the policy daemon: its answer is an input of `Lookup`, so a command may come between lookup and answer in the source; `Identity.Ran` allows any such order.
- Panel rendering, mouse handling, colours, widths and button activation.
