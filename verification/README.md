# Power Manage SDK: verified models

Dafny models of the parts of the Power Manage SDK that are state machines, decision procedures or encodings,
and proofs of what they promise. Each module follows one component of the Go code, branch by branch.

| module | component | main results |
|---|---|---|
| `StreamClient`, `StreamClientProofs`, `StreamClientProgress`, `StreamClientTeardown`, `StreamClientRecovery`, `StreamClientOutcomes`, `StreamClientQueue`, `StreamClientLinks` | the agent stream client: send slot, pending requests, receive loop, delivery worker, `Close` | `SendsAreSerial`, `RequestsAreAnswered`, `ReceiptsAreDurable`, `OutcomesAreTrue`, `DeliveriesAreKept`, `OldStreamsStayOld`, `EndedContextLeavesOnlyTheCleared` over every interleaving; `QueuedCanBeHandled`, `SlotComesFree`, `DeliveryCanBeReceipted`, `RequestCanBeAnswered`, `CancelLeavesOnlyTheCleared`, `TeardownFinishes`, `EveryDeliveryCanBeReceipted` |
| `GrepGuard`, `GrepGuardProofs` | the structural guard for grep patterns | `ScanDecidesTree`, `GuardMatchesDocumentation` |
| `SafeReplace` | crash-safe file replacement and backup | `NeverTorn`, `OriginalUntilRenamed`, `Kernel.SafeReplaceFile`, `Kernel.SafeBackupAndReplace` |
| `CertSwap` | the staged EAP-TLS certificate swap | `Directories.StagedModify`, `InstallsExactlyTheProfile` |
| `RemoveDir`, `RemoveRace` | handle-anchored recursive removal, alone and with other processes interfering | `FileSystem.RemoveDirSecure`, `RemovalsAreAnchored`, `SuccessMeansRemoved` |
| `Prune` | pruning a tree to a set of files | `Destination.PruneTo` |
| `Pacman`, `PacmanFile`, `PacmanReading` | pinning packages through `IgnorePkg` | `HistoryIsFold`, `PinnedMeaning`, `EditTakesEffect`, `EditKeepsFile`, `RewriteStableExactly` |
| `Maintenance` | maintenance windows | `AllowsIsArcs`, `AllowedMinutes`, `Union` |
| `TreeDigest` | the byte stream a tree digest hashes | `DigestInputIsTheTree` |
| `FieldContext` | the authenticated context of a sealed field | `DecodeEncode`, `ContextsNeverCollide` |
| `NmcliEscape` | undoing nmcli's escaping | `PassesDecodeExactly`, `RoundTrip` |
| `SessionRefresh`, `SessionRefreshRuns` | refreshing a CLI session under a file lock | `TokensNeverReplayed`, `OneRefreshForAll`, `SessionsAreObtained`, `TriedAtMostTwice` |
| `OutputCapture` | bounded output capture | `FitIsLongest`, `Recorder.Capture`, `CappedHoldsPrefix` |
| `Firewalld` | firewalld rules as service files | `XmlRoundTrip`, `ListIsLatest`, `ListIsLatestDespiteOthers` |
| `Text` | the Go string functions the others call | `AtoiDecimal`, `FieldsOfJoin` |

`dafny verify dfyconfig.toml` checks everything.

## How the code is modelled

Concurrent protocols (`StreamClient`, `SessionRefresh`, `RemoveRace`) are step machines. A step is one region the code makes
atomic by a lock, a channel operation or a system call, and its label holds every choice of the environment:
frames, errors, panics, contexts ending, what a handler does. A run is any list of enabled labels, so a
theorem about all runs covers all interleavings.

Code that changes files or runs commands is a class whose methods are the calls. Which calls fail for a reason of
the host's own is a parameter, usually the set `fails`, so a contract can say exactly when an operation succeeds
and what each failure may leave behind; what a failed call did before it failed is left open. A ghost `trace`
records the state after each call, and a claim about the trace is a claim about every moment, including a crash
there.

Loops are loops: every method that the Go code writes as a loop is one here, proved equal to a function whose
own properties are then lemmas.

Text is a sequence of characters with one character for one byte of the Go string.

## Where a promise holds only under a condition

- The grep guard parses repeat bounds with `strconv.Atoi`. A bound that does not fit an `int` is not a repeat to it, although its comments mention no limit. `GuardMatchesDocumentation` gives the exact condition and `OversizedBoundIsNotARepeat` a pattern.
- The receive loop looks a channel up under the lock and sends on it without. It meets a closed channel exactly if another goroutine's `Close` swept that channel in between (`RequestsAreAnswered`, `ClosedExactlyIfSwept`); `ForeignCloseCanRace` is such a run, and the recover in the dispatcher drops the frame.
- The comment on the delivery worker says queued deliveries are skipped once the connection goes down. The worker reads its context before it calls the handler and not again, so the one delivery it has cleared when the context is cancelled is still handled, and no other (`CancelLeavesOnlyTheCleared`); `HandledAfterCancel` is such a run.
- A refresh token is replayed exactly if a refresh is made after granted tokens were lost (`TokensNeverReplayed`); `DroppedTokensAreReplayed` is such a run.
- The certificate swap installs exactly the profile's files if and only if a stale staging directory held no other file names (`InstallsExactlyTheProfile`). If no call fails it succeeds if and only if no non-empty `.old` stands in the way of a live directory, and a live directory is missing afterwards only if both the install and the rollback failed (`Directories.StagedModify`); a swap whose last deletion failed leaves such a one behind, and the next cannot succeed (`FailedCleanupBlocks`, `Directories.SwapAgain`).
- The comment on `safeBackupAndReplace` says a crash at any point leaves the original content. That holds exactly until the rename (`OriginalUntilRenamed`); `CrashAfterRename` is a crash that finds the new content.
- With the backup in another directory than the target, no crash finds the new target without the backup exactly if the backup was durable first (`BackupElsewhere`). The sync of its directory makes it so (`Kernel.SafeBackupAndReplace`); if that sync fails the code goes on, every earlier listing may still come back (`Kernel.SafeReplaceFile`), and the backup is durable only if it was before (`UnsyncedBackupMayBeLost`); `BackupLostApart` is a crash that finds the new target and no backup.
- Pinning takes effect if the scanner delivers an IgnorePkg line or an `[options]` line and the directive fits the scanner's buffer; otherwise the call succeeds, nothing is pinned, and what was pinned before is lost (`EditTakesEffect`).
- Rewriting with the same list again changes nothing exactly under the condition of `RewriteStableExactly`; `SecondRewriteChanges` is a file with a doubled carriage return that it does change.
- Rewriting `pacman.conf` keeps its other lines if and only if none ends in a carriage return and no line up to the last of them reaches the scanner's limit, because the scanner's error is ignored (`EditKeepsFile`); `UnpinEmptiesFile` is a file that ends up empty.
- nmcli unescaping is exact if and only if the text has no NUL (`PassesDecodeExactly`, `RoundTrip`).
- The comment on `parseRange` lets a start equal to the end stand for an empty range; the code rejects it, and so does the model (`RangeRoundTrip`).

## Model

| member | source | states |
|---|---|---|
| StreamClientProofs.SlotStep | client.go:613-654 | every step keeps the slot's occupancy equal to the number of calls and goroutines between acquire and release, at most one |
| StreamClientProofs.OneSendInFlight | client.go:636-653 | two goroutines inside stream.Send are the same goroutine, even when the first one's caller has returned on its context |
| StreamClientProofs.SendsAreSerial | client.go:613-654 | in every state of every run of any number of callers at most one stream.Send is in flight |
| StreamClientProofs.PendingStep | client.go:970-1053 | every step keeps the pending map and the channels consistent: pending channels are open, hold at most one message, and every waiter is either registered on a live stream or has an answer or a closed channel |
| StreamClientProofs.RequestsAreAnswered | client.go:814-852 | in every run a caller only ever takes a response with its own id and no channel holds two; a caller on an open empty channel is registered and has sent on the present stream, so with no stream no waiter is stuck; and the loop is about to send on a closed channel exactly if another goroutine closed it since the lookup |
| StreamClientProofs.ClosedExactlyIfSwept | client.go:999-1053 | from a lookup on, through any later stream, the channel is closed exactly if some Close swept it while its request was pending |
| StreamClientProofs.ForeignCloseCanRace | client.go:999-1011 | a run in which a second closer comes between lookup and send, so that case does occur |
| StreamClientProofs.QueueStep | client.go:1189-1215 | every step keeps handled, picked and queued deliveries strictly in the order received and the queue within its bound; that none is lost otherwise is `DeliveriesAreKept` |
| StreamClientProofs.ReceiptStep | client.go:1357-1381 | every step keeps each receipt, on the wire or on its way there, behind a nil return of the handler for the same delivery |
| StreamClientProofs.RunKeepsInv | client.go:1083-1253 | all four invariants hold in every state of every run, across reconnects, errors, panics and teardown |
| StreamClientProofs.ReceiptsAreDurable | client.go:484-497 | in every run: queue at most 256, handled is an in-order subsequence of received, receipts only after nil returns, and if the handler keeps its contract everything receipted is durable, so anything not durable is still redelivered |
| StreamClientProgress.SlotComesFree | client.go:636-646 | whenever the slot is taken its holder can give it back by at most four steps of its own, with or without its caller |
| StreamClientProgress.SendGoesThrough | client.go:613-654 | on a live stream with the slot free, a call reaches the wire, reports success and leaves the slot free and everything else as it was; that a reported result is the one of its own send, in every run, is `OutcomesAreTrue` |
| StreamClientProgress.QueuedGoesThrough | client.go:613-654 | a call waiting for a free slot makes its send on the stream it has read, even if that has been closed or replaced, and is told what the send returned; a receipt may be on the wire although the send failed |
| StreamClientProgress.DeliveryCanBeReceipted | client.go:1357-1381 | while Run serves, any outstanding delivery can be handled, recorded and receipted, with exactly those two entries added to the log in that order |
| StreamClientProgress.RequestCanBeAnswered | client.go:814-852 | while Run loops, a new request can be sent and answered, its caller gets that very response, and neither its registration nor the response is left behind |
| StreamClientTeardown.TeardownStep | client.go:1208-1215 | every step keeps the context cancelled and the queue closed by the time Run waits, and the worker's receipt call known |
| StreamClientTeardown.CommittedStep | client.go:1198-1206 | while Run waits, every step keeps the deliveries that are handled or bound to be; a handler call only turns the cleared one into a handled one |
| StreamClientTeardown.CancelLeavesOnlyTheCleared | client.go:1198-1215 | in every run, from the cancel to the join only the delivery cleared at the cancel is still handled: one if there is one, else none |
| StreamClientTeardown.HandledAfterCancel | client.go:1202-1212 | a run in which the handler is called after the cancel |
| StreamClientTeardown.CallsCanReturn | client.go:613-654 | in every run a call can return from wherever it stands, by giving up on its context, whatever the peer does and whoever holds the lock |
| StreamClientTeardown.LockComesFree | client.go:1032-1053 | whoever holds the lock in Close can finish, and leaves calls, worker and deliveries alone |
| StreamClientTeardown.QueueDropped | client.go:1196-1206 | once the caller's or the worker's context has ended, the worker can drop a queue of any length without calling the handler |
| StreamClientTeardown.WorkerDrains | client.go:1196-1206 | the worker can empty a closed queue of any length without calling the handler, and exits |
| StreamClientTeardown.TeardownFinishes | client.go:1208-1215 | in every run, when Run waits for the worker, whoever holds the lock, there is a continuation in which Run ends, the stream is closed and nothing but a delivery cleared before was handled |
| StreamClientRecovery.GoesDown | client.go:1032-1053 | from every reachable state, whoever holds the lock, Run can end and the client be closed |
| StreamClientRecovery.ServesAgain | client.go:587-599 | from every reachable state the client can be connected again with the send slot free and the worker idle, and no issued delivery is forgotten |
| StreamClientRecovery.EveryDeliveryCanBeReceipted | client.go:484-497 | from every state of every run, whatever failed before, any issued delivery can still be recorded and receipted |
| StreamClientOutcomes.OutcomeStep | client.go:613-654 | after any step an outcome of a call is one it had, or has its reason in that very step and state |
| StreamClientOutcomes.ResultsAreReturned | client.go:636-653 | in every run a result that a send goroutine hands on is what its own stream.Send returned |
| StreamClientOutcomes.OutcomesAreTrue | client.go:613-654 | in every run: sent is reported only after the call's own stream.Send returned nil, a failure only after it returned an error, cancelled only when the call saw its context end, not connected only when it read no stream, and a response or a closed stream only from its own channel after a successful send |
| StreamClientQueue.AccountsStep | client.go:1189-1206 | every step keeps each delivery it does not give up handled, in the worker's hand or queued, and gives one up only at a full queue or by a skip with a context done |
| StreamClientQueue.DeliveriesAreKept | client.go:1411-1442 | in every run a delivery that was dispatched is handled, in hand or queued exactly if it was not given up, which happens only at a queue of 256 or by a skip with a context done |
| StreamClientQueue.QueuedCanBeHandled | client.go:1198-1206 | in every run a queued delivery can still be handled while no context is done, whatever is before it and whoever holds the lock |
| StreamClientLinks.StreamStep | client.go:587-599 | only a connect opens a stream, always one never used before, and no other step makes a call or a send work on a stream that was neither in use nor present |
| StreamClientLinks.OldStreamsStayOld | client.go:613-654 | in every run, once a reconnect has happened, no call or send that was under way before it is ever on the present stream |
| StreamClientLinks.EndedContextLeavesOnlyTheCleared | client.go:1198-1206 | in every run, from the end of the caller's context to the next connection only the delivery cleared at that moment is still handled |
| StreamClientLinks.ContractMeaning | client.go:484-497 | the handler counts as having kept its contract exactly if each delivery it returned nil for was on record by then |
| GrepGuard.IsPathologicalGrepPattern | sys/log/grepguard.go:34-140 | the two loops terminate on every text, keep the depth equal to the stack's height, and return the scan's verdict |
| GrepGuard.WalkStep | sys/log/grepguard.go:66-138 | one iteration consumes at least one byte, keeps depth and stack in step, and takes the walk to its continuation |
| GrepGuard.CloseGroup | sys/log/grepguard.go:78-121 | closing a group gives the verdict on it and passes its marks on to the group around it |
| GrepGuard.CountLoop | sys/log/grepguard.go:37-52 | the first pass returns the number of unbounded quantifiers in the text |
| GrepGuardProofs.ContainsMeansCounts | sys/log/grepguard.go:26-33 | a tree contains an unbounded quantifier exactly if it counts one, and contains alternation exactly if it is flagged |
| GrepGuardProofs.FirstViolationFindsAny | sys/log/grepguard.go:97-121 | the left-to-right search for a violation finds one exactly if some subterm, at any depth, is a backtracking one |
| GrepGuardProofs.QuantifierToken | sys/log/grepguard.go:148-198 | every printed quantifier is consumed as one token that counts and marks exactly if it is unbounded |
| GrepGuardProofs.CloseBeforeQuantifier | sys/log/grepguard.go:97-121 | the verdict at a closing parenthesis follows from the quantifier printed behind it and the group's marks, in the code's order of precedence |
| GrepGuardProofs.CountOnPrint | sys/log/grepguard.go:37-52 | the counting pass over a printed tree counts the tree's unbounded quantifiers, whatever follows |
| GrepGuardProofs.WalkOnPrint | sys/log/grepguard.go:59-138 | walking a printed tree stops with the tree's first violation or reaches what follows with the open groups marked for it |
| GrepGuardProofs.ScanDecidesTree | sys/log/grepguard.go:34-140 | for every tree without character classes the scanner's verdict on the printed pattern, reason included, is the one the tree defines, and it rejects exactly the pathological trees |
| GrepGuardProofs.SixAreTooMany | sys/log/grepguard.go:37-57 | the scanner gives the too-many reason exactly for trees with six or more unbounded quantifiers |
| GrepGuardProofs.RowOfStars | sys/log/grepguard.go:37-57 | a row of starred letters is accepted exactly up to five of them |
| GrepGuardProofs.GuardMatchesDocumentation | sys/log/grepguard.go:26-120 | the guard agrees with the rules in its comments exactly on trees without a repeat bound beyond int, or that another of those rules refuses anyway |
| GrepGuardProofs.OversizedBoundIsNotARepeat | sys/log/grepguard.go:148-179 | a pattern the documented rules reject and the guard lets through |
| SafeReplace.StageMeaning | sys/fs/safe_replace.go:40-94 | in every stage of a replacement each other path shows and may recover only what it could before, and the target only that or the new content |
| SafeReplace.StageRename | sys/fs/safe_rename_linux.go:28-59 | renaming a synced temp file over the target keeps every listing that may survive a crash complete |
| SafeReplace.NeverTorn | sys/fs/safe_replace.go:40-94 | after a crash in any stage the target is the complete old or the complete new content, and present if it was |
| SafeReplace.ErrorChangesNothing | sys/fs/safe_replace.go:40-94 | as long as the new file is not linked, the target reads as before and a crash can only bring back what it could before |
| SafeReplace.OriginalUntilRenamed | sys/fs/safe_replace.go:104-110 | a crash is certain to find the original content exactly as long as the new file has not been renamed over it |
| SafeReplace.CrashAfterRename | sys/fs/safe_replace.go:85-88 | a replacement and a crash right after its rename that finds the new content |
| SafeReplace.Kernel.SafeRename | sys/fs/safe_rename_linux.go:28-59 | succeeds exactly if the rename does and, without leave to replace, the name is free and can be checked, and is then one rename; failure changes nothing |
| SafeReplace.Kernel.SafeReplaceFile | sys/fs/safe_replace.go:40-94 | every intermediate disk is crash-safe; it succeeds exactly if no call on the way to the rename fails, the temporary name is free and the target is absent or may be replaced; success shows the new content, durably if the directory sync worked; an error leaves the target as it was; a temp file stays only if deleting it failed |
| SafeReplace.Kernel.SafeBackupAndReplace | sys/fs/safe_replace.go:115-151 | at every moment at which the new content is visible the backup holds the old; a crash that brings back the new target brings back the backup, in one directory always and anywhere else if the backup directory could be synced; an error leaves the target unchanged; success has both in place, each durable if its directory could be synced; the exact condition for success |
| SafeReplace.Kernel.CopyThenReplace | sys/fs/safe_replace.go:139-150 | the part behind reading the current file, with the same guarantees, its exact content at target and backup and its exact condition for success |
| SafeReplace.TracedCrashSafe | sys/fs/safe_replace.go:40-94 | a trace made of stages is crash-safe at every index |
| SafeReplace.BackupPhase | sys/fs/safe_replace.go:139-149 | writing the backup never disturbs the target |
| SafeReplace.ReplacePhase | sys/fs/safe_replace.go:147-150 | once the backup is linked, replacing the target keeps the backup rule at every step |
| SafeReplace.CrashKeepsBackup | sys/fs/safe_replace.go:115-151 | with both in one directory, a crash that brings back the new target brings back the backup with the old content |
| SafeReplace.BackupElsewhere | sys/fs/safe_replace.go:147-150 | with the backup in another directory, no crash finds the new target without it exactly if it was durable before the replacement began |
| SafeReplace.UnsyncedBackupMayBeLost | sys/fs/safe_replace.go:89-92 | a replacement whose directory sync failed is durable only if the target already was, with that content; `Kernel.SafeReplaceFile` gives its premise for every such call |
| SafeReplace.BackupLost | sys/fs/safe_replace.go:147-150 | wherever there was no backup before, an unsynced backup in another directory and a replacement leave a crash that finds the new target and no backup |
| SafeReplace.BackupLostApart | sys/fs/safe_replace.go:147-150 | a concrete disk on which that happens |
| CertSwap.Directories.WriteCerts | sys/network/certs.go:13-36 | succeeds exactly if the directory can be made and each non-empty certificate written, and then has staged each of them over what the directory held; live and backup are untouched at every step |
| CertSwap.Directories.StagedModify | sys/network/networkmanager.go:175-219 | every intermediate state has the complete old certificates in live or in .old, or the complete new ones in live; live is missing at the end only if install and rollback both failed, and once the backup was made exactly then, with .old intact, so no single failure loses it; any other error leaves live as it was unless only deleting the backup failed; the staging directory stays only if deleting it failed; if no rename or deletion fails it succeeds exactly if no stale backup is in the way, and with one and files in live it never does |
| CertSwap.Directories.Swap | sys/network/networkmanager.go:190-218 | the renames after nmcli succeeded, with the same guarantees from the staged state on |
| CertSwap.Directories.SwapAgain | sys/network/networkmanager.go:190-218 | a swap that leaves files in live and in .old makes the next one fail and leave both as they are |
| CertSwap.FailedCleanupBlocks | sys/network/networkmanager.go:210-217 | a swap in which only the last deletion fails leaves exactly such a state |
| CertSwap.InstallsExactlyTheProfile | sys/network/certs.go:13-36 | what is installed is exactly the profile's set if and only if every stale staged file name is one the profile writes |
| CertSwap.NewCertsAreTheProfile | sys/network/certs.go:18-26 | each certificate is installed whole under its own name exactly if it is not empty, and nothing else is |
| RemoveDir.FileSystem.RemoveAtRecursive | sys/fs/remove_dir_unix.go:89-136 | terminates, changes only the named entry and what is below it through real directories, and on success the entry is gone; it fails only if the name is absent or some call on the entry or in its tree fails |
| RemoveDir.FileSystem.RemoveChildren | sys/fs/remove_dir_unix.go:107-131 | empties a directory and touches nothing outside its tree; it fails only if some call in that tree fails |
| RemoveDir.FileSystem.OpenNoFollowChain | sys/fs/remove_dir_unix.go:60-84 | returns a handle exactly if every component is a real directory entry that can be opened, and then for the directory these lead to |
| RemoveDir.FileSystem.RemoveDirSecure | sys/fs/remove_dir_unix.go:31-55 | whatever fails, of the parent's entries only the target can go, and elsewhere only entries inside the target's real tree; directories behind symbolic links keep theirs; success means a real target is gone and its whole tree was emptied; on a real target it fails only if a call on the way or in its tree does |
| RemoveDir.TreeEmptied | sys/fs/remove_dir_unix.go:89-136 | if removals that never leave a subdirectory full have emptied the root, every directory of its tree is empty |
| RemoveDir.WalkPruned | sys/fs/remove_dir_unix.go:60-84 | removal never makes a path lead to another directory |
| RemoveRace.RemovalsAreAnchored | sys/fs/remove_dir_unix.go:31-136 | in every run, whatever other processes change between any two calls, each removal takes one entry, the target or one below it, from a directory reached from the root through the path by handles, each of which was a real directory entry of the one before when it was opened |
| RemoveRace.OpensWereReal | sys/fs/remove_dir_unix.go:60-84 | every handle was opened at a moment when its entry was a real directory, never through a link |
| RemoveRace.RunKeepsInv | sys/fs/remove_dir_unix.go:89-136 | every activation works on a handle reached by names along the path, at the target or below it, in every state of every run |
| RemoveRace.SuccessMeansRemoved | sys/fs/remove_dir_unix.go:31-136 | in every run, whatever others do, success is reported only after the removal itself has removed the target's entry from a directory reached by the path's own names |
| RemoveRace.RemovesTheLinkOnly | sys/fs/remove_dir_unix.go:98-134 | a run that removes a target with a link in it and leaves what the link points to |
| Prune.SortedFalls | sys/remote/prune.go:87-89 | the sort permutes the directories into falling length |
| Prune.LengthGrows | sys/remote/prune.go:87-89 | an entry's path is longer than that of any directory above it, so children come first |
| Prune.TurnComes | sys/remote/prune.go:90-103 | when a directory's turn comes it is non-empty exactly if a kept file lies below it |
| Prune.Destination.Collect | sys/remote/prune.go:37-78 | the victims are exactly the leaves not kept and the directories exactly the directories; it succeeds exactly if the destination and every entry can be looked at |
| Prune.Destination.RemoveVictims | sys/remote/prune.go:80-85 | success leaves only kept leaves, and comes exactly if every victim can be deleted; no directory and no kept leaf is lost in any case |
| Prune.Destination.RemoveDirectories | sys/remote/prune.go:87-103 | success leaves exactly the directories with a kept file below them, and comes exactly if no directory's deletion fails for another reason than being full |
| Prune.Destination.PruneTo | sys/remote/prune.go:33-105 | success: a leaf survives exactly if it is kept, a directory exactly if it has a survivor below; it succeeds exactly if everything can be looked at and nothing it tries to delete fails; even an error loses no kept leaf |
| Maintenance.ParseClockIs | maintenance/window.go:198-221 | the texts accepted and the minute each means, both directions |
| Maintenance.ClockRoundTrip | maintenance/window.go:198-221 | parsing and formatting clock times are inverse: exactly one text per minute of the day |
| Maintenance.RangeRoundTrip | maintenance/window.go:180-196 | a range is accepted exactly if it is two formatted, different times |
| Maintenance.ValidateEntry | maintenance/window.go:101-122 | accepts exactly the entries with distinct known weekdays and a readable range |
| Maintenance.Validate | maintenance/window.go:48-58 | accepts a window exactly if all its entries are valid |
| Maintenance.IsAllowed | maintenance/window.go:64-74 | allows a moment exactly if the schedule is empty or some entry allows it |
| Maintenance.Union | maintenance/window.go:85-96 | the union of a non-empty list allows a moment exactly if some member does; of none, every moment |
| Maintenance.AllowsIsArcs | maintenance/window.go:128-166 | a valid entry allows a moment exactly if it lies on the arc of some listed day on the circle of the week's minutes, midnight and week end included |
| Maintenance.ArcsApart | maintenance/window.go:128-166 | the arcs of different days do not meet |
| Maintenance.AllowedMinutes | maintenance/window.go:128-166 | a valid entry allows exactly days times length minutes a week |
| Maintenance.ValidAllowsSome | maintenance/window.go:101-166 | an entry without days is refused, and every valid entry allows some minute |
| Maintenance.DaysInOrder | maintenance/window.go:37-39 | exactly seven day names are known, and the week starts on Sunday |
| TreeDigest.HashInput | sys/remote/digest.go:68-136 | the walk, sort and write loops feed the canonical form |
| TreeDigest.BigEndianValue | sys/remote/digest.go:112-121 | fixed-width lengths read back as the number written |
| TreeDigest.LessMeaning | sys/remote/digest.go:104-106 | paths are ordered by the first byte in which they differ, a prefix first |
| TreeDigest.SortedRises | sys/remote/digest.go:104-106 | sorting distinct paths gives a strictly rising list of the same files |
| TreeDigest.RisingUnique | sys/remote/digest.go:104-106 | a set of files has only one rising order, so walk order does not matter |
| TreeDigest.FrameUnique | sys/remote/digest.go:111-132 | a stream that starts with one file's frame starts with no other's |
| TreeDigest.FeedInjective | sys/remote/digest.go:111-132 | equal streams come from equal lists of files |
| TreeDigest.DigestInputIsTheTree | sys/remote/digest.go:68-136 | two walks feed equal bytes exactly if the trees have the same set of path, permission bits and body |
| FieldContext.FieldSealContext | crypto/field_context.go:21-45 | succeeds exactly for a known direction and non-empty segments; a decoder reads version, direction, message, field and the bindings, in this order, from the first result and the first four of them from the second, which is a prefix of the first |
| FieldContext.DecodeEncode | crypto/field_context.go:34-38 | a decoder reads back exactly the segment list, whatever bytes the segments hold |
| FieldContext.ContextsNeverCollide | crypto/field_context.go:21-45 | two contexts have the same encoding exactly if direction, message, field and bindings agree; likewise for the domain |
| FieldContext.DomainIsPrefix | crypto/field_context.go:39-44 | the domain is a prefix of the whole context |
| NmcliEscape.PassesDecodeExactly | sys/network/networkmanager.go:392-398 | the three passes equal one left-to-right decoder exactly on texts without NUL |
| NmcliEscape.RoundTrip | sys/network/networkmanager.go:392-398 | escaping and unescaping gives the text back exactly if it has no NUL |
| NmcliEscape.DecodeEscape | sys/network/networkmanager.go:392-398 | the reference decoder inverts nmcli's escaping on every text |
| SessionRefresh.LockStep | cmd/powermanage/main.go:384-430 | every step keeps the lock's owner the only process between taking and releasing it |
| SessionRefresh.RunKeepsInv | cmd/powermanage/main.go:329-350 | lock and token invariants hold in every state of every run |
| SessionRefresh.TokensNeverReplayed | cmd/powermanage/main.go:384-430 | in every run of any number of processes an accepted refresh token is presented again exactly if a refresh was made after granted tokens were lost; at most one process refreshes at a time |
| SessionRefresh.OneRefreshForAll | cmd/powermanage/main.go:371-382 | any number of ordinary callers on one expired session make one successful refresh between them, and each works with a session that outlives the skew |
| SessionRefresh.RefreshGoesThrough | cmd/powermanage/main.go:384-430 | wherever a run has got to, a new caller that finds the file stale and the lock free can refresh, ends up with the session granted, and leaves it in the file and the lock free; a forced refresh is `ForcedRefreshGoesThrough` |
| SessionRefreshRuns.SessionsAreObtained | cmd/powermanage/main.go:329-430 | in every run a session used after an expired answer was granted to that very process after that answer, whatever the file said; any other was granted to it or read by it from the file more than the skew before its end; and no granted session is used before the process has written it |
| SessionRefreshRuns.TriedAtMostTwice | cmd/powermanage/main.go:329-350 | in every run a command is tried at most twice, the second time only with a session granted after the first was told that its token expired |
| SessionRefreshRuns.ThirtySecondsLeft | cmd/powermanage/main.go:371-407 | the file's session is used as it is exactly if more than thirty seconds are left of it and no refresh is forced |
| SessionRefreshRuns.ForcedRefreshGoesThrough | cmd/powermanage/main.go:344-430 | wherever a run has got to with the lock free, a caller told that its token expired can refresh although the file looks fresh, and retries with the session granted for the file's token, which the file then holds |
| SessionRefresh.DroppedTokensAreReplayed | cmd/powermanage/main.go:420-429 | a run in which a failed write leads to a replay |
| OutputCapture.FitIsLongest | sys/exec/exec.go:149-166 | the captured lines are the longest whole-line prefix within the cap, and all of them exactly if the total fits |
| OutputCapture.TextInOrder | sys/exec/exec.go:149-166 | the lines of a stream stand in order, each with its newline behind it |
| OutputCapture.WholeUpToOneMebibyte | sys/exec/exec.go:214-223 | a stream is captured whole exactly if it has at most one mebibyte, and otherwise ends in the marker, behind at most that much |
| OutputCapture.RecordedFollows | sys/exec/exec.go:149-166 | recording a line keeps buffer, byte count and number those of the lines so far |
| OutputCapture.Recorder.RecordLine | sys/exec/exec.go:149-166 | one line goes to its own stream with the next number, and the other stream is untouched |
| OutputCapture.Recorder.DrainRemaining | sys/exec/exec.go:171-175 | the rest of one stream is recorded in order |
| OutputCapture.Recorder.Capture | sys/exec/exec.go:139-229 | for every interleaving each stream is captured as its longest fitting prefix plus the marker exactly if it exceeds the cap, with callbacks 0, 1, 2, ... per stream; a run that is not cancelled sees all lines |
| OutputCapture.CappedHoldsPrefix | sys/exec/capped_buffer.go:44-62 | after any writes the buffer holds the first min(cap, total) bytes and is truncated exactly if the total exceeds the cap |
| OutputCapture.JoinedInOrder | sys/exec/capped_buffer.go:41-62 | what the buffer is given stands in the order written |
| OutputCapture.CappedBuffer.constructor | sys/exec/capped_buffer.go:34-39 | a new buffer is empty, and a negative cap counts as zero |
| OutputCapture.CappedBuffer.Write | sys/exec/capped_buffer.go:41-62 | a write always reports the whole length and is remembered up to the cap |
| OutputCapture.CappedBuffer.Render | sys/exec/capped_buffer.go:71-80 | everything written, or its first cap bytes and the marker |
| Firewalld.PrefixIsNamespace | sys/firewall/firewalld.go:222-232 | a service name carries a namespace's prefix exactly if it belongs to that namespace |
| Firewalld.NamesInjective | sys/firewall/firewalld.go:45-47 | equal service names come from equal namespaces and ids |
| Firewalld.NameIsWord | sys/firewall/firewall.go:65-70 | a service name survives the splitting of the list output |
| Firewalld.Grammars | sys/firewall/firewall.go:65-70 | namespaces and ids are exactly one first character of its kind and up to 30 or 62 of the others |
| Firewalld.ValidatorsTogether | sys/firewall/firewall.go:156-176 | the shared checks and the backend's own let through exactly the allow rules for tcp or udp with a port from 1 to 65535 and no addresses |
| Firewalld.HeadLines | sys/firewall/firewalld.go:204-214 | the rendered file is, line by line, the header, the short name and the description, up to the port element |
| Firewalld.XmlRoundTrip | sys/firewall/firewalld.go:204-267 | reading the rendered XML gives the rule back, although the scan looks for marks that the surrounding text might contain |
| Firewalld.ReadRuleMeaning | sys/firewall/firewalld.go:238-267 | any file is taken for a rule exactly if it names a port that is a number other than zero and a protocol, and the rule is then those |
| Firewalld.Firewall.ApplyRule | sys/firewall/firewalld.go:52-86 | succeeds exactly if both validators accept the rule and no call fails, and then the rule is installed and in effect; a refused rule changes nothing; a failure leaves one of the intermediate configurations and names the call that failed; no other service is ever touched |
| Firewalld.Firewall.RemoveRule | sys/firewall/firewalld.go:90-147 | succeeds exactly if the id is valid and no call it makes fails, and then file and listing are gone, which is in effect; a failure leaves the rule disabled if anything; no other service is ever touched |
| Firewalld.Firewall.List | sys/firewall/firewalld.go:152-175 | fails exactly if the zone or its services cannot be asked for; otherwise returns, in order, exactly the rules of the namespace's enabled services whose files can be read |
| Firewalld.UnreadAreMissing | sys/firewall/firewalld.go:163-174 | with files that cannot be read the result is the full list, in order, without exactly the rules of those files |
| Firewalld.FilterNamespace | sys/firewall/firewalld.go:222-232 | the loop keeps exactly the ids behind the namespace's prefix, in order |
| Firewalld.IdsInOrder | sys/firewall/firewalld.go:222-232 | the ids come in the order of the listing, each the part of its name behind the prefix |
| Firewalld.IsListed | sys/firewall/firewalld.go:134-147 | the loop finds a name exactly if it is one of the listing's fields |
| Firewalld.MirrorsApply | sys/firewall/firewalld.go:52-86 | applying a rule changes exactly that id in its own namespace's view and nothing in any other |
| Firewalld.MirrorsRemove | sys/firewall/firewalld.go:90-128 | removing a rule drops exactly that id from its own namespace's view and nothing from any other |
| Firewalld.AfterMirrors | sys/firewall/firewalld.go:52-128 | after any history of managers with different namespaces the host shows each of them its latest rules |
| Firewalld.AfterInEffect | sys/firewall/firewalld.go:52-128 | after every operation that succeeds what is configured is in effect |
| Firewalld.ListIsLatest | sys/firewall/firewalld.go:152-267 | after any such history List returns each manager exactly its latest rule per id, each once |
| Firewalld.ListIsLatestDespiteOthers | sys/firewall/firewalld.go:52-175 | the same for histories in which operations of other managers failed anywhere on their way |
| Pacman.LinesOfUnlines | pkg/pacman.go:638-671 | lines written out are the lines read back |
| Pacman.LongestLine | pkg/pacman.go:641-657 | the scanner delivers a line of up to 65535 characters and stops at a longer one |
| Pacman.GetIgnoredPackages | pkg/pacman.go:621-634 | returns the names of all IgnorePkg lines in order; what these are on any layout is `PacmanReading.PinnedMeaning` |
| PacmanReading.FieldsMeaning | pkg/pacman.go:629-631 | the fields of a text are exactly the words laid out in it, whatever white space is between and around them |
| PacmanReading.IgnoreLineMeaning | pkg/pacman.go:625-628 | a line is taken for a directive exactly if it starts with the keyword, white space aside |
| PacmanReading.NamesOnMeaning | pkg/pacman.go:629-631 | the names on a line are the fields behind its first `=`, wherever that stands, and none without one |
| PacmanReading.AssignedNamesAreRead | pkg/pacman.go:625-631 | from a directive in any layout exactly the words of its value are read, in order |
| PacmanReading.ReadNamesAreAssigned | pkg/pacman.go:625-631 | a line from which a name is read is a directive whose value is those names |
| PacmanReading.PinnedMeaning | pkg/pacman.go:621-634 | a package is pinned by a file exactly if one of the delivered lines is an IgnorePkg directive with that word in its value, whatever the layout and however many such lines there are |
| Pacman.DirectiveReadBack | pkg/pacman.go:645-655 | the directive written for a list of names is read as that list |
| Pacman.InsertTextIsInserted | pkg/pacman.go:658-669 | splicing the directive into the text behind the first `[options]` is inserting a line behind the first line that has it |
| Pacman.FirstPin | pkg/pacman.go:658-669 | without an IgnorePkg line the directive goes right behind the first `[options]` line |
| Pacman.BuildIgnorePkgConf | pkg/pacman.go:638-671 | the builder loop and the splice produce the lines rewritten |
| Pacman.RewriteReadBack | pkg/pacman.go:638-671 | of the lines the scanner delivers: rewritten, they read as the list wanted exactly if the list is empty or there was an IgnorePkg line or an `[options]` line, and all others among them survive in order |
| Pacman.RewriteIdempotent | pkg/pacman.go:638-671 | rewriting lines with the same list again changes nothing |
| Pacman.RewriteStable | pkg/pacman.go:638-671 | rewriting a file with the same list again gives the same bytes |
| Pacman.ConfFile.Pin | pkg/pacman.go:503-530 | succeeds exactly if the names pass the stricter grammar and the file can be read and written, if there are any names, and then the file is the one edited; bad names or an unreadable file change nothing |
| Pacman.ConfFile.Unpin | pkg/pacman.go:534-552 | succeeds exactly if the names pass the general grammar and the file can be read and written, if there are any names, and then the file is the one edited; bad names or an unreadable file change nothing |
| Pacman.ConfFile.IsPinned | pkg/pacman.go:577-586 | answers exactly if the name is valid and the file can be read, and then whether the name is on some IgnorePkg line, laid out as `PacmanReading.PinnedMeaning` says |
| Pacman.NameGrammars | pkg/validate.go:35 | package names are one alphanumeric and up to 255 characters of the general or the stricter set |
| Pacman.AddedBehind | pkg/pacman.go:523-528 | pinning keeps the list and puts behind it exactly the packages not on it, in the order given, each once |
| Pacman.WantedIs | pkg/pacman.go:503-552 | as sets, pinning is union and unpinning is difference, and the names stay words |
| Pacman.EditedIs | pkg/pacman.go:503-552 | one successful operation reads back as that union or difference, keeps every other line and leaves the file fit for the next one |
| Pacman.HistoryIsFold | pkg/pacman.go:503-671 | after any history of successful operations the pinned set is the fold of unions and differences over the first, and all other lines are still there in order |
| PacmanFile.EditTakesEffect | pkg/pacman.go:503-552 | on any file, the list read back after a successful operation is the one wanted if an IgnorePkg or `[options]` line is delivered and the directive fits the scanner, and is empty otherwise, whatever was pinned before |
| PacmanFile.RewriteStableExactly | pkg/pacman.go:638-671 | on any file, a second rewrite with the same list changes nothing exactly if no delivered other line ends in a carriage return and an oversized directive, if there is one, stands last and right behind the first `[options]` line |
| PacmanFile.SecondRewriteChanges | pkg/pacman.go:642-657 | a file with a doubled carriage return that a second rewrite changes |
| PacmanFile.EditKeepsFile | pkg/pacman.go:638-671 | on any file, the other lines of the file survive a successful operation exactly if none ends in a carriage return and no line up to the last of them reaches the scanner's limit |
| PacmanFile.ScanKeepsOthers | pkg/pacman.go:641-657 | the scanner delivers the other lines of a file unchanged exactly under that condition |
| PacmanFile.UnpinEmptiesFile | pkg/pacman.go:534-552 | a file with an `[options]` section that a successful unpin leaves empty |

## Left out

- Connection set-up, TLS options, registration and certificate renewal in client.go: plumbing over libraries that are not part of this model.
- StartReceiver, a second concurrent Run, and a user's own Connect: the stream model has one Run at a time.
- Payloads other than correlated responses and manifest deliveries, heartbeats and the welcome interval: they only add frames that change nothing the properties speak of.
- Direct calls of SendDeliveryReceipt by the user, as after Sync, and the inline dispatch without a worker: the receipt properties are about the worker of Run.
- Fairness: StreamClientProgress, StreamClientTeardown and StreamClientRecovery give continuations that reach a goal; that the scheduler takes them is not modelled.
- Correctness of a handler beyond its documented contract.
- Character classes and malformed patterns in the tree theorem of the grep guard. On arbitrary text the model proves termination, stack safety and equality with the scan.
- File modes, ownership, symbolic links at the target and non-regular files in the replacement model, and the ownership handling around it: an ownership failure comes after the content is in place.
- Changes to the tree by other processes while a prune is under way. For a removal RemoveRace allows them and proves where it can reach; that it ends, or that the target is gone, cannot be promised then.
- The root confinement checks before a prune, and a destination that does not exist.
- Firewalld.Firewall.RemoveRule: requires that the zone's service list holds distinct names without spaces, which is what firewalld prints.
- The parsing of addresses in firewall rules, which is a parameter because the firewalld backend refuses any address, and the nftables and ufw backends, whose listing formats belong to other tools.
- White space of more than one byte: the string functions work on bytes and know the ASCII spaces.
- The parsing of time zones: a moment is the weekday and minute the evaluator reads.
- TreeDigest.DigestInputIsTheTree: is about the hash input, because the hash itself is not modelled, and about a tree that does not change during the walk.
- Cryptographic primitives: only the context encoding is modelled.
- Login, logout and revocation of sessions, the format of the session file, and failures to read it or to open, take or close its lock, which end a command with an error and do nothing else.
- SessionRefresh.OneRefreshForAll: speaks of calls that are not forced, with the clock standing still, as forced refreshes always make one RPC each.
- Signal escalation, environment composition and exit codes of the command runner.
- The 1 MiB capture limit on the `cat` that reads pacman.conf: the file is read whole.
- The rest of the package managers, desktop, DNS, inventory and notification wrappers, the TypeScript client and the generated code: argument building and output scraping, or data.
