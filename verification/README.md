# Verified model of the SonarJS analyze-project server and filesystem cache

A Dafny model of the stateful core of the SonarJS repository. The models follow the TypeScript
sources statement by statement where these are order-sensitive, and state what the code promises its
callers. `dafny verify dfyconfig.toml` checks everything.

| files | subject |
|---|---|
| `AnalysisQueue`, `AnalysisRequestQueue` | the request queue: a machine with an explicit stack of suspended calls, because `run()` and `requestCancellation()` may call the queue again, and the class that refines it |
| `AnalyzeServer`, `AnalyzeServerTheorems`, `AnalyzeServerEffects`, `AnalyzeServerCancellation`, `AnalyzeServerShutdown`, `AnalyzeServerAwaiting`, `AnalyzeServerReplies`, `AnalyzeServerOutcomes`, `AnalyzeServerProgress` | the whole server as one transition system: gRPC calls, queue, both message channels, worker handlers with their cancellation scope and cache session, lease, timers, shutdown |
| `FsPaths`, `FsNodes`, `FsArchive`, `FsCacheArchive` | cache keys, nodes and slots, the archive as a value and as the class with its memo |
| `FsWorld`, `FsTransparency`, `FsSessions`, `FsListings`, `FsKnowledge` | a fixed filesystem with links, its native answers, recording and replaying against it, the one shared slot, and exactly what a session's requests let the cache answer |
| `FsSerialization`, `FsReload` | the stored form and what replay sees after a reload |
| `FsMerge`, `FsFlush`, `FsMergedReplay` | merging archives, processes that flush concurrently under a lock file, and replaying what they leave |
| `FsDescriptors` | virtual file descriptors |
| `SourceLines` | scanner positions and the CSS line table |
| `TsConfigs`, `ProjectPlan`, `ProjectPlanTheorems`, `ProjectAnalysis` | the growing tsconfig list and the search in it, what a run is to emit and with which program, and the passes over pending files with cancellation |
| `JsonReorder`, `CommandScripts` | `reorderJsonLike`; the script tokeniser and segmenter |

## How runs and time are modelled

A run is a sequence of states in which each follows from the one before by an enabled step, and the
theorems quantify over all runs. What the environment decides is a parameter of the step: which call
arrives, when a promise settles, how an analysis ends, when a timer fires, how large a read is. In
`AnalyzeServer` a channel is the log of everything posted with the number of messages taken, so a
request identifier is a position in the log. The project passes count the moments at which the
cancellation flag can be raised.

A filesystem is a map from keys to things: a missing path is absent, a thing is a file or directory,
or a link with or without a target. Answers are compared with the native answers of the same tree
under the root in use, which is what replaying from another checkout is for.

## Findings

Each of these is a lemma with a concrete run or a whole family of inputs, next to the exact condition
under which the expected property holds.

- Cancellation attempts of one entry can overlap (`AnalysisQueue.AttemptsMayOverlap`): exactly when a
  `requestCancellation` cancels its own entry while that is active (`AnalysisQueue.AttemptsOverlapExactly`).
  The inner attempt's promise is overwritten by the outer one's, and exactly such attempts fail their
  identity check (`AnalysisQueue.IdentityCheckHoldsExactly`). The server's own callback never does this.
- A stream may be written to after its error (`AnalyzeServerShutdown.StreamMayBeWrittenAfterItsError`):
  exactly when an event of its own analysis is taken while that run is still awaited, which needs the
  entry to have been active when `close` rejected it (`AnalyzeServerReplies.WrittenAfterItsEndExactly`).
- `exists` on a path of which only link facts or other errors are recorded throws the archive's error
  (`FsSessions.ExistsAfterLstatIsRefused`).
- `readdir` and `opendir` share a slot, so an error can name the other call
  (`FsSessions.SharedSlotNamesTheOtherCall`): exactly when the target is a file and the first request
  that decides the slot was made by the other call (`FsListings.RecordingIsTransparent`,
  `FsListings.ReplayIsTransparent`).
- A reload turns "the target does not exist" into "the link does not exist" for unrecorded link
  operations (`FsReload.DanglingLinkIsLost`), which is wrong exactly when the link is there
  (`FsReload.AddedAnswerIsTrueExactly`).
- `flush` deletes a compressed path of the file and merges the recorder's node over nothing, while
  `set` starts from "does not exist". An existence observation is lost exactly when the node has no
  existence flag, and one fixed tree with a dangling link shows it
  (`FsMerge.MergeUnitesExistenceExactly`, `FsMerge.FlushOrderLosesDanglingStat`). Over a sequence of
  flushes it is known exactly if no flush after the last recorder that knew it loses it
  (`FsMergedReplay.ExistenceIsKnownExactly`).
- A stale takeover can lose a finished flush (`FsFlush.StaleTakeoverLosesSlots`). The lock stays with
  its holder exactly when no inspection finds a held lock stale (`FsFlush.LockIsKeptExactly`); a late
  holder whose lock nobody inspects is safe.
- With a trailing slash the two branches of `keyFor` give different keys
  (`FsPaths.BranchesAgreeExactly`).
- The example in the comment of `buildSourceMap`
  (packages/analysis/src/css/analysis/highlighting.ts:54-56) says that `ab\ncd\n` has two line starts
  and that its end is on line 2. The code gives three and line 3
  (`SourceLines.FinalLineFeedStartsALine`); the model follows the code.
- A segment made of spaces, one of which only `trim` knows, is a token that the segmenter drops
  (`CommandScripts.UnicodeSpaceIsDropped`), and nothing else is
  (`CommandScripts.CommandLineTestDropsExactly`).

## Model

| member | source | states |
|---|---|---|
| `AnalysisQueue.SettlementIsExactlyOnce` | packages/grpc/src/analyze-project-server-queue.ts:63-156 | In every run, with `run()` and `requestCancellation()` calling back into the queue at will, an entry is resolved or rejected at most once and for good, and with no caller code on the stack exactly the settled entries have been |
| `AnalysisQueue.CompletionSettlesItsOwnEntry` | packages/grpc/src/analyze-project-server-queue.ts:145-156 | The active entry's completion settles that entry with its own outcome: at once, or owed until the next entry's `run()` has returned |
| `AnalysisQueue.OwedIsPaid` | packages/grpc/src/analyze-project-server-queue.ts:149-155 | When that `run()` returns, exactly the owed entry gets exactly the owed outcome |
| `AnalysisQueue.LateCompletionsAreIgnored` | packages/grpc/src/analyze-project-server-queue.ts:145-148 | A completion changes no entry if and only if its entry is settled already (after `close` or otherwise) |
| `AnalysisQueue.StartsInAcceptanceOrder` | packages/grpc/src/analyze-project-server-queue.ts:70-92 | Start order followed by pending order is the acceptance order without exactly the entries cancelled while pending or dropped by `close` |
| `AnalysisQueue.NeverStallsNorOverflows` | packages/grpc/src/analyze-project-server-queue.ts:67-92 | An idle open queue has nothing pending, and never more than `maxPending` entries wait, for every `maxPending` including 0 |
| `AnalysisQueue.AdmissionIsExact` | packages/grpc/src/analyze-project-server-queue.ts:63-101 | Exactly which requests are accepted, and where each goes: none when closed or while one is active and `maxPending` wait, the first of an idle queue is started, the others wait in order |
| `AnalysisQueue.StepInv` | packages/grpc/src/analyze-project-server-queue.ts:63-194 | Every operation, entered from anywhere inside the callbacks, keeps the full queue invariant |
| `AnalysisQueue.OnlyTheActiveEntryIsAsked` | packages/grpc/src/analyze-project-server-queue.ts:158-178 | `requestCancellation` is called for the active entry only, once per call at most |
| `AnalysisQueue.AttemptsOverlapExactly` | packages/grpc/src/analyze-project-server-queue.ts:172-192 | In every run, attempts of one entry never overlap if and only if no step cancels the active entry from inside that entry's own `requestCancellation` |
| `AnalysisQueue.StepSeparatesExactly` | packages/grpc/src/analyze-project-server-queue.ts:172-192 | The same for one step of any state in which they do not overlap |
| `AnalysisQueue.AttemptsNeverOverlap` | packages/grpc/src/analyze-project-server-queue.ts:172-192 | In the runs without such a step an entry has one unrefused attempt at most, and the identity check holds whenever an attempt settles |
| `AnalysisQueue.IdentityCheckHoldsExactly` | packages/grpc/src/analyze-project-server-queue.ts:180-191 | In every run the identity check holds when an attempt settles if and only if the attempt was not made inside another attempt of its entry |
| `AnalysisQueue.OverwrittenForGood` | packages/grpc/src/analyze-project-server-queue.ts:180-191 | An attempt that has returned and is not the stored one never is again |
| `AnalysisQueue.AttemptsMayOverlap` | packages/grpc/src/analyze-project-server-queue.ts:172-184 | A run, for any capacity, that ends with two attempts of one entry outstanding, one of them forgotten |
| `AnalysisQueue.ReentrantCancellationIsOverwritten` | packages/grpc/src/analyze-project-server-queue.ts:172-184 | In any state where the active entry's attempt cancels it again, the inner attempt is overwritten by the outer one, and its identity check fails |
| `AnalysisQueue.SplicedOnce` | packages/grpc/src/analyze-project-server-queue.ts:159-163 | Removing a cancelled pending entry removes it once and leaves the others in acceptance order |
| `AnalysisRequestQueues.AnalysisRequestQueue.Enqueue` | packages/grpc/src/analyze-project-server-queue.ts:63-101 | Refused exactly when closed, or when an entry is active and `maxPending` wait; otherwise the class moves as the machine does |
| `AnalysisRequestQueues.AnalysisRequestQueue.Complete` | packages/grpc/src/analyze-project-server-queue.ts:145-156 | `complete` up to the nested `run()` is the machine's completion step |
| `AnalysisRequestQueues.AnalysisRequestQueue.RunReturned` | packages/grpc/src/analyze-project-server-queue.ts:130-143 | The rest of `start` and of its caller, after the callback |
| `AnalysisRequestQueues.AnalysisRequestQueue.CancelEntry` | packages/grpc/src/analyze-project-server-queue.ts:158-194 | Cancels a pending entry, asks for the active one, shares an outstanding attempt |
| `AnalysisRequestQueues.AnalysisRequestQueue.CancellationReturned` | packages/grpc/src/analyze-project-server-queue.ts:173-179 | Stores the promise of the attempt once the callback has returned |
| `AnalysisRequestQueues.AnalysisRequestQueue.CancellationSettled` | packages/grpc/src/analyze-project-server-queue.ts:180-191 | Forgets a refused attempt under the identity check |
| `AnalysisRequestQueues.AnalysisRequestQueue.Close` | packages/grpc/src/analyze-project-server-queue.ts:107-120 | The loop of `close` settles exactly the active and pending entries |
| `AnalyzeServerTheorems.CancellationIsIsolated` | packages/grpc/src/analyze-project-server-lifecycle.ts:220-236 | In every interleaving, a delivered cancel raises exactly the flag of the analysis it was posted for, if that is in its scope, and no step raises any other flag |
| `AnalyzeServerTheorems.CancelsTargetTheActiveAnalysis` | packages/grpc/src/analyze-project-server-lifecycle.ts:220-236 | A cancel is posted only for the active entry's analysis, behind it on the channel and with no later analysis in between |
| `AnalyzeServerTheorems.FlagsAreSetByTheirOwnCancel` | packages/analysis/src/analyzeProject.ts:57-79 | The same for one step of any protocol state |
| `AnalyzeServerTheorems.OneAnalysisInFlight` | packages/grpc/src/analyze-project-worker.ts:47-93 | The worker never has two analyses in flight, and takes an analysis only when it has no scope and no cache session open |
| `AnalyzeServer.WorkerIsIdle` | packages/grpc/src/analyze-project-handle-request.ts:78-148 | Scope and session brackets are closed before the completion is posted, so the next analysis finds them closed |
| `AnalyzeServer.StepCore` | packages/grpc/src/analyze-project-server.ts:102-366 | Every step of parent, channel or worker keeps the protocol invariant |
| `AnalyzeServer.CallMoves` | packages/grpc/src/analyze-project-server-queue.ts:130-143 | One queue call starts one analysis, asks for one cancellation, or does neither: the order at the queue is the channel order |
| `AnalyzeServerEffects.ArrivalsAreAdmittedExactly` | packages/grpc/src/analyze-project-server.ts:158-213 | In every run an arriving live call is refused as unavailable once shutdown has begun, as exhausted with one active and `maxPending` waiting, and accepted otherwise; first on an idle server, its analysis is posted at once |
| `AnalyzeServerEffects.CancelsTakeEffectExactly` | packages/grpc/src/analyze-project-handle-request.ts:122-130 | When the worker takes a cancel, the flag of its target goes up exactly if that analysis is in its scope, nothing else changes, and the acknowledgement says which |
| `AnalyzeServerEffects.AnalysesOpenExactly` | packages/grpc/src/analyze-project-handle-request.ts:85-121 | An analysis is taken by an idle worker: a fresh scope with its flag down, and a cache session exactly if asked for, or the refusal of the request |
| `AnalyzeServerEffects.TransportCancelsExactly` | packages/grpc/src/analyze-project-server.ts:115-120 | A cancelled transport drops its waiting request, or posts a cancel of its own active analysis unless one is outstanding, or does nothing |
| `AnalyzeServerEffects.CancelRpcsExactly` | packages/grpc/src/analyze-project-server-lifecycle.ts:220-236 | The cancel call posts a cancel of the active analysis unless one is outstanding |
| `AnalyzeServerEffects.MessagesAreTakenExactly` | packages/grpc/src/analyze-project-server-lifecycle.ts:96-102 | An awaited completion or acknowledgement settles exactly the promise that waits for its identifier, with its outcome; any other message settles nothing |
| `AnalyzeServerEffects.CompletionsSettleExactly` | packages/grpc/src/analyze-project-server-queue.ts:145-156 | The active entry gets exactly its run's outcome and the first waiting analysis is posted; any other completion settles and posts nothing |
| `AnalyzeServerEffects.EventsAreWrittenExactly` | packages/grpc/src/analyze-project-server.ts:162-166 | An event is written to the live stream whose own analysis it is of, while that run is awaited, and to no other call |
| `AnalyzeServerEffects.CallsContinueExactly` | packages/grpc/src/analyze-project-server.ts:213-219 | A handler that resumes is done and, unless its transport was cancelled, sends the value, end or error that its entry was settled with |
| `AnalyzeServerEffects.WorkerActsExactly` | packages/grpc/src/analyze-project-handle-request.ts:85-121 | What the worker does by itself: the next event of the running analysis, the end of its scope with its outcome, of its cache session, the completion with that outcome, an acknowledgement |
| `AnalyzeServerEffects.CloseEndsDelivery` | packages/grpc/src/analyze-project-worker.ts:49-51 | A worker that takes the order to close takes nothing from then on |
| `AnalyzeServerEffects.FailuresRefuseExactly` | packages/grpc/src/analyze-project-server-lifecycle.ts:88-112 | A failed worker rejects exactly the runs and attempts that were waited for, and a timeout the one attempt it was set for |
| `AnalyzeServerEffects.ShutdownBeginsExactly` | packages/grpc/src/analyze-project-server-lifecycle.ts:251-267 | Serving ends exactly at the first step that calls `shutdown`: the queue is closed and emptied, lease and timer are cleared, and an active analysis is cancelled by exactly one message |
| `AnalyzeServerEffects.ShutdownEndsExactly` | packages/grpc/src/analyze-project-server-lifecycle.ts:268-271 | Then the worker is told to close, and then the server is forced down |
| `AnalyzeServerEffects.ServingNeedsALease` | packages/grpc/src/analyze-project-server.ts:319-366 | In every run a serving server has a lease, or a scheduled shutdown, or never had one and its startup timer is as it was armed |
| `AnalyzeServerEffects.LeasesExactly` | packages/grpc/src/analyze-project-server.ts:319-366 | A lease is given only when none is held, and losing the held one, and only that, schedules one shutdown |
| `AnalyzeServerCancellation.AcksTellTheTruth` | packages/grpc/src/analyze-project-worker.ts:52-60 | In every run an acknowledgement was decided when the worker took that very cancel: a success exactly if its target was in its scope then |
| `AnalyzeServerCancellation.AcknowledgedMeansRaised` | packages/grpc/src/analyze-project-server-queue.ts:172-192 | In every run an acknowledged attempt has raised the flag of its own entry's analysis |
| `AnalyzeServerCancellation.AttemptsSettleExactly` | packages/grpc/src/analyze-project-server-queue.ts:180-192 | An attempt settles as the answer to its own cancel says |
| `AnalyzeServerOutcomes.CompletionsTellTheTruth` | packages/grpc/src/analyze-project-worker.ts:61-91 | In every run a posted completion carries the outcome with which its own analysis ended its scope, or the refusal of its request |
| `AnalyzeServerOutcomes.RepliesTellTheOutcome` | packages/grpc/src/analyze-project-server.ts:211-302 | In every run an answered call has exactly one output besides events: its value or end exactly if the successful completion of its own analysis was received and shutdown did not come first; the analysis error exactly if not, and then that analysis failed or the worker was lost; unavailable only once shutdown has begun |
| `AnalyzeServerOutcomes.CancelledIsNeverSent` | packages/grpc/src/analyze-project-server.ts:216-218 | Nobody is sent the cancelled status: an entry is dropped for its transport only if that is its own client's |
| `AnalyzeServerProgress.AnalysesAreNeverLost` | packages/grpc/src/analyze-project-worker.ts:61-93 | In every run an analysis the worker took is in hand or its completion is posted |
| `AnalyzeServerProgress.ActiveAnalysisMovesOn` | packages/grpc/src/analyze-project-server-lifecycle.ts:80-128 | No deadlock: while the server serves with a live worker and an active analysis, a step that brings an analysis on is enabled |
| `AnalyzeServerReplies.UnaryRepliesOnce` | packages/grpc/src/analyze-project-server.ts:234-302 | A unary callback is invoked once, with the value, the analysis error or unavailable as the entry was settled, or never if the transport was cancelled first |
| `AnalyzeServerReplies.RefusedCallsGetOneError` | packages/grpc/src/analyze-project-server.ts:282-287 | A refused call gets exactly one error unless its transport was cancelled |
| `AnalyzeServerReplies.StreamsSendTheirOwnEvents` | packages/grpc/src/analyze-project-server.ts:158-219 | In every phase of every run a stream is sent exactly its own analysis's events in order, with its one end or error among them; unless `close` rejected it, all of them and the end last |
| `AnalyzeServerReplies.WrittenAfterItsEndExactly` | packages/grpc/src/analyze-project-server.ts:158-219 | A stream that has its end or error is written to by a step if and only if the parent takes an event of its own analysis while that run is awaited; its entry was then started and rejected by `close` |
| `AnalyzeServerReplies.CancelledCallsHearNothing` | packages/grpc/src/analyze-project-server.ts:125-156 | No step takes an output back or sends anything to a call whose transport was cancelled |
| `AnalyzeServerAwaiting.UnheardIsAwaited` | packages/grpc/src/analyze-project-server-lifecycle.ts:80-128 | While serving, an analysis whose completion was not heard is the active one and its completion is awaited |
| `AnalyzeServerAwaiting.StepAwaiting` | packages/grpc/src/analyze-project-server-lifecycle.ts:80-128 | In every phase a started entry is awaited or its completion was heard or the worker is gone, and one settled otherwise than by `close` is not awaited |
| `AnalyzeServerAwaiting.AwaitedWasClosed` | packages/grpc/src/analyze-project-server-lifecycle.ts:251-272 | An entry that is settled while its run is awaited was rejected by `close`, and shutdown has begun |
| `AnalyzeServerAwaiting.ShutdownLeavesTheActiveRun` | packages/grpc/src/analyze-project-server-lifecycle.ts:251-272 | The step that begins shutdown makes that of exactly the entry that was active |
| `AnalyzeServerReplies.NoEventsAfterCompletion` | packages/grpc/src/analyze-project-worker.ts:74-91 | An analysis posts no event after its completion |
| `AnalyzeServerShutdown.ShutdownHappensOnce` | packages/grpc/src/analyze-project-server-lifecycle.ts:251-272 | Under any race of lease loss, worker failure and startup timeout one continuation of `shutdown` at most gets past the guard, and the forced shutdown happens once, exactly when the server is down |
| `AnalyzeServerShutdown.ShutdownRejectsTheOutstanding` | packages/grpc/src/analyze-project-server-lifecycle.ts:260-261 | The step that begins shutdown rejects exactly the unsettled entries, as closed |
| `AnalyzeServerShutdown.ShutdownSettlesEverything` | packages/grpc/src/analyze-project-server-queue.ts:107-120 | From then on every accepted entry is settled once |
| `AnalyzeServerShutdown.NothingStartsAfterShutdown` | packages/grpc/src/analyze-project-server-lifecycle.ts:251-272 | From then on no analysis is started or posted and no outcome changes |
| `AnalyzeServerShutdown.StreamMayBeWrittenAfterItsError` | packages/grpc/src/analyze-project-server.ts:162-166 | A run in which it does happen |
| `FsPaths.SlowKeyIsSuffix` | packages/shared/src/fs-cache/archive.ts:286-295 | The resolving branch of `keyFor` names exactly the paths below the root, by their remaining segments |
| `FsPaths.FastAgreesWithSlow` | packages/shared/src/fs-cache/archive.ts:268-285 | The prefix branch gives the same key as the resolving one on clean paths |
| `FsPaths.BranchesAgreeExactly` | packages/shared/src/fs-cache/archive.ts:268-295 | They agree if and only if the path has no trailing slash below the root |
| `FsPaths.KeyRoundTrip` | packages/shared/src/fs-cache/archive.ts:298-300 | `keyFor` inverts `absolutePathFor` on every key and root |
| `FsPaths.AliasRoundTrip` | packages/shared/src/fs-cache/archive.ts:272-285 | The same under any of several roots that do not contain each other |
| `FsNodes.MergeIsAssociative` | packages/shared/src/fs-cache/archive-nodes.ts:47-55 | Merging three nodes does not depend on grouping |
| `FsNodes.MergeIsRightBiased` | packages/shared/src/fs-cache/archive-nodes.ts:47-55 | Per slot and per existence flag the update wins where it has an observation, else the base is kept |
| `FsNodes.ObservedKeepsFlags` | packages/shared/src/fs-cache/archive-nodes.ts:168-196 | Every `set` keeps `exists` and `linkExists` in agreement, whatever is observed |
| `FsNodes.MergeKeepsFlags` | packages/shared/src/fs-cache/archive-nodes.ts:47-55 | So does every merge |
| `FsNodes.SlotsAreSharedExactly` | packages/shared/src/fs-cache/archive-nodes.ts:99-132 | Exactly which operations share a slot: `stat` and `fstat` of one kind, hard and soft stats, and the two ways of listing one directory with types |
| `FsArchive.SetKeepsShape` | packages/shared/src/fs-cache/archive.ts:346-360 | Every `set` keeps entries and missing paths disjoint and all flags in agreement |
| `FsTransparency.SlotIsSound` | packages/shared/src/fs-cache/archive-nodes.ts:99-132 | Operations that share a slot observe one thing: the same outcome, or for a listing of a file the error of one of the two system calls |
| `FsTransparency.MissingIsRecognised` | packages/shared/src/fs-cache/archive-nodes.ts:155-162 | An outcome counts as missing exactly when the path (or the link) is missing |
| `FsTransparency.EncodingRelocates` | packages/shared/src/fs-cache/hook.ts:504-568 | What is stored for a native answer decodes under any root to that root's native answer |
| `FsTransparency.LookupIsTrue` | packages/shared/src/fs-cache/archive.ts:316-344 | Everything `get` answers, directly or inferred, is what the filesystem answers, but that for a listing of a file the error may be the other call's; it fails exactly on `exists` without a flag (what is answered at all is `FsKnowledge.SessionAnswersExactly`) |
| `FsListings.RecordingIsTransparent` | packages/shared/src/fs-cache/hook.ts:303-362 | Recording answers each request as the fixed filesystem would if and only if it is neither the refused `exists` nor a listing of a file whose slot the other system call recorded first; these two answers are given too |
| `FsListings.ReplayIsTransparent` | packages/shared/src/fs-cache/hook.ts:303-332 | Every recorded request replays, in any order and under any root, without a cache miss, as the same tree answers natively there if and only if it is not such a listing |
| `FsListings.ListingReplay` | packages/shared/src/fs-cache/archive-nodes.ts:112-121 | What replay gives for a listing of a file: the error of the first request that decides, from the requests alone |
| `FsListings.BorrowedIsNotNative` | packages/shared/src/fs-cache/archive-nodes.ts:112-121 | The expected answer is the native one if and only if no error is borrowed |
| `FsKnowledge.SessionAnswersExactly` | packages/shared/src/fs-cache/archive.ts:316-344 | What a replay answers for every path and operation, requested or not, told from the requests alone: the native answer, but for a borrowed error, exactly if the requests determine it; else the archive's error for `exists` on a path of which something is recorded, and a miss otherwise |
| `FsKnowledge.SessionsKnowExactly` | packages/shared/src/fs-cache/archive.ts:316-344 | The archive of a session answers an operation by itself exactly if the requests let it |
| `FsKnowledge.RefusalExactly` | packages/shared/src/fs-cache/archive.ts:321-325 | A recorded `exists` is refused exactly if its path was requested before and no request told whether it exists |
| `FsKnowledge.OpenIsInferred` | packages/shared/src/fs-cache/archive.ts:327-335 | A file that was read and whose two stats were asked for can be opened for reading under any root, with its content, though nobody opened it |
| `FsKnowledge.NamesAreInferred` | packages/shared/src/fs-cache/archive.ts:336-341 | A directory that was listed with types or by `opendir` can be listed by names under any root, though nobody did |
| `FsKnowledge.AbsenceIsInferred` | packages/shared/src/fs-cache/hook.ts:303-332 | Once any request has shown that a path leads nowhere, every operation that follows links is told so |
| `FsKnowledge.LinkAbsenceIsInferred` | packages/shared/src/fs-cache/hook.ts:303-332 | Once `lstat` or `readlink` has shown that there is no entry, both are told so |
| `FsKnowledge.PresenceIsInferred` | packages/shared/src/fs-cache/archive-nodes.ts:168-196 | What succeeded tells `exists`, which nobody asked |
| `FsKnowledge.ObservationTellsExactly` | packages/shared/src/fs-cache/archive-nodes.ts:168-196 | What one observation records of a path's existence and of its directory entry's, in terms of the filesystem |
| `FsSessions.RequestIsTransparent` | packages/shared/src/fs-cache/hook.ts:334-362 | The same for one request: refused exactly when the node has no existence flag |
| `FsSessions.CoverageIsKept` | packages/shared/src/fs-cache/archive.ts:346-360 | What an archive can answer it can still answer after recording more |
| `FsSessions.VirtualFstatIsNative` | packages/shared/src/fs-cache/hook.ts:1399-1426 | `fstat` on a virtual descriptor never misses and gives the native stat |
| `FsSessions.ExistsAfterLstatIsRefused` | packages/shared/src/fs-cache/archive.ts:321-325 | After only an `lstat`, `exists` throws the archive's error, for every path that is there |
| `FsSessions.SharedSlotNamesTheOtherCall` | packages/shared/src/fs-cache/archive-nodes.ts:112-121 | A file opened as a directory gives `readdir` the error of `opendir` |
| `FsSerialization.TypesRoundTrip` | packages/shared/src/fs-cache/archive-serialization.ts:64-71 | The bit mask of stat types loses nothing |
| `FsSerialization.EntryRoundTrip` | packages/shared/src/fs-cache/archive-serialization.ts:108-181 | Directory entries survive, with the type as an index and the portable parent path |
| `FsSerialization.NodeRoundTrip` | packages/shared/src/fs-cache/archive-serialization.ts:279-371 | A node comes back as it was, up to undefined stat fields |
| `FsSerialization.ReloadReplays` | packages/shared/src/fs-cache/archive-serialization.ts:270-371 | What replay sees of each path and operation after saving and loading |
| `FsSerialization.SetIsSound` | packages/shared/src/fs-cache/archive.ts:346-360 | Archives built by `set` are always serialisable without loss |
| `FsReload.ReloadRefinesAnswers` | packages/shared/src/fs-cache/archive.ts:232-246 | Every answer survives a reload; the only new ones are ENOENT for link operations on nodes that were exactly `{exists: false}` |
| `FsReload.StoredReplayIsTransparent` | packages/shared/src/fs-cache/archive.ts:198-247 | Record, save, load elsewhere, replay: the same answers, native under the same condition |
| `FsReload.AddedAnswerIsTrueExactly` | packages/shared/src/fs-cache/archive.ts:232-246 | An answer that the reload of a session adds is ENOENT for a cache miss, and native if and only if the link is not there either |
| `FsReload.DanglingLinkIsLost` | packages/shared/src/fs-cache/archive-serialization.ts:271-273 | A reload after a `stat` of a dangling link makes an unrecorded `lstat` report the link as missing |
| `FsMerge.MergeKeepsShape` | packages/shared/src/fs-cache/archive.ts:408-417 | `flush` keeps entries and missing paths disjoint and flags in agreement |
| `FsMerge.MergeUnitesSlots` | packages/shared/src/fs-cache/archive.ts:414-417 | No slot is lost; the recorder's own wins |
| `FsMerge.MergeUnitesExistenceExactly` | packages/shared/src/fs-cache/archive.ts:410-417 | Existence is united too if and only if no compressed path meets a node without an existence flag |
| `FsMerge.MergeArchivesIsAssociative` | packages/shared/src/fs-cache/archive.ts:410-417 | Only the order of flushes matters, not their grouping |
| `FsMerge.FlushesUniteSlots` | packages/shared/src/fs-cache/archive.ts:399-440 | After any sequence of flushes each slot holds what the last recorder with that slot says |
| `FsMerge.FlushOrderLosesDanglingStat` | packages/shared/src/fs-cache/archive.ts:414-417 | Two recorders of one tree whose flush order decides whether a dangling link's missing target is remembered |
| `FsFlush.StepKeepsLockExactly` | packages/shared/src/fs-cache/archive.ts:72-114 | A step keeps the lock with its holder if and only if it is not an inspection that finds a held lock stale |
| `FsFlush.LockIsKeptExactly` | packages/shared/src/fs-cache/archive.ts:72-114 | So does a run if and only if no inspection in it does |
| `FsFlush.TimelyRunsAreFresh` | packages/shared/src/fs-cache/archive.ts:72-114 | In particular when every holder releases within the stale age |
| `FsFlush.MutualExclusion` | packages/shared/src/fs-cache/archive.ts:72-114 | In such a run no two processes hold the lock and none takes it for stale |
| `FsFlush.FlushesLoseNothing` | packages/shared/src/fs-cache/archive.ts:386-454 | Then, at every moment, the file is whole and its (path, slot) set is the union of the flushed recorders' and the initial one, the later flusher winning |
| `FsFlush.FinishedRecordersAreFlushed` | packages/shared/src/fs-cache/archive.ts:431-434 | Then a recorder whose flush succeeded is in the file, once |
| `FsFlush.FlushOutcomesExactly` | packages/shared/src/fs-cache/archive.ts:89-114 | In every run, stale locks included, a flush succeeds exactly if the process renamed its file, and fails only after an error between its steps or after a thousand tries to create the lock file |
| `FsFlush.FlushedAreRenamed` | packages/shared/src/fs-cache/archive.ts:439-442 | The flushed recorders are those that renamed, in that order |
| `FsFlush.TimelyFlushesLoseNothing` | packages/shared/src/fs-cache/archive.ts:386-454 | With timely holders every slot of a finished recorder is in the whole file |
| `FsFlush.StaleTakeoverLosesSlots` | packages/shared/src/fs-cache/archive.ts:72-87 | A run with a stale inspection in which a finished flush is lost |
| `FsMergedReplay.FlushesKeepAnswers` | packages/shared/src/fs-cache/archive.ts:399-440 | What a recorder could answer the file answers after its flush and all later ones; only an answer that rests on the path's absence can be lost |
| `FsMergedReplay.ExistenceIsKnownExactly` | packages/shared/src/fs-cache/archive.ts:399-440 | After any sequence of flushes the file knows whether a path exists if and only if that was known once and no flush after the last that knew it lost it |
| `FsMergedReplay.AbsenceReplays` | packages/shared/src/fs-cache/archive.ts:399-440 | What the file then answers for a path that is not there: the native answer, or if that was lost the archive's error for `exists` and a miss otherwise |
| `FsMergedReplay.MergedReplayIsTransparent` | packages/shared/src/fs-cache/archive.ts:386-454 | Recording, interleaved flushing, loading and replaying together: every unrefused request of a finished recorder is answered from the shared file, under any root, as the tree answers there, if and only if it is neither a listing of a file whose slot was last flushed by the other call nor a lost absence; these answers are given too |
| `FsCacheArchives.FsCacheArchive.KeyOf` | packages/shared/src/fs-cache/archive.ts:249-296 | The memo never changes an answer |
| `FsCacheArchives.FsCacheArchive.SetOutcome` | packages/shared/src/fs-cache/archive.ts:346-360 | `set` is the specified archive update |
| `FsCacheArchives.FsCacheArchive.ReplayKey` | packages/shared/src/fs-cache/hook.ts:303-332 | `replay`, with its hit and miss counts |
| `FsCacheArchives.FsCacheArchive.RunSync` | packages/shared/src/fs-cache/hook.ts:334-362 | `runSync` is one step of a session, with its hit and miss counts; outside every root the native function answers and nothing is recorded |
| `FsCacheArchives.FsCacheArchive.ReplayOpenKey` | packages/shared/src/fs-cache/hook.ts:1428-1466 | The replay of an open, with a hit counted as soon as the open itself is known |
| `FsCacheArchives.FsCacheArchive.OpenSync` | packages/shared/src/fs-cache/hook.ts:1428-1495 | `openSync` with its capture is one step of a session, with its hit and miss counts |
| `FsCacheArchives.FsCacheArchive.MergeOver` | packages/shared/src/fs-cache/archive.ts:410-417 | The two merge loops compute the specified merge |
| `FsCacheArchives.SyncStepIsSession` | packages/shared/src/fs-cache/hook.ts:303-362 | On a fixed filesystem the steps of `runSync` are those of the transparency theorems |
| `FsCacheArchives.OpenStepIsSession` | packages/shared/src/fs-cache/hook.ts:1399-1495 | So are those of `openSync` |
| `FsDescriptors.VirtualDescriptor.Read` | packages/shared/src/fs-cache/hook.ts:1561-1588 | A read is the next call of the descriptor's history: it fills exactly the target window with what the specified call gives and moves the position as that does |
| `FsDescriptors.VirtualDescriptor.ReadFile` | packages/shared/src/fs-cache/hook.ts:802-812 | `readFile` returns the rest and leaves nothing |
| `FsDescriptors.ReadsConserveContent` | packages/shared/src/fs-cache/hook.ts:1577-1587 | Any sequence of reads without a position returns consecutive slices that make up the content so far; positional reads change nothing |
| `FsDescriptors.ReadGivesExactly` | packages/shared/src/fs-cache/hook.ts:1561-1588 | A read gives the bytes from the position, or from the given one brought into the content, as many as were asked for, as there is room for, or as are left, whichever is least |
| `FsDescriptors.ReadUntilNothingIsEverything` | packages/shared/src/fs-cache/hook.ts:1577-1587 | Reading until nothing comes, or `readFile` at the end, yields all of it |
| `FsDescriptors.ReadDescriptorContent` | packages/shared/src/fs-cache/hook.ts:1381-1393 | The capture loop yields the whole file whatever sizes the system reads in |
| `SourceLines.ComputeLineStarts` | packages/analysis/src/scanner-locations.ts:218-225 | The loop over line endings finds exactly the line starts, for both sets of terminators |
| `SourceLines.FindLineIndex` | packages/analysis/src/scanner-locations.ts:227-239 | The binary search finds the last start not beyond the offset |
| `SourceLines.ScannerLocationMapper.PositionAt` | packages/analysis/src/scanner-locations.ts:202-215 | `position` is the mapping below, out-of-range positions unchanged |
| `SourceLines.MappingKeepsTheOffset` | packages/analysis/src/scanner-locations.ts:202-215 | Mapping keeps the absolute offset and lands inside the scanner line |
| `SourceLines.MappingIsMonotone` | packages/analysis/src/scanner-locations.ts:202-215 | Mapping keeps and reflects the order of offsets |
| `SourceLines.MappingNeverMovesDown` | packages/analysis/src/scanner-locations.ts:198-215 | An in-line position maps to a line no later than its own |
| `SourceLines.LineNeverIncreases` | packages/analysis/src/scanner-locations.ts:198-200 | So does every line number |
| `SourceLines.MapperMattersExactly` | packages/analysis/src/scanner-locations.ts:42-47 | An in-line position is mapped to itself if and only if no U+2028 or U+2029 stands before it, and otherwise to an earlier line |
| `SourceLines.MapperMayBeSkipped` | packages/analysis/src/scanner-locations.ts:42-47 | Without them the mapping is the identity, so skipping the mapper is right |
| `SourceLines.BuildSourceMap` | packages/analysis/src/css/analysis/highlighting.ts:58-80 | The loop fills the table with the line of every offset, for LF, CR and CRLF |
| `SourceLines.PositionInTable` | packages/analysis/src/css/analysis/highlighting.ts:92-102 | The clamped lookup gives the line and column by counting |
| `SourceLines.TableAgreesWithSearch` | packages/analysis/src/css/analysis/highlighting.ts:92-102 | The dense table and the binary search give the same line and column |
| `SourceLines.FinalLineFeedStartsALine` | packages/analysis/src/css/analysis/highlighting.ts:70-78 | A final line feed starts one more line, at the end of the source |
| `CommandScripts.TokenizeScript` | packages/analysis/src/file-stores/generated-sources/shared.ts:208-241 | The tokeniser loop computes the specified tokens |
| `CommandScripts.ParseDirectCommandSegments` | packages/analysis/src/file-stores/generated-sources/shared.ts:130-206 | The segmenter loop computes the specified segments |
| `CommandScripts.BothFailOnUnclosedQuotes` | packages/analysis/src/file-stores/generated-sources/shared.ts:200-202 | Both give up exactly on a script that ends inside a quote |
| `CommandScripts.SegmentingAgreesWithTokenising` | packages/analysis/src/file-stores/generated-sources/shared.ts:130-241 | All segments' tokens in order are the tokens of the script with each unquoted `&&` replaced by a space |
| `CommandScripts.SegmentsAreSlices` | packages/analysis/src/file-stores/generated-sources/shared.ts:144-151 | The segments are the slices between unquoted `&&`: they join to the script, hold no unquoted `&&`, and each tokenises to its own tokens |
| `CommandScripts.TokensRoundTrip` | packages/analysis/src/file-stores/generated-sources/shared.ts:208-241 | Words of quoted and unquoted pieces, separated by spaces, come back as their texts without the quotes and with whatever stands inside them; a word without text is no token |
| `CommandScripts.DirectExactly` | packages/analysis/src/file-stores/generated-sources/shared.ts:144-167 | A segment gives nothing exactly if it has no tokens or no text, or its first token holds a dollar sign or a backquote or begins as an assignment; else its trimmed text, its first token and the others |
| `CommandScripts.CommandsInOrder` | packages/analysis/src/file-stores/generated-sources/shared.ts:144-167 | The segments contribute their commands one after the other |
| `CommandScripts.CommandLineTestDropsExactly` | packages/analysis/src/file-stores/generated-sources/shared.ts:150-153 | The empty command line test drops tokens if and only if the text is made of spaces that `trim` knows, one of which the tokeniser does not |
| `CommandScripts.CommandLineTestDropsNothing` | packages/analysis/src/file-stores/generated-sources/shared.ts:150-153 | So never where the two agree on what a space is |
| `CommandScripts.UnicodeSpaceIsDropped` | packages/analysis/src/file-stores/generated-sources/shared.ts:321-323 | The shortest text of which it does |
| `JsonReorder.ReorderKeepsMeaning` | tools/deploy-rule-data.ts:181-211 | Reordering keeps the tree, up to member order and the order of scalar arrays, whose values are kept with multiplicity |
| `JsonReorder.ReorderIsIdempotent` | tools/deploy-rule-data.ts:181-211 | Reordering again by the same reference changes nothing |
| `JsonReorder.EquivalentBecomesReference` | tools/deploy-rule-data.ts:181-211 | A value equivalent to the reference becomes the reference |
| `JsonReorder.ReorderedMembers` | tools/deploy-rule-data.ts:195-210 | Each key keeps its own value, reordered by the reference's value for that key |
| `JsonReorder.ReorderedInOrder` | tools/deploy-rule-data.ts:195-210 | The keys the reference has come first, in its order, and the others after them, in their own |
| `JsonReorder.ScalarsKept` | tools/deploy-rule-data.ts:223-238 | `reorderScalarArray` keeps the multiset of values |
| `JsonReorder.ScalarsInOrder` | tools/deploy-rule-data.ts:223-238 | A reordered scalar array is the reference as far as the array has equal items, and then what the reference does not account for, in the array's order, the last ones of equal items |
| `JsonReorder.ReorderScalarArray` | tools/deploy-rule-data.ts:223-238 | The splicing loop computes the specified order |
| `JsonReorder.ReorderJsonLike` | tools/deploy-rule-data.ts:181-211 | The recursion with its two loops computes the specified tree |
| `ProjectAnalysis.Analysis.AnalyzeProject` | packages/analysis/src/analyzeProject.ts:107-202 | A run carries out its plan, result by result, exactly until its end or the first moment at which a file would be started with the flag up, and then sends one `meta` or `cancelled`; the tsconfigs at the end are those followed |
| `ProjectPlanTheorems.RunIsExactlyOnce` | packages/analysis/src/analyzeProject.ts:195-200 | What that sends: at most one result per file of the project and none for others; uncancelled, every file's; no file is started with the flag up, and only the flag stops a run |
| `ProjectPlanTheorems.PlanIsOncePerFile` | packages/analysis/src/analyzeProject.ts:150-192 | A plan has exactly one result for each file of the project, in every configuration |
| `ProjectPlanTheorems.PlanWithoutTypes` | packages/analysis/src/analyzeProject.ts:150-192 | With type checking off or no rules, every file is analysed without a program, in the order of the files |
| `ProjectPlanTheorems.PlanWithPrograms` | packages/analysis/src/analyzeWithProgram.ts:72-230 | With rules and without SonarLint, a file is analysed with the first listed config whose program has it; a JS/TS file that none has with a program of its group of such files exactly if that is configured; any other without one |
| `ProjectPlanTheorems.PlanWithProgramsInOrder` | packages/analysis/src/analyzeWithProgram.ts:72-230 | Configs come in the order of the list as it grew, each with its program's order, then the groups, then the rest in the order of the files |
| `ProjectPlanTheorems.PlanWithSonarLint` | packages/analysis/src/analyzeWithIncrementalProgram.ts:57-127 | With rules and SonarLint the JS/TS files come first, then the others without a program, each part in the order of the files |
| `ProjectPlanTheorems.SonarLintProgram` | packages/analysis/src/analyzeWithIncrementalProgram.ts:68-127 | There a file gets its cached program if that is up to date; else that of the first tried config that contains it, if one listed by then does; else, exactly if configured, one of its group of the JS/TS files that are pending and in no config found so far; else none |
| `ProjectPlanTheorems.FallbackHasGroup` | packages/analysis/src/analyzeWithIncrementalProgram.ts:203-216 | The branch that logs an orphan file without a group is never taken |
| `ProjectAnalysis.Analysis.AnalyzeWithProgram` | packages/analysis/src/analyzeWithProgram.ts:72-125 | The pass emits what the configs of the list as it grew take, then the orphans; the list is followed to its end unless cancelled or nothing is pending |
| `ProjectAnalysis.Analysis.FollowTsConfigs` | packages/analysis/src/analyzeWithProgram.ts:79-106 | The loop over the list that grows while it is iterated ends and emits, config by config, what the earlier ones left pending |
| `ProjectAnalysis.Analysis.AnalyzeFilesFromTsConfig` | packages/analysis/src/analyzeWithProgram.ts:250-346 | One tsconfig: its references are discovered, and its pending sources are emitted in order with its program |
| `ProjectAnalysis.Analysis.AnalyzeFilesFromEntryPoint` | packages/analysis/src/analyzeWithProgram.ts:143-230 | The pending JS/TS files are emitted group by group, each group with one program |
| `ProjectAnalysis.Analysis.AnalyzeWithIncrementalProgram` | packages/analysis/src/analyzeWithIncrementalProgram.ts:57-127 | The pass emits the specified result for each JS/TS file in turn and leaves the list as the searches made it |
| `ProjectAnalysis.Analysis.ProgramFor` | packages/analysis/src/analyzeWithIncrementalProgram.ts:68-127 | The program of one file and the root names covered so far |
| `ProjectAnalysis.Analysis.ClosestTsConfig` | packages/analysis/src/analyzeWithIncrementalProgram.ts:145-188 | The tsconfig search ends; it tries the best match of those listed and untried each time, and finds the first tried that contains the file, or none in the list as grown does |
| `TsConfigs.ClosestIsFirst` | packages/analysis/src/analyzeWithIncrementalProgram.ts:145-188 | The same of the specified search, from any point of it |
| `ProjectAnalysis.Analysis.PickBestMatchTsConfig` | packages/analysis/src/analyzeWithIncrementalProgram.ts:235-247 | Of the candidates whose own path starts the file's path, as the code tests it, the first with the longest directory name; if there are none, the first candidate |
| `TsConfigs.BestMatchIsUnique` | packages/analysis/src/analyzeWithIncrementalProgram.ts:235-247 | That determines the candidate |
| `ProjectAnalysis.Analysis.AnalyzeWithoutProgram` | packages/analysis/src/analyzeWithoutProgram.ts:49-74 | The last pass emits what was pending, in order, without a program |
| `ProjectAnalysis.TsConfigStore.AddDiscoveredTsConfig` | packages/analysis/src/file-stores/tsconfigs.ts:54-80 | A discovered config is appended to the list in use if it is new |
| `TsConfigs.FollowedIsClosed` | packages/analysis/src/analyzeWithProgram.ts:300-305 | The references of every followed config are listed, and every config found on the way is a reference of an earlier one |
| `TsConfigs.GrowingEnds` | packages/analysis/src/file-stores/tsconfigs.ts:71-80 | Each discovery leaves strictly fewer configs to discover |

## Left out

- The in-thread mode without a worker, gRPC and protobuf encoding, gzip, base64 and UTF-8 conversion, logging and telemetry: plumbing, or total inverse pairs.
- `postMessage`, `write` and `end` calls that throw: the source only logs them; a unary callback that throws would be called again and is assumed not to.
- The reply to the cancel call: whether its attempt was acknowledged is modelled, the message that says so is not.
- Which status a failed analysis is reported with (invalid argument or internal): both are one error here.
- The queue constructor's error for a `maxPending` that is not a non-negative integer: the type excludes it.
- Worker `error` and `exit` are one failure step; the second of them finds shutdown begun and nobody waiting.
- Operation texts such as `readdir:utf8:false:false` are taken in parsed form, with the defaults already filled in.
- Error snapshots are kept by code and system call: the message is a template around the path.
- `undefined` and `null` results of void operations, and the text form of stat numbers, are not told apart.
- The asynchronous variants `runAsync`, `readFilePromise` and `fs.open`: two of them racing on one path make the second overwrite the first with the same observation.
- Native errors other than a missing path, a wrong kind of file and a refused access mode; read-only `open` flags are assumed to succeed on anything that exists.
- The filesystem model takes native ENOENT errors to name the system calls that the cache names for known missing paths.
- Windows paths, relative inputs that depend on the current directory, and root aliases nested in one another.
- Patching of the `fs` module, descriptor numbers, and the single active session of hook.ts outside the worker model.
- `sortedNode`, `createNode` and the order of entries in the document: maps here have no order.
- File system failures of `flush` other than giving up between steps, and processes that die while holding the lock: a lock left behind is inspected as stale in the end, which the theorems exclude.
- A file that cannot be loaded makes `flush` release the lock without writing; since the file is proved to be whole, this step is never taken in the theorems.
- TypeScript program creation, grouping by library, linters: they are parameters, with distinct program sources and groups that partition their input. Making a program of root names alone is assumed not to throw.
- The program cache itself: whether a file has a cached program, and whether that is up to date, is a parameter for each file.
- The call handlers, the lifecycle, the worker and the processes that flush are steps on values: the order of their effects is captured, the aliasing of the objects they share is not.
- Cache nodes are values: `writeSlot` and `updateExistence` give a new node instead of changing one in place.
- One physical root stands for those of `realpath` and `realpath.native`. In replay mode the code has none and restores real paths under the root as given, which is the case `physical == rootDir`; a replay root that is itself behind a link is therefore not covered.
- JavaScript's order of integer-like keys and its treatment of the key `__proto__` in `reorderJsonLike`.
- The 32-bit width of the CSS line table: a string is shorter than that.
- The issue, metric and highlight walks around the scanner mapping, which apply it to each location.
- FsFlush.FlushesLoseNothing: is about slots; existence flags are subject to the exact condition of `FsMerge.MergeUnitesExistenceExactly`.
- The content of a file's result, and the compiler options of its program: a result here names its file and the program it was analysed with.
- Configuration defaults, enum conversions, rule metadata and generators, which would only add easy members.
