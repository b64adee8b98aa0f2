# FreeIran engine: a verified model

FreeIran is a desktop client that keeps one proxy session alive: it launches a protocol
core, verifies the tunnel, watches it, and recovers with fresh candidates when it fails.
This project models the parts of its engine whose correctness spans several functions or
several goroutines, and proves what they promise.

| modules | what they model |
|---|---|
| `Session`, `Interleaving`, `Ownership`, `LeakFreedom`, `VerifiedState`, `NonInterference`, `SessionDiagram`, `AttemptHistory`, `Races` | the connection manager: Connect attempts, Disconnect and Shutdown, verification probes, stability rechecks and process-exit watchers, interleaved lock section by lock section |
| `Recovery`, `RecoveryRules` | episodes, attempts, backoff, idle reset and failure memory of automatic recovery |
| `Selection`, `SelectionRules`, `SelectionOutcome`, `QuickConnect` | the fresh-selection loop shared by Quick Connect and recovery |
| `Supervision`, `ProcessTree` | Stop and exit of a supervised process; the process-tree walk |
| `RecencyList`, `CacheHistory`, `LruInclusion`, `CacheLayer` | the cache layer |
| `Grouping`, `Crc`, `CrcResidue`, `Bits`, `ChunkFile`, `ChunkLayout` | chunk grouping and the FIRC chunk codec |
| `Booster` | the adaptive controller |
| `Sequences`, `Text` | sequences and strings, shared by the modules below |
| `Listing`, `ListingRules`, `ListingOrder`, `GroupFilter` | filtered paging, comparators, group filters and counts |
| `ManualOrder` | the manual order of configurations |
| `Decimal`, `Chains`, `ChainRules`, `ChainEdits`, `ChainService` | user groups and proxy chains, their ids and their sidecar |
| `Joining`, `ConfigIdentity`, `ConfigSpelling`, `ChainConfig` | normalization, fingerprint texts, chain composition |

Code that changes state step by step is modelled by classes and loops, each method proved
against a specification function; the properties below are lemmas about those functions,
for all inputs, runs and reachable states. `dafny verify dfyconfig.toml` checks everything, with
automatic induction switched off, so that every induction is written out.

## Findings

Points where the code does less than its comments say, or needs a condition; the lemma that
shows each is named.

- Four schedules break the session promises, and the code does not exclude them. A1: the
  `verifying` write (connection.go:852-856) has no generation gate, although 636-641 says
  every write after an awaitable step has one; a superseded attempt can leave the manager in
  `verifying` after every call has returned, so that every Connect is refused until somebody
  disconnects again (`Races.StaleVerifyingWedgesManager`). A2: a Connect is accepted while a
  Disconnect is closing, because `Active()` omits `disconnecting`; the next Connect then
  publishes over an instance that nobody will Close
  (`Races.ConnectInsideDisconnectLosesInstance`). A3: `startMonitor` (1377-1388) reads
  generation and instance afresh; a superseded attempt can monitor the next session's first
  core and make it drop its second without Close (`Races.StaleMonitorLosesInstance`). In both
  runs the process itself dies with its session's context; its handles and runtime files
  stay. A4: the tail of a teardown (1663) tests only for `disconnecting`, although 1659-1661
  says it must not overwrite a Disconnect; a teardown of an ended session can turn another
  Disconnect's state into `connection_failed` (`Races.StaleTailOverwritesDisconnect`). The
  theorems about sessions assume the ones they need: `ORDERLY` is A1 to A3, `FENCED` is A2
  and A3, non-interference needs A1, A3 and A4. Apart from the installation of a monitor,
  these writes are exactly the late steps that change the manager
  (`NonInterference.LateWritesExactly`).
- Even under all of them, `connected_verified` can show a closed core between the first two
  sections of a Disconnect (`Races.ClosedCoreInsideDisconnect`), so openness is claimed
  outside that window.
- Disconnect (1040-1044) promises that the monitor has joined and the instance is closed when
  it returns. It may return while another Disconnect still has the core to close
  (`Races.SecondDisconnectFinishesFirst`), or while a superseded attempt waits for the ticker
  that has it (`Races.DisconnectFinishesBeforeTeardown`). Without these two, only a superseded
  attempt can still hold an open core (`LeakFreedom.UndisturbedDisconnect`).
- recoveryservice.go:369 and 375 release the mutex twice when an attempt is cancelled; the
  model releases it once, and no lemma speaks of it. A cancelled attempt sets no backoff.
- A record above `MaxRecordBytes` can be written but not read back, so the chunk round trip
  is an equivalence (`ChunkFile.ChunkRoundTrip`).
- Overwritten cache values are never handed to `OnEvict`; the accounting lemma carries them
  as a term of their own (`RecencyList.PutsAreAccountedFor`). `SetMaxEntries(0)` evicts
  nothing, and later Puts are dropped (`RecencyList.ZeroBoundFreezes`). With a weight function
  that returns negative numbers the byte bound can fail (`RecencyList.SignedRunOverflows`):
  exactly when an operation takes out an entry whose negative weight exceeds the room left and
  at least two entries stay (`RecencyList.ByteBoundBreaksExactly`).
- With negative limits a tick of high pressure raises settings, exactly the negative ones
  (`Booster.HighRaisesExactlyNegatives`), and a normal tick lowers sizes, exactly the negative
  ones above their floor (`Booster.DoublingLowersExactlyNegatives`).
- Built-in group counts take stamps before the epoch and empty ids whose store key is a
  favorite, the filter does not; the two agree exactly when no such record exists
  (`GroupFilter.CountsMatchTheFilter`).
- A stored order with repeated ids (the file is not deduplicated on load) makes MoveConfig
  keep the repeat; it is repeat-free exactly when the pruned order is
  (`ManualOrder.MoveIsPermutation`).
- `ReorderHop` documents a clamped position; a negative one means the end, not the start
  (`ChainRules.ReorderMovesOne`).
- Selection reloads records without filtering by trust again, so a record whose stamp is
  lowered in between is attempted (`SelectionRules.LoweredTrustIsAttempted`); what is ranked
  may be used exactly when the latest record of every shortlisted id may
  (`SelectionRules.RankedIsTrusted`).
- The id of a deleted group or chain is given out again after a reload
  (`ChainRules.DeletedIdReturns`): exactly when the document then holds no record with that
  number or a higher one (`ChainRules.NumberReturns`), and never between two reloads
  (`ChainRules.GivenOnceBetweenReloads`).
- Group and chain numbers wrap after 2^63 - 1, and then two groups can carry one id
  (`ChainRules.WrappedIdRepeats`).
- A comma inside a list element makes two configurations with different normal forms share
  a fingerprint (`ConfigIdentity.CommaHidesBoundary`); in general the fingerprint determines
  exactly the joined fields (`ConfigIdentity.PreimageIsFields`).
- A listing page skips records that cannot be read by their id (gone since the scan, or stored
  with an id that is not their key) and tells from the items left whether there is more
  (services.go:696-708). A reader who continues behind the items it received, as the
  configurations page does (frontend/src/pages/Configs.tsx:626), then reads a record twice
  (`Listing.GoneKeyRepeatsAnother`, `Listing.EndsWithRepeat`) or never gets on
  (`Listing.StuckForGood`); it reads exactly the live records if and only if all are live
  (`Listing.FollowingReadsExactly`). Pages a page size apart always give exactly the live
  records (`Listing.StridesReadAllLive`).
- A group or chain edit whose write fails is reported as an error and yet stays in memory, and
  the next save writes it (`ChainRules.FailedSaveKeepsEdit`, `ChainRules.SaveTakesEverything`).

## Model

| member | source | states |
|---|---|---|
| `Session.SessionManager.constructor` | engine/connection/connection.go:344-372 | a fresh manager is disconnected, with no instance and no evidence, and defaults fill the missing policy values |
| `Session.SessionManager.AcceptConnect` | engine/connection/connection.go:430-486 | a Connect is refused exactly after shutdown or in an active state; otherwise it opens a new generation in `selecting` with no attempts |
| `Session.SessionManager.Publish` | engine/connection/connection.go:758-776 | the instance enters the slot only for the current generation; a stale caller changes nothing and is told to close |
| `Session.SessionManager.MarkReady` | engine/connection/connection.go:819-844 | readiness is published only for the current generation |
| `Session.SessionManager.BeginVerifying` | engine/connection/connection.go:852-856 | the state becomes `verifying` whoever calls, without a gate |
| `Session.SessionManager.Judge` | engine/connection/connection.go:860-888 | a verification result is applied only to the generation it was taken for; success resets the failure counter and the pacing |
| `Session.SessionManager.Fail` | engine/connection/connection.go:1713-1736 | failure ends only the caller's own generation; generation 0 ends the current one |
| `Session.SessionManager.TakeDown` | engine/connection/connection.go:1070-1090 | hands the instance to the caller, empties the slot and wipes all evidence |
| `Session.SessionManager.ApplyRecheck` | engine/connection/connection.go:1570-1643 | a stale result changes nothing; a failed one counts, and only the threshold-th takes the instance and ends the generation |
| `Session.SessionManager.HandleCrash` | engine/connection/connection.go:1487-1512 | an exit of the current session's core fails the session, empties the slot and ends the generation |
| `Ownership.StepKeepsOrder` | engine/connection/connection.go:642-946 | every step of every thread keeps the ownership invariant: at most one attempt acts for a session, and who may still touch the slot |
| `LeakFreedom.NoCoreLeaks` | engine/connection/connection.go:745-800 | under A2 and A3, in every reachable state each started core is closed, in the slot, or held by a thread |
| `LeakFreedom.HoldersClose` | engine/connection/connection.go:758-800 | a holder is never blocked, and its next step closes the core, publishes it into its own live session, or turns to closing it |
| `LeakFreedom.FinishedDisconnect` | engine/connection/connection.go:1045-1107 | when a Disconnect finishes, the slot is empty, no session has an owner, and every open core is held by a superseded attempt, another Disconnect, or a monitor of an ended session somebody still waits for |
| `LeakFreedom.UndisturbedDisconnect` | engine/connection/connection.go:1036-1107 | if no other Disconnect is under way and no superseded attempt waits in stopMonitor, every open core is then held by a superseded attempt |
| `VerifiedState.VerifiedStateIsBacked` | engine/connection/connection.go:880-937 | in every reachable `connected_verified` state, also inside a Disconnect, the failure counter equals the trailing failed rechecks and is below the threshold, the slot holds a core, and the connect-time verification of the session that launched it succeeded; outside a Disconnect that core is open and that session is the current one |
| `VerifiedState.LeavingVerifiedState` | engine/connection/connection.go:1584-1665 | that state is left only by a Disconnect, by the exit of this session's core, or by exactly threshold consecutive failed rechecks |
| `NonInterference.LateThreadsDoNotInterfere` | engine/connection/connection.go:1531-1674 | under A1, A3 and A4, deleting all steps of superseded attempts, probes, ticks, teardowns and watchers from a run leaves a run with the same manager and the same history of verifications |
| `NonInterference.LateWritesExactly` | engine/connection/connection.go:852-856 | a late step other than the installation of a monitor changes the manager exactly if it sets `verifying` anew, takes a registered monitor, or ends a teardown over `disconnecting` |
| `Races.StaleVerifyingWedgesManager` | engine/connection/connection.go:852-856 | a run without A1 after which every call has returned, the state is `verifying`, every Connect is refused and only a Disconnect can happen |
| `Races.ConnectInsideDisconnectLosesInstance` | engine/connection/connection.go:1070-1104 | a run without A2 after which an instance is open and nobody will Close it |
| `Races.StaleMonitorLosesInstance` | engine/connection/connection.go:1377-1388 | a run without A3 after which an instance is open and nobody will Close it |
| `Races.StaleTailOverwritesDisconnect` | engine/connection/connection.go:1657-1665 | a run with A1 to A3 in which a superseded teardown turns the `disconnecting` of a Disconnect into `connection_failed` |
| `Races.SecondDisconnectFinishesFirst` | engine/connection/connection.go:1068-1107 | a Disconnect has finished while another still has the core to close |
| `Races.DisconnectFinishesBeforeTeardown` | engine/connection/connection.go:1684-1699 | a Disconnect has finished while a superseded attempt waits for a ticker that still has a core to close |
| `Races.ClosedCoreInsideDisconnect` | engine/connection/connection.go:1487-1512 | a run with A1 to A3 that shows a closed core in `connected_verified` during a Disconnect |
| `SessionDiagram.PhaseDiagram` | engine/connection/connection.go:44-102 | for every step of every interleaving: the phase it ends in, told by the section that runs, and that no other section enters that phase |
| `SessionDiagram.OnlyDisconnectDisconnects` | engine/connection/connection.go:1101-1104 | only the last section of a Disconnect makes the manager `disconnected` |
| `SessionDiagram.LeavingActivePhase` | engine/connection/connection.go:1487-1499 | an active phase ends in `disconnecting` when a Disconnect takes the core or the last allowed recheck misses, in `disconnected` at the end of a Disconnect, and else in `connection_failed` |
| `SessionDiagram.CrashFailsSession` | engine/connection/connection.go:1487-1499 | a core that dies leaves `connection_failed`, an empty slot and the next generation, and nothing else changes |
| `SessionDiagram.GenerationMoves` | engine/connection/connection.go:430-486 | the generation moves by one at a Connect, a Disconnect, a threshold teardown or a crash, and never else |
| `SessionDiagram.SlotMoves` | engine/connection/connection.go:758-903 | the slot is filled by the current attempt alone and emptied only by the end of its candidate or its session |
| `SessionDiagram.HistoryMoves` | engine/connection/connection.go:1743-1768 | the attempt history starts afresh with a Connect, is emptied by Shutdown, and else grows by what the current attempt records, a success only after its final phase |
| `SessionDiagram.EvidenceMoves` | engine/connection/connection.go:1230-1285 | the last result, the time of the last success and the next recheck time follow the accepted verifications, and a Disconnect forgets them |
| `SessionDiagram.ConnectAccepted` | engine/connection/connection.go:430-486 | a Connect is accepted exactly in `disconnected`, `disconnecting` and `connection_failed`, before Shutdown |
| `SessionDiagram.VerifyAccepted` | engine/connection/connection.go:1230-1250 | a verification on demand is accepted exactly while a published core is connected |
| `SessionDiagram.MonitorMoves` | engine/connection/connection.go:1377-1388 | the monitor is taken by stopMonitor and set by the installation of a new one |
| `SessionDiagram.NoConnectAfterShutdown` | engine/connection/connection.go:1335-1349 | after Shutdown was called no Connect is accepted in any continuation |
| `SessionDiagram.DisconnectedMeansAsked` | engine/connection/connection.go:1045-1107 | in every reachable state, under any schedule, a manager that accepted a Connect is `disconnected` only after a finished Disconnect |
| `AttemptHistory.HistoryListsCandidates` | engine/connection/connection.go:525-569 | in every reachable state, under any schedule, the history lists the candidates of one session from the first on, each once, and only the last can have succeeded |
| `AttemptHistory.FailedCandidatesAreListed` | engine/connection/connection.go:642-760 | while the current attempt tries a candidate, exactly the earlier candidates are listed, all as failed |
| `AttemptHistory.FailureTakesFailingPath` | engine/connection/connection.go:673-909 | a failed check, start, readiness wait or probe always takes the failing path of its candidate |
| `Recovery.RecoveryService.DecideIn` | engine/app/recoveryservice.go:236-366 | one decision does to the service what `Decide` says, for every snapshot and clock value |
| `Recovery.RecoveryService.ExpireCooldowns` | engine/app/recoveryservice.go:248-253 | exactly the failures younger than five minutes remain |
| `Recovery.RecoveryService.StartAttempt` | engine/app/recoveryservice.go:345-434 | an attempt is counted, excludes all remembered failures, and settles episode and backoff by its outcome |
| `Recovery.SixAttemptsPerHalfHour` | engine/app/recoveryservice.go:246-343 | during an outage any seven consecutive attempts span at least 30 minutes, wherever idle resets fall |
| `Recovery.BackoffDoubles` | engine/app/recoveryservice.go:379-390 | attempt k+1 of an episode starts at least 10·2^(k-1) seconds after attempt k, unless attempt k was cancelled |
| `Recovery.FailedCandidateCoolsDown` | engine/app/recoveryservice.go:301-305 | a candidate seen failing is excluded from every attempt of the next five minutes |
| `RecoveryRules.AttemptStartsExactly` | engine/app/recoveryservice.go:236-349 | an attempt starts exactly on a watched `connection_failed` snapshot when the episode is due and has attempts left, or none is under way and fewer than two were exhausted or half an hour has passed |
| `RecoveryRules.AttemptCarries` | engine/app/recoveryservice.go:345-349 | its ordinal is the next of its episode, and it excludes exactly the candidates that failed in the last five minutes and the one that failed now |
| `RecoveryRules.OffDoesNothing` | engine/app/recoveryservice.go:236-245 | a switched-off or stopped service changes nothing |
| `RecoveryRules.OtherPhasesStartNothing` | engine/app/recoveryservice.go:262-299 | no other phase starts an attempt; `connected_verified` and `disconnected` end the episode, the others keep it |
| `RecoveryRules.QuietSnapshotStartsOver` | engine/app/recoveryservice.go:263-282 | after a verified or user-ended session the next failure is answered by attempt 1 |
| `RecoveryRules.FailureWithoutAttempt` | engine/app/recoveryservice.go:301-343 | a failed snapshot without an attempt learns the candidate and waits, stays quiet after two episodes, or closes an episode whose attempts are spent |
| `RecoveryRules.AttemptSettles` | engine/app/recoveryservice.go:366-434 | success forgives exhausted episodes, failure announces the next attempt 10, 20 or 40 seconds later, a cancelled attempt counts as made |
| `RecoveryRules.CrashIsAnswered` | engine/app/recoveryservice.go:284-349 | the snapshot right after the crash of a session starts an attempt exactly when one is due and left |
| `RecoveryRules.SixAttemptsHappen` | engine/app/recoveryservice.go:306-343 | an idle service makes all six attempts within 100 seconds of a lasting failure |
| `QuickConnect.Selector.FilterCooldowns` | engine/app/quickconnect.go:652-687 | expired failures are forgotten; excluded and cooling records are dropped, the rest keep their order |
| `QuickConnect.Selector.FilterTrust` | engine/app/quickconnect.go:225-237 | keeps exactly the routes automatic selection may use and counts the others |
| `QuickConnect.Selector.Classify` | engine/app/quickconnect.go:380-393 | separates verified successes from records without one or with a fresher failure |
| `QuickConnect.Selector.BuildShortlist` | engine/app/quickconnect.go:375-438 | recent successes first, then ranked candidates, without repeats, up to the limit |
| `QuickConnect.Selector.RankShortlist` | engine/app/quickconnect.go:558-595 | the shortlist refreshed and re-ranked |
| `QuickConnect.Selector.ConnectFirst` | engine/app/quickconnect.go:276-319 | walks the ranked list until a verified connection, a cancellation or the end, and remembers each failure |
| `QuickConnect.Selector.RecordFailure` | engine/app/quickconnect.go:634-648 | stores the failure time of a named candidate |
| `QuickConnect.Selector.Loop` | engine/app/quickconnect.go:184-332 | the whole loop computes `RunLoop` and leaves its failure memory |
| `SelectionRules.AttemptsAreEligible` | engine/app/quickconnect.go:184-332 | at most eight attempts, each id once, each standing for a scanned record that is trusted or opted into, not excluded and not cooling at the start |
| `SelectionRules.RecentSuccessesComeFirst` | engine/app/quickconnect.go:375-438 | a verified record is left off the shortlist only if the list is full of verified records at least as recent (or holds its id by such a record) |
| `SelectionRules.NoneLeftOffUnlessFull` | engine/app/quickconnect.go:400-437 | while the shortlist has room every record with an id is on it, for every ranking |
| `SelectionRules.GivesUpOnlyAfterTryingAll` | engine/app/quickconnect.go:276-331 | a loop that gives up uncancelled has failed with every candidate on its shortlist |
| `SelectionRules.AttemptedRoutesAreTrusted` | engine/app/quickconnect.go:216-274 | every record connected to is trusted or opted into, if the latest record of each shortlisted id is |
| `SelectionRules.RankedIsTrusted` | engine/app/quickconnect.go:264-274 | everything the loop ranks may be used exactly under that condition |
| `SelectionRules.LoweredTrustIsAttempted` | engine/app/quickconnect.go:264-271 | with a store of one record whose trust is lowered between the scans, the untrusted record is attempted without consent |
| `SelectionRules.OnlyUntrustedReported` | engine/app/quickconnect.go:239-254 | the untrusted-only error is returned exactly when candidates are left and none may be used, and then nothing was attempted |
| `SelectionRules.CooldownAcrossLoops` | engine/app/quickconnect.go:634-687 | over sequential loops, no loop that starts within five minutes of a candidate's failure attempts it |
| `SelectionOutcome.LoopOutcome` | engine/app/quickconnect.go:276-332 | for any outcomes: the loop goes down the ranked list through failures only, stops at the first attempt that did not fail, and answers with that record if it verified |
| `SelectionOutcome.ChosenIsVerified` | engine/app/quickconnect.go:291-307 | the reported record is the last attempted and the one that verified; every earlier attempt failed and is recorded, the chosen one is not |
| `SelectionOutcome.SucceedsExactly` | engine/app/quickconnect.go:276-332 | a loop succeeds exactly when a usable candidate exists and some ranked one verifies before a cancellation |
| `SelectionOutcome.NoViableMeansNoneVerified` | engine/app/quickconnect.go:319-332 | an uncancelled loop without a viable route met only failures, over its whole ranked list |
| `SelectionOutcome.EarlyStopIsCancellation` | engine/app/quickconnect.go:278-281 | a loop that stops early without success was cancelled there |
| `SelectionOutcome.LoopRemembersExactly` | engine/app/quickconnect.go:634-648 | the failure memory afterwards is what had not expired and the failures met |
| `SelectionOutcome.PoolExactly` | engine/app/quickconnect.go:652-687 | candidates are the scanned records neither excluded nor failed within five minutes |
| `SelectionOutcome.HasRouteExactly` | engine/app/quickconnect.go:225-254 | a loop has a route exactly when some candidate is trusted or the user opted in |
| `SelectionOutcome.LimitMeans` | engine/app/quickconnect.go:184-200 | the requested limit holds between one and eight, and is eight otherwise |
| `SelectionOutcome.ProvenExactly` | engine/app/quickconnect.go:380-393 | a success counts as recent unless a later test failed within the hour |
| `Supervision.ManagedProcess.BeginStop` | system/system.go:705-731 | exactly the first caller runs the termination |
| `Supervision.ManagedProcess.RecordStop` | system/system.go:733-747 | records the result and stops a running or stopping process |
| `Supervision.ManagedProcess.Finish` | system/system.go:603-612 | the exit state is recorded only over `running` |
| `Supervision.ManagedProcess.TakeJob` | system/system.go:846-860 | the job handle is handed out once |
| `Supervision.StopIsIdempotent` | system/system.go:705-747 | in every interleaving: one termination, no channel closed twice, the job closed at most once, all Stop callers see one result, and success is reported only after exit |
| `Supervision.ExitSignalledLast` | system/system.go:603-639 | exit is signalled only after descendants are reaped and the job is closed |
| `Supervision.StateFollowsDiagram` | system/system.go:570-639 | the state moves only from running to stopping, exited or cancelled, and from stopping to stopped |
| `Supervision.ForcedOnlyAfterAsking` | system/system.go:875-906 | in every interleaving the process is asked before it is forced, each at most once; a Stop that reports failure has forced it, and after a returned Stop the process is neither running nor stopping |
| `Supervision.ExitIsClassified` | system/system.go:570-589 | a clean exit is `exited`, an unclean one `stopped` once a Stop began, `cancelled` if the context ended, and else `exited` |
| `ProcessTree.BuildChildren` | system/process_windows.go:259-272 | the table maps each parent to its children in snapshot order |
| `ProcessTree.TreeWalk.Walk` | system/process_windows.go:279-292 | for any table, cyclic or not, the walk ends and keeps visited and order consistent in post-order |
| `ProcessTree.ProcessTreeIDs` | system/process_windows.go:249-298 | exactly the processes reachable from the root, each once, the root last, and without cycles every process before its parent |
| `ProcessTree.TreeIsComplete` | system/process_windows.go:274-298 | what a finished walk from the root amounts to |
| `CacheLayer.CacheLayer.constructor` | engine/cache/cache.go:79-95 | a new layer is empty, with a non-negative bound |
| `CacheLayer.CacheLayer.Get` | engine/cache/cache.go:103-137 | answers and reorders as the recency list does, and counts the hit or miss |
| `CacheLayer.CacheLayer.Put` | engine/cache/cache.go:139-184 | inserts and evicts as the recency list does |
| `CacheLayer.CacheLayer.Invalidate` | engine/cache/cache.go:187-195 | removes the key as the recency list does |
| `CacheLayer.CacheLayer.Clear` | engine/cache/cache.go:197-216 | empties the layer and reports every value, newest first |
| `CacheLayer.CacheLayer.SetMaxEntries` | engine/cache/cache.go:218-228 | sets the bound and evicts as the recency list does |
| `CacheLayer.CacheLayer.EvictOverflow` | engine/cache/cache.go:282-312 | evicts the oldest entries, and only as many as the bounds require |
| `RecencyList.AlwaysBounded` | engine/cache/cache.go:139-228 | after every operation keys are distinct and the entry bound holds; if weights are not negative the byte bound holds, or one entry remains over it |
| `RecencyList.ByteBoundBreaksExactly` | engine/cache/cache.go:103-228 | an operation breaks a byte bound that held exactly when it takes out an entry whose negative weight exceeds the room left, and at least two entries stay |
| `RecencyList.SignedRunOverflows` | engine/cache/cache.go:187-195 | a run of three Puts and an invalidation that ends over the byte bound |
| `RecencyList.ZeroBoundFreezes` | engine/cache/cache.go:218-228 | a bound of zero evicts nothing that fits the byte bound, and then drops every Put |
| `RecencyList.HitIsLastPut` | engine/cache/cache.go:103-184 | a hit returns the value and generation of the last accepted Put of that key |
| `RecencyList.PutsAreAccountedFor` | engine/cache/cache.go:139-312 | accepted Puts equal live entries plus OnEvict calls plus overwrites |
| `LruInclusion.LargerLayerNeverMisses` | engine/cache/cache.go:103-184 | on the same operations without byte bound or TTL, what a smaller layer answers a larger one answers too |
| `CacheHistory.HitsExactly` | engine/cache/cache.go:103-133 | a Get answers v exactly when the key is held and its last accepted Put stored v under the asked generation no longer ago than the TTL |
| `CacheHistory.ExpiredNeverHits` | engine/cache/cache.go:117-122 | after its TTL a value is never answered again |
| `CacheHistory.PutThenGet` | engine/cache/cache.go:137-184 | what was just stored is answered under its generation for the whole TTL, and then no more |
| `CacheHistory.PutIsHeld` | engine/cache/cache.go:137-184 | an accepted Put leaves its key held, whatever is evicted for it |
| `CacheHistory.OnlyPutsBringIn` | engine/cache/cache.go:137-184 | nothing but an accepted Put makes a key held |
| `CacheHistory.ForgottenIsGone` | engine/cache/cache.go:103-210 | a missed, invalidated or cleared key is gone |
| `CacheHistory.OthersKeep` | engine/cache/cache.go:103-210 | other operations that cannot overflow the layer leave a held key held |
| `CacheHistory.HeldByLastUse` | engine/cache/cache.go:103-184 | after any operations the keys stand by last use, the most recent first |
| `CacheHistory.EvictsLeastRecent` | engine/cache/cache.go:282-312 | an evicted key was last used before every key that stays |
| `CacheHistory.EvictsOnlyAsNeeded` | engine/cache/cache.go:282-302 | what stays is the longest run of recent entries that fits, and each evicted value is reported once, oldest first |
| `CacheHistory.BoundMoves` | engine/cache/cache.go:218-228 | the entry bound is what SetMaxEntries last asked for, and never negative |
| `Grouping.Chunker.constructor` | engine/chunks/chunks.go:191-202 | the target is the request, kept between the two limits |
| `Grouping.Chunker.Group` | engine/chunks/chunks.go:215-260 | consecutive lawful batches of all records in order, and no lawful cut has fewer |
| `Grouping.GreedyIsOptimal` | engine/chunks/chunks.go:215-260 | no consecutive lawful cut uses fewer batches than a greedy one |
| `Crc.UpdateAppend` | engine/chunks/chunks.go:474-500 | the incremental checksum over pieces is the checksum of the whole |
| `Crc.FeedIsEntry` | engine/chunks/chunks.go:298-298 | one byte through the CRC table is eight division steps of the register mixed with it |
| `Crc.ChangedByteChangesChecksum` | engine/chunks/chunks.go:474-500 | changing one byte always changes the CRC-32 |
| `CrcResidue.ResidueLaw` | engine/chunks/chunks.go:298-298 | any data followed by its own checksum, lowest byte first, has the residue of CRC-32 IEEE |
| `CrcResidue.CheckValue` | engine/chunks/chunks.go:475-475 | the text 123456789 has the check value of CRC-32 IEEE |
| `ChunkFile.EncodeHeader` | engine/chunks/chunks.go:134-149 | writes the header bytes in place and leaves the rest of the buffer alone, or refuses a short buffer |
| `ChunkFile.HeaderRoundTrip` | engine/chunks/chunks.go:134-166 | decoding an encoded header gives it back |
| `ChunkFile.DecodedHeaderBytes` | engine/chunks/chunks.go:151-166 | an accepted header re-encodes to the bytes it was read from, except the four reserved bytes, which decoding ignores |
| `ChunkFile.WriteChunk` | engine/chunks/chunks.go:266-319 | the file is the header with count and checksum followed by the framed records |
| `ChunkFile.Reader.Next` | engine/chunks/chunks.go:443-469 | returns the next record, end of file after the counted records, or the corruption it met |
| `ChunkFile.Reader.Verify` | engine/chunks/chunks.go:474-500 | accepts exactly when all records read and the running checksum matches |
| `ChunkFile.ReadChunk` | engine/chunks/chunks.go:509-533 | all records of the file, or the first error |
| `ChunkFile.VerifyChunk` | engine/chunks/chunks.go:401-500 | opening and verifying a file accepts it exactly when header, records and checksum agree |
| `ChunkFile.ChunkRoundTrip` | engine/chunks/chunks.go:280-319 | reading a written chunk gives the records back exactly when each is at most MaxRecordBytes (and their number fits 32 bits) |
| `ChunkFile.VerifyAcceptsWritten` | engine/chunks/chunks.go:474-500 | Verify accepts what was written |
| `ChunkFile.VerifyDetectsChangedByte` | engine/chunks/chunks.go:474-500 | changing exactly one byte of any record body makes Verify fail |
| `ChunkLayout.WrittenHeader` | engine/chunks/chunks.go:133-148 | byte by byte: FIRC, version 1, flags, record count, four zero bytes and the checksum of everything after byte 20 |
| `ChunkLayout.WrittenResidue` | engine/chunks/chunks.go:298-330 | a written payload with the header's checksum bytes behind it has the residue of CRC-32 |
| `ChunkLayout.WrittenRecord` | engine/chunks/chunks.go:290-296 | every record stands at its offset with its length before it, and the file ends with the last |
| `Booster.Controller.constructor` | engine/booster/booster.go:143-166 | starts at half of each ceiling, within the limits; zero limits mean the defaults |
| `Booster.Controller.Tick` | engine/booster/booster.go:191-330 | one tick does to settings and cooldown what `Next` says |
| `Booster.AlwaysWithin` | engine/booster/booster.go:143-330 | on every tick sequence every setting stays between its floor and ceiling |
| `Booster.CriticalGivesFloors` | engine/booster/booster.go:262-271 | one critical tick gives exactly the floors, from any state |
| `Booster.SustainedHigh` | engine/booster/booster.go:251-260 | with floors that are not negative, n ticks of high pressure raise nothing, cut concurrency by at least n or to the floor, and divide the sizes by 2^n or reach the floor |
| `Booster.HighRaisesExactlyNegatives` | engine/booster/booster.go:251-260 | a high tick raises a setting exactly when it is negative and below its ceiling |
| `Booster.SustainedHighReachesFloors` | engine/booster/booster.go:251-260 | with floors that are not negative, enough ticks of high pressure reach six floors and leave the queue depth alone |
| `Booster.DefaultsReachFloors` | engine/booster/booster.go:67-84 | with the default limits 25 ticks are enough |
| `Booster.DepthGrowthIsPaced` | engine/booster/booster.go:273-312 | within a normal stretch two growths of the queue depth are at least three ticks apart |
| `Booster.StartsAtHalf` | engine/booster/booster.go:143-166 | every setting starts at half its ceiling, or at its floor if that is higher |
| `Booster.NormalTick` | engine/booster/booster.go:225-240 | a normal tick lowers nothing, and raises each of the four settings exactly under its signal and below its ceiling |
| `Booster.DoublingLowersExactlyNegatives` | engine/booster/booster.go:234-240 | with negative floors it lowers exactly the negative sizes above their floor |
| `Booster.DepthGrowsExactly` | engine/booster/booster.go:273-312 | when the queue deepens and by how much, for every pressure |
| `Booster.ElevatedTick` | engine/booster/booster.go:242-250 | an elevated tick holds concurrency and halves the batch, and the cache under a low hit rate |
| `Booster.ThrivingGrows` | engine/booster/booster.go:225-240 | n ticks with backlog, spare CPU and a useful cache raise queue concurrency by n and multiply the cache by 2^n, up to their ceilings |
| `Listing.LessIsAsymmetric` | engine/app/services.go:762-863 | every comparator is irreflexive and asymmetric |
| `Listing.LessIsTransitive` | engine/app/services.go:762-863 | every comparator is transitive, in both directions |
| `Listing.LessIsTotal` | engine/app/services.go:762-863 | every comparator is total on distinct ids |
| `Listing.SortSorts` | engine/app/services.go:854-862 | sorting yields the permutation in strictly ascending order |
| `Listing.AscendingIsUnique` | engine/app/services.go:756-761 | there is only one such arrangement of given keys |
| `Listing.StridesReadAllLive` | engine/app/services.go:681-708 | pages a page size apart give every live key once and in order |
| `Listing.FollowingReadsExactly` | engine/app/services.go:696-708 | a reader who continues behind the items it received reads exactly the live keys if and only if every key is live |
| `Listing.EndsWithRepeat` | engine/app/services.go:696-708 | if it ends although some key is not live, it read a key twice |
| `Listing.StuckTurn` | engine/app/services.go:696-708 | a page leaves it where it was exactly when the window holds no live key |
| `Listing.StuckForGood` | engine/app/services.go:696-708 | and then it never gets on |
| `Listing.GoneKeyRepeatsAnother` | engine/app/services.go:696-708 | three keys on one page, the second gone: the third is read twice |
| `ListingRules.ListConfigsFiltered` | engine/app/services.go:583-711 | the page holds the readable keys of the window of the sorted matches, the true total, and whether the items left reach it |
| `ListingRules.ReadWindow` | engine/app/services.go:696-703 | unreadable records are skipped, the others keep their order |
| `ListingRules.FilterMatches` | engine/app/services.go:883-922 | a record passes exactly when every filter accepts it |
| `ListingRules.ListingIgnoresScanOrder` | engine/app/services.go:574-582 | with an explicit sort, any scan order of the same records gives the same listing |
| `ListingRules.PagesCoverMatches` | engine/app/services.go:679-711 | pages a page size apart give exactly the live matches, in strictly ascending order, for every field and direction |
| `ListingRules.ScanIsApart` | engine/app/services.go:631-679 | the keys of one scan with distinct ids satisfy what every order needs, the manual one included |
| `ListingRules.ScanPositionsGrow` | engine/app/services.go:631-675 | scan positions of the collected keys are distinct |
| `ListingOrder.CompareMeans` | engine/app/services.go:762-863 | the comparison of texts is dictionary order |
| `ListingOrder.LessMeans` | engine/app/services.go:762-863 | every sort name and direction puts first the record its field says: measured before unmeasured and then by latency, by test time, by protocol, source, address or id, ties by id; without a name the user's places, then store order |
| `ListingOrder.MatchesAreRecords` | engine/app/services.go:631-675 | the matches are the readable records the filter wants, each shown by its own fields |
| `ListingOrder.PageIsOrdered` | engine/app/services.go:679-711 | of two records on a page the first shown is the one its sort name and direction put first |
| `ListingOrder.FastestFirst` | engine/app/services.go:768-796 | a latency page shows measured records before unmeasured ones, by rising latency |
| `ListingOrder.PageShows` | engine/app/services.go:583-711 | a page shows exactly the readable keys it covers, the true total, and whether others follow |
| `ListingOrder.StatusesPartition` | engine/app/services.go:883-922 | a stored record is shown under exactly one of the statuses working, failed and untested |
| `ListingOrder.GroupsNest` | engine/app/services.go:976-1043 | fast records are working ones of at most 400 ms, recent ones tested within a day |
| `GroupFilter.CompileMemberSet` | engine/app/services.go:930-961 | the compiled set holds exactly the members of the group |
| `GroupFilter.Matches` | engine/app/services.go:976-1043 | with the compiled set or without it the answer is the same, for every group id and record |
| `GroupFilter.ScanCounts` | engine/app/collections.go:712-776 | one scan fills six counters, each with its own total |
| `GroupFilter.CountsMatchTheFilter` | engine/app/collections.go:712-776 | each built-in count is at least what its filter returns, and equal exactly when the store holds no stray record |
| `Sequences.Dedupe` | engine/app/configorderservice.go:133-147 | the first occurrences of the non-empty ids, in order |
| `Sequences.DedupedIsDistinct` | engine/app/collections.go:241-251 | these are distinct and are exactly the non-empty ids given |
| `ManualOrder.OrderService.constructor` | engine/app/configorderservice.go:54-74 | a loaded order is kept unless it is too long |
| `ManualOrder.OrderService.SetConfigOrder` | engine/app/configorderservice.go:132-150 | saves the first occurrences of the non-empty ids, or changes nothing |
| `ManualOrder.OrderService.MoveConfig` | engine/app/configorderservice.go:156-215 | saves the moved order, or changes nothing |
| `ManualOrder.CompleteMembers` | engine/app/configorderservice.go:165-182 | the completed order names exactly the stored ids |
| `ManualOrder.MoveRearranges` | engine/app/configorderservice.go:206-212 | a move is a permutation with the id at its index and the others in unchanged order |
| `ManualOrder.MoveIsPermutation` | engine/app/configorderservice.go:156-233 | a move succeeds exactly for stored ids; its result names the stored ids, has the id at the clamped index, the others in unchanged relative order, and is repeat-free exactly when the pruned order is |
| `ManualOrder.OrderStaysRepeatFree` | engine/app/configorderservice.go:132-215 | over any run of calls a repeat-free order stays repeat-free |
| `ChainService.ValidateHopList` | engine/app/proxychain.go:458-490 | accepts exactly two to four distinct, non-empty, stored hops that are no chains |
| `ChainService.NextIdFor` | engine/app/collections.go:268-283 | the successor of the highest number in use, in 64 bits |
| `ChainService.CollectionsState.LoadCollections` | engine/app/collections.go:159-265 | loads, migrates, deduplicates and sorts the document and derives the counters |
| `ChainService.CollectionsState.SaveCollections` | engine/app/collections.go:287-316 | writes the records, unless the write fails or the document is newer |
| `ChainService.CollectionsState.CreateProxyChain` | engine/app/proxychain.go:138-189 | adds a chain under a new id in memory and on disk; refused, it changes nothing, and with a failed write it changes memory only |
| `ChainService.CollectionsState.DeleteProxyChain` | engine/app/proxychain.go:218-235 | removes the chain, with the same two failures |
| `ChainService.CollectionsState.AddChainHop` | engine/app/proxychain.go:239-284 | inserts the hop, with the same two failures |
| `ChainService.CollectionsState.RemoveChainHop` | engine/app/proxychain.go:289-319 | removes the hop, with the same two failures |
| `ChainService.CollectionsState.ReorderChainHop` | engine/app/proxychain.go:322-367 | moves the hop, with the same two failures |
| `ChainService.CollectionsState.AddToUserGroup` | engine/app/collections.go:510-537 | adds the member once, with the same two failures |
| `ChainRules.RunsStayOrderly` | engine/app/proxychain.go:138-490 | over any run of edits, failed saves and reloads ids stay unique in memory and in every document written, and below the counters in memory and in what a reload would find; started from valid chains, every chain keeps two to four distinct non-nested hops |
| `ChainRules.AnyDocumentStarts` | engine/app/collections.go:159-265 | any document, whatever its chains, loads to a state from which these runs keep ids unique |
| `ChainRules.ReloadIsLossless` | engine/app/collections.go:159-265 | reading a saved sidecar back gives exactly the records written |
| `ChainRules.RefusedChangesNothing` | engine/app/proxychain.go:239-367 | an edit refused by validation changes nothing |
| `ChainRules.FailedSaveKeepsEdit` | engine/app/collections.go:287-316 | an edit whose write fails is reported as not saved and stays in memory as if it had been |
| `ChainRules.SaveTakesEverything` | engine/app/collections.go:287-316 | the next saved edit writes all of memory, unsaved edits included |
| `ChainRules.RemoveUndoesAdd` | engine/app/proxychain.go:268-275 | the added hop stands at its position, and removing it restores the list |
| `ChainRules.ReorderMovesOne` | engine/app/proxychain.go:347-358 | reordering moves one hop and leaves the others in their order |
| `ChainRules.FreshId` | engine/app/collections.go:268-283 | a number at or above the counter is carried by no record in the list |
| `ChainRules.GivenOnceBetweenReloads` | engine/app/collections.go:441-442 | between two reloads no id is given out twice, even if its record was deleted |
| `ChainRules.NumberReturns` | engine/app/collections.go:261-283 | a reload sets the counter at or below a number exactly when the document holds no record with that number or a higher one |
| `ChainRules.DeletedIdReturns` | engine/app/collections.go:261-283 | create, delete and reload lead back to the empty state, so that the next group gets the deleted one's id |
| `ChainRules.AnyDocumentLoadsClean` | engine/app/collections.go:212-255 | whatever the document, the loaded ids are unique and fit their kind, and members are distinct |
| `ChainRules.WrappedCounterRepeats` | engine/app/collections.go:268-283 | with a record numbered 2^63 - 1 every load proposes the same next number |
| `ChainRules.WrappedIdRepeats` | engine/app/collections.go:268-283 | create, reload, create then leaves two groups with one id |
| `ChainRules.LastNumberLoads` | engine/app/collections.go:268-283 | a document whose one group has the last number loads to such a state |
| `ChainEdits.RenameExactly` | engine/app/proxychain.go:192-215 | a rename is refused exactly for an empty name or an unknown record, and changes the name of that record only |
| `ChainEdits.DeleteExactly` | engine/app/proxychain.go:218-235 | a deletion is refused exactly for an unknown record, and takes out that record only |
| `ChainEdits.AddHopExactly` | engine/app/proxychain.go:239-284 | a hop is added exactly when the chain takes it, at the asked place or at the end |
| `ChainEdits.RemoveHopExactly` | engine/app/proxychain.go:289-319 | a hop is removed exactly when the chain has it and keeps two |
| `ChainEdits.ReorderHopExactly` | engine/app/proxychain.go:322-367 | a hop is moved exactly when the chain has it, to the asked place of the remaining list or its end |
| `ChainEdits.HopEditsNeedChain` | engine/app/proxychain.go:239-367 | hop edits of an unknown chain are refused |
| `ChainEdits.AddMemberExactly` | engine/app/collections.go:510-537 | a member is added once, at the end of its group; a second addition changes nothing |
| `ChainEdits.RemoveMemberExactly` | engine/app/collections.go:541-565 | removing a member takes it out of its group and of no other |
| `ChainEdits.CreateChainExactly` | engine/app/proxychain.go:138-189 | a chain is created exactly under a free name of 1 to 64 characters with lawful hops, with the next number, into a list sorted by name |
| `ChainEdits.CreateGroupExactly` | engine/app/collections.go:419-463 | a group is created exactly under such a name, without members |
| `ChainEdits.LoadExactly` | engine/app/collections.go:212-265 | loading keeps exactly the first sound record of each id, migrated and deduplicated, sorted by name |
| `Decimal.AtoiOfFormat` | engine/app/collections.go:276-276 | reading a written number gives it back |
| `ConfigIdentity.NormalizeIsIdempotent` | engine/config/config.go:660-755 | normalizing the identity fields twice is normalizing once |
| `ConfigIdentity.PreimageIsIdentity` | engine/config/config.go:763-791 | two configurations hash the same text exactly when their twenty normalized fields agree, whatever was measured |
| `ConfigIdentity.CommaHidesBoundary` | engine/config/config.go:763-791 | for distinct trimmed elements the hashed texts agree although the normal forms differ |
| `ConfigIdentity.PreimageIsFields` | engine/config/config.go:763-791 | with only NUL excluded, the hashed text determines exactly the twenty joined fields |
| `ConfigIdentity.Record.CompactStrings` | engine/config/config.go:731-755 | trimmed, non-empty, first occurrences |
| `ConfigIdentity.Record.Canonicalize` | engine/config/config.go:660-728 | the identity fields are normalized and the name trimmed in place, an unknown failure class is cleared, and nothing else changes |
| `ConfigIdentity.Record.FingerprintText` | engine/config/config.go:763-791 | the text of the record before and after normalization; of the measurements only an unknown failure class is cleared |
| `ConfigSpelling.TrimExactly` | engine/config/config.go:660-728 | trimming answers the same exactly for texts that differ in the white space around them |
| `ConfigSpelling.FoldExactly` | engine/config/config.go:660-728 | folding answers the same exactly for texts that differ in that and in letter case |
| `ConfigSpelling.NormalizeExactly` | engine/config/config.go:660-755 | configurations normalize alike exactly when verbatim fields are equal, six fields differ in white space only, six in letter case too, and the lists keep the same elements |
| `ConfigSpelling.SpellingsHashAlike` | engine/config/config.go:763-791 | such spellings hash the same text |
| `ConfigSpelling.OnlySpellingsHashAlike` | engine/config/config.go:763-791 | and without separators in the fields no others do |
| `ConfigSpelling.ListKeepsFirsts` | engine/config/config.go:731-755 | a list keeps each non-empty trimmed element once, in the order of first appearance |
| `Joining.JoinIsInjective` | engine/config/config.go:766-791 | parts without the separator are determined by what they join to |
| `ChainConfig.HopsOfComposed` | engine/config/config.go:366-378 | the hops of a composed chain are the original ones in order, with only the exit renamed, and fingerprint as before |
| `ChainConfig.ChainTextIsInjective` | engine/config/config.go:808-826 | chains hash the same text exactly when exit and hops have the same digests in order |
| `ChainConfig.ChainTextIsNoPlainText` | engine/config/config.go:808-826 | a chain of fewer than eighteen earlier hops never hashes the text of a single configuration |
| `ChainConfig.BuildChainConfig` | engine/app/proxychain.go:564-619 | succeeds exactly when the chain exists, has two hops and all are stored, and composes them under the chain's id and name |

## Left out

- LeakFreedom.NoCoreLeaks: assumes A2 and A3, which the code does not enforce; cancelling the session context, which kills a process without Close, does not count as closing.
- VerifiedState.VerifiedStateIsBacked: that the core is open is claimed only outside a Disconnect, because inside one a late crash report may have closed it.
- NonInterference.LateThreadsDoNotInterfere: assumes A1, A3 and A4, which the code does not enforce; the shortened run does not wait in stopMonitor for threads whose steps were deleted.
- Recovery.RecoveryService.StartAttempt: on the cancelled path the mutex is released once, not twice as in the code.
- ListingRules.ListConfigsFiltered: an item stands for its record by its key; what the hot cache returns is not modelled, only whether the record can be read.
- ChainService.CollectionsState.LoadCollections: favorites are left out, and so are unreadable documents and those before version 1, which load as empty.
- ChainRules.RunsStayOrderly: speaks of runs whose counters stay below 2^63 - 1, because beyond it ids repeat.
- Session fields `coreName`, `lastError`, `corePID`, ports and latency, which the manager writes ungated, nil receivers, the snapshot publisher and the same-backend retry.
- Tunnel probes, backend selection, start and readiness, ranking scores, the store, the test queue and its fresh tests: they are free inputs; ranking is any permutation.
- Operating-system calls, logging, metrics, JSON and file writes: process exit is a free step, a write succeeds or fails by an input.
- Clocks: every time is an input; the time reads of one classification or listing pass are one reading.
- `recordQuickConnectFailure` also tells the recovery service; in `Recovery` such reports arrive as the `noted` input.
- Name clashes under Unicode case folding are an input of group and chain creation; names arrive trimmed.
- The text query of a listing is a predicate.
- The favorites toggle and the methods that rename or delete groups; their effects are edits in `Chains`.
- Strings are sequences of characters; `Normalize` is modelled for the identity fields, the name and the failure class, over any lower-casing that is idempotent and keeps white space.
- SHA-256: only the hashed texts are modelled.
- `AppendTestObservation`, `ClassifyFailure`, evidence ages, `killProcessTree`, chunk ids, cache statistics, listeners of the booster: easy members.
