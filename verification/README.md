# Verified model of the Wazir control plane

Wazir hands work to remote workers through a control plane that several API processes may run at once over
one key-value store. This project models the parts of it whose correctness spans many operations, and proves
what they promise for every input and every run.

- **Lease-fenced dispatch** (`dispatch_record.dfy`, `dispatch_runs.dfy`, `dispatch_store.dfy`, `dispatch_lives.dfy`,
  `task_dispatcher.dfy`). A dispatch record is changed only inside atomic updates. `DispatchRuns` takes any
  interleaving of such updates by any number of processes, under a clock that never goes back and with fresh
  lease tokens, and proves mutual exclusion, at-most-once commit and no replay. `DispatchStore` looks at the
  store as a log of single writes, so that a process may stop after any of them; it proves that the index of
  pending work never loses a record. `DispatchLives` reads each id's updates out of the log as runs of the first
  kind, so that what holds of runs holds of the log.
  `TaskDispatcher` is the object itself, its loops proved against those specifications.
- **Line diff** (`line_diff.dfy`). The table and the walk, proved against arbitrary edit scripts.
- **Execution history** (`execution_merge.dfy`, `execution_paging.dfy`). The epoch-fenced merge of reports over
  whole histories, and cursor paging over listings that change between fetches.
- **Device credentials** (`device_credentials.dfy`), **task list** (`task_merge.dfy`), **host registry**
  (`host_registry.dfy`), **SSH profiles** (`ssh_config.dfy`), **context windows** (`context_allocation.dfy`) and
  **rejection handlers** (`crash_scopes.dfy`).

`dafny verify dfyconfig.toml` checks everything.

## Where the code does not keep a promise

- Two processes with different lease durations can make promised lease intervals overlap: a renewal by the one
  with the shorter duration cuts a promise short (`ShortRenewalOverlaps`). Intervals are exclusive exactly if all
  processes use one duration (`ExclusiveIffOneDuration`); the interval granted last is always respected
  (`LeasesDoNotOverlap`).
- Recovery runs before redelivery so that work that must not be replayed is not offered again, but it reads the
  clock earlier: such work is offered when its lease runs out in between (`SpentWorkIsSent`, exact condition in
  `SentIsFreeIff`). A worker that tries to claim it is still refused.
- The retention option says that an undefined or zero retention keeps completed records forever. Start-up does
  so, a pruning call with its defaults deletes them. The two also treat a record that completed exactly at the
  cutoff differently (`RetentionRulesDiffer`, exact condition in `RetentionRulesAgreeIff`).
- The start-up scan indexes a record under the id of its request, not under its key. A record filed under another
  key stays out of sight (`MisfiledIsNotCovered`, exact condition in `ReindexCoversIff`); no write creates one.
- A page cursor whose row is gone starts the listing over (`LostCursorStartsOver`), so a row can be
  received twice (`LostCursorRepeatsRow`), and a requested page size
  strictly between zero and one becomes zero rows (`PageSizeIsPositive`).
- The output reserve is documented to shrink to a floor before a request is refused; a request whose floor fits
  can still be refused (`FloorFitsYetRefused`, exact condition in `PromiseBrokenIff`). A request judged to fit can be
  sent with a smaller context than it needs when the operator's setting is below the model's window
  (`SentWithTooLittle`, `SentContextHoldsIff`), and the context size sent to a model shrinks when the window does
  (`ShrinksOnSmallerWindow`, `ShrinksIff`).
- Stopping between the two writes that remove the active host leaves an active id that names no host
  (`CrashLosesActiveHost`, `CrashIsHarmlessUnless`).
- Closing rejection scopes out of order can leave the handler of a closed scope in place
  (`ClosedScopeStaysInPlace`, exact condition in `RestoredIffStackEmpty`), and installing the global handlers inside a
  scope leaves two listeners (`LateInstallLeavesTwo`, `StepKeepsSingle`).
- The two SSH parsers differ on ports out of range (`ParsersDiffer`); `ParsersAgreeIff` says exactly when they agree.
- A large diff is minimal only if the two texts share no line (`LargeTextIsRewritten`, `ComputeDiffLines`).

## Model

| member | source | states |
|---|---|---|
| DispatchRecord.RepliesFollowPhase | apps/api/src/server.ts:227-352 | the exact answer to every operation, success or error code, from whether the record is finished, held, spent or free at that moment, its owner and the token |
| DispatchRecord.MissingRecordIsRefused | apps/api/src/server.ts:227-352 | operations on an unknown id are refused, those with a token as a lost lease |
| DispatchRecord.NewRecordIsFree | apps/api/src/server.ts:215-218 | a dispatched request starts free, unmarked and without history |
| DispatchRecord.PhaseStep | apps/api/src/server.ts:227-352 | an update moves a record only from free to held or finished, from held to finished or from spent to finished; a finished record never changes |
| DispatchRecord.ReconcileMeaning | apps/api/src/server.ts:255-261 | recovery ends spent work, marks free work of offline owners, leaves all else, and repeating it changes nothing |
| DispatchRuns.OutcomeIsFinal | apps/api/src/server.ts:227-352 | in every run, once a record has an outcome no operation changes any part of it |
| DispatchRuns.CommitAtMostOnce | apps/api/src/server.ts:334-352 | in every run at most one commit is answered committed |
| DispatchRuns.CommitIsAcknowledgedForever | apps/api/src/server.ts:339-352 | after a commit its token is told duplicate however late, every other token is refused, and the stored result stands |
| DispatchRuns.LeaseOrigin | apps/api/src/server.ts:227-235 | a lease on a record always belongs to the latest successful claim |
| DispatchRuns.LeaseIsLatestGrant | apps/api/src/server.ts:313-320 | the lease on a record is exactly what the latest successful claim or renewal granted: its token and its expiry |
| DispatchRuns.OnlyTheOwnerClaims | apps/api/src/server.ts:293-308 | the owner is the target of the last successful reassignment, only the owner ever obtains a lease, and a moved record is free and not orphaned |
| DispatchRuns.LostForGood | apps/api/src/server.ts:309-320 | a token that left the record never returns to it |
| DispatchRuns.OldHolderIsFenced | apps/api/src/server.ts:309-352 | after another claim, or once the lease was cleared, the old token is refused every renewal, report and commit |
| DispatchRuns.NoRevival | apps/api/src/server.ts:309-320 | once a lease has been seen to expire, no operation with its token ever succeeds |
| DispatchRuns.LeasesDoNotOverlap | apps/api/src/server.ts:227-244 | when a claim succeeds, every interval granted before that no renewal shortened is over |
| DispatchRuns.UniformLeasesDoNotOverlap | apps/api/src/server.ts:227-244 | when claims and renewals use one lease duration, the intervals of all grants of different claims are disjoint |
| DispatchRuns.ExclusiveIffOneDuration | apps/api/src/server.ts:227-244 | over all runs of processes with a given set of lease durations, every claim starts after all earlier grants if and only if the set has no second duration |
| DispatchRuns.ShortRenewalOverlaps | apps/api/src/server.ts:313-320 | for any two different durations, a run in which a worker starts inside an interval promised to another |
| DispatchRuns.OutcomeProvenance | apps/api/src/server.ts:272-291 | an outcome is what the latest claim's worker committed before its lease expired, or a failure without output and usage that says CANCELLED after a cancellation and UNKNOWN_OUTCOME for expired work that must not be replayed, with the lease cleared, the matching event appended and nothing else changed |
| DispatchRuns.AttemptCountsClaims | apps/api/src/server.ts:232-234 | the attempt number equals the number of successful claims |
| DispatchRuns.OpaqueClaimedAtMostOnce | apps/api/src/server.ts:227-235 | a request that is not read-only is claimed at most once in a run |
| DispatchRuns.SpentStaysSpent | apps/api/src/server.ts:246-308 | after its lease ran out such a request is never claimed, reassigned or committed again and ends only as UNKNOWN_OUTCOME or CANCELLED |
| DispatchRuns.OrphanedHasNoLiveLease | apps/api/src/server.ts:255-261 | a record marked orphaned never has a live lease |
| DispatchRuns.MarkFollowsRun | apps/api/src/server.ts:255-261 | the orphan mark is there exactly if recovery found free work of an offline owner and no claim or move succeeded since |
| DispatchRuns.CompletedIffFinished | apps/api/src/server.ts:272-279 | a record has a completion time exactly if it has an outcome |
| DispatchRuns.EventsAreTheLatest | apps/api/src/server.ts:272-328 | a record's events are the latest 10,000 of all events its run appended, in order, all of its own execution |
| DispatchStore.CoverageStep | apps/api/src/server.ts:205-226 | every write in the dispatcher's order keeps all unfinished records indexed and filed under their own id |
| DispatchStore.CoverageKeptIff | apps/api/src/server.ts:79-86 | a write loses track of pending work exactly when it un-indexes an unfinished record or creates one that is not indexed |
| DispatchStore.CoverageSurvivesCrashes | apps/api/src/server.ts:205-226 | the index covers all unfinished records after every prefix of the write log, so wherever a process stops |
| DispatchLives.RecordRunsInLog | apps/api/src/server.ts:103-372 | in a store log written by any mixture of processes, with deletions and new creations, each record is in a valid run whose steps are exactly its updates since its latest creation, and the store follows that run at every write |
| DispatchLives.CommittedOncePerLife | apps/api/src/server.ts:334-352 | in any such log two commits of one id are answered committed only if the id was deleted in between |
| DispatchLives.OpaqueLeasedOncePerLife | apps/api/src/server.ts:227-235 | in any such log a request that is not read-only is leased twice only if it was deleted in between |
| DispatchLives.OldHolderIsFencedInLog | apps/api/src/server.ts:309-352 | in any such log a worker is refused everything after another one claimed its record |
| DispatchLives.LeasesDoNotOverlapInLog | apps/api/src/server.ts:227-244 | in any such log with one lease duration a claim starts after every interval granted before it to that record |
| DispatchStore.ReconcilePassMeaning | apps/api/src/server.ts:246-271 | a recovery pass, with a clock reading of its own for every entry, ends exactly the records spent when it looks at them, marks exactly the free records of offline owners, changes nothing else and is idempotent |
| DispatchStore.FirstLookDecides | apps/api/src/server.ts:251-261 | the check before the update and the one inside it read the clock separately, but only the first can skip an entry |
| DispatchStore.IndexFindsAllIff | apps/api/src/server.ts:141-163 | reading the index finds exactly what a scan of all records finds if and only if every unfinished record is indexed |
| DispatchStore.RefreshKeeps | apps/api/src/server.ts:141-163 | a refresh loses no unfinished work and neither makes nor loses coverage |
| DispatchStore.RefreshKeepsIff | apps/api/src/server.ts:143-157 | a refresh keeps exactly the entries of unfinished records and those at most 60 s old without a record |
| DispatchStore.ReindexCoversIff | apps/api/src/server.ts:127-139 | whatever the store holds, the start-up scan establishes coverage if and only if each unfinished record it leaves was indexed under its key or some unfinished record has that key as request id |
| DispatchStore.ReindexCovers | apps/api/src/server.ts:127-139 | for records filed under their own ids the scan establishes coverage, deletes exactly the completed ones before the cutoff and keeps all unfinished ones |
| DispatchStore.MisfiledIsNotCovered | apps/api/src/server.ts:130-134 | a record filed under another key than its request id is left out of the index |
| TaskDispatch.Start | apps/api/src/server.ts:110-118 | a dispatcher with a lease below 100 ms is refused; otherwise it starts on any contents, its cache is a full scan exactly if the index covers all, and it does whenever records are filed under their own ids |
| TaskDispatch.TaskDispatcher.ReconcileIndex | apps/api/src/server.ts:127-139 | on any contents the loop indexes every unfinished record under its request id and deletes completed ones before the cutoff, and its writes keep the order of writes if records are filed under their own ids |
| TaskDispatch.TaskDispatcher.Refresh | apps/api/src/server.ts:141-163 | the cache becomes all unfinished records that are indexed, which is the full scan exactly if the index covers them; only finished or long orphaned index entries go |
| TaskDispatch.TaskDispatcher.Dispatch | apps/api/src/server.ts:205-226 | accepts a new id unless the computer already has 100 unfinished requests or the id exists, changes nothing else, and offers it at once to a connected worker |
| TaskDispatch.TaskDispatcher.ClaimTask | apps/api/src/server.ts:227-244 | answers and stores as the record rules say and keeps coverage |
| TaskDispatch.TaskDispatcher.ReconcileAll | apps/api/src/server.ts:246-271 | the loop over the index, reading the clock three times for each entry, leaves the whole store as the recovery pass specifies, and index and cache forget what it finished |
| TaskDispatch.TaskDispatcher.CancelTask | apps/api/src/server.ts:283-291 | ends an unfinished record as a failure that says CANCELLED, leaves a finished one, and drops it from index and cache |
| TaskDispatch.TaskDispatcher.ReassignTask | apps/api/src/server.ts:293-308 | recovery, the update and redelivery each read the clock; the whole store, the answer and what was sent are determined, and UNKNOWN_OUTCOME is answered exactly if a lease that forbids replay ran out between recovery and the update |
| TaskDispatch.TaskDispatcher.RenewLease | apps/api/src/server.ts:313-320 | answers and stores as the record rules say |
| TaskDispatch.TaskDispatcher.RecordEvent | apps/api/src/server.ts:321-329 | answers and stores as the record rules say |
| TaskDispatch.TaskDispatcher.CommitOutcome | apps/api/src/server.ts:339-352 | committed, duplicate or refused by the record rules; a finished record leaves index and cache |
| TaskDispatch.TaskDispatcher.Redeliver | apps/api/src/server.ts:182-192 | sends each deliverable request once and only those; what is sent could be claimed at that moment, except exactly work whose last lease ran out between the look of recovery and its turn |
| TaskDispatch.SentIsFreeIff | apps/api/src/server.ts:182-192 | the same for one record and any clock readings of recovery and sending |
| TaskDispatch.SpentWorkIsSent | apps/api/src/server.ts:188-188 | claimed at 0 for 100 ms, recovered at 99 and sent at 100, a request that nobody may claim is offered to a worker |
| TaskDispatch.TaskDispatcher.PruneCompleted | apps/api/src/server.ts:193-204 | for an explicit, a configured or no retention deletes exactly the completed records that are that old and counts them; unfinished work and the index stay |
| TaskDispatch.RetentionRulesAgreeIff | apps/api/src/server.ts:193-204 | start-up and default pruning leave the same records if and only if, under a nonzero retention, none completed exactly at the cutoff and, under an undefined or zero one, none has completed so far |
| TaskDispatch.RetentionRulesDiffer | apps/api/src/server.ts:90-97 | a record that start-up keeps and pruning deletes, for an undefined, a zero and a nonzero retention |
| LineDiff.JoinSplit | apps/api/src/multiSurface.ts:249-250 | joining the split lines of a text gives the text |
| LineDiff.LinesAreUnique | apps/api/src/multiSurface.ts:249-250 | the lines of a text are the only list without line breaks that joins to it, and none for the empty text |
| LineDiff.LcsBoundsScripts | apps/api/src/multiSurface.ts:260-265 | no edit script keeps more lines than the table's number for that pair of suffixes |
| LineDiff.PreferredIsScript | apps/api/src/multiSurface.ts:266-289 | the script that prefers a match, then a deletion on ties, is a numbered script for both lists and keeps a longest common subsequence, so the table's bound is reached |
| LineDiff.PreferredIsFirst | apps/api/src/multiSurface.ts:266-289 | of all scripts that keep a longest common subsequence the walk gives the first, kept lines ranking before deletions and those before additions |
| LineDiff.DeleteAndAddIsScript | apps/api/src/multiSurface.ts:253-258 | the fallback, all deletions and then all additions, is a numbered script that keeps no line |
| LineDiff.DeleteAndAddIsFirst | apps/api/src/multiSurface.ts:253-258 | of all scripts that keep no line the fallback is the first: deletions, then additions |
| LineDiff.MinimalMeansLcs | apps/api/src/multiSurface.ts:260-289 | a script has the fewest edits exactly when it keeps a longest common subsequence |
| LineDiff.EditsCount | apps/api/src/multiSurface.ts:266-289 | deletions plus context lines are the old lines, additions plus context lines the new lines |
| LineDiff.FillTable | apps/api/src/multiSurface.ts:260-265 | every cell holds the length of the longest common subsequence of its two suffixes |
| LineDiff.Walk | apps/api/src/multiSurface.ts:266-289 | over a correct table the loops emit exactly the preferred script, ties included |
| LineDiff.ComputeDiffLines | apps/api/src/multiSurface.ts:248-290 | context and deleted lines are the whole lines of the old text, context and added lines those of the new one, line numbers count from one, the diff is minimal exactly up to 100,000 pairs of lines or when no line is shared, and of all scripts that keep as many lines it is the first |
| LineDiff.LargeTextIsRewritten | apps/api/src/multiSurface.ts:253-258 | an unchanged text of 317 blank lines is deleted and added again |
| ExecutionMerge.MergeFollows | apps/api/src/server.ts:796-884 | one report changes the record exactly when it is neither fenced nor late, raising the revision by one |
| ExecutionMerge.HistoryOnlyMovesForward | apps/api/src/server.ts:791-884 | over any reports the identity stays, the lease epoch never drops, a terminal record is final, the revision counts accepted merges and errors only gain unlisted entries |
| ExecutionMerge.FirstReportFixesIdentity | apps/api/src/server.ts:693-714 | the task id is the first non-empty of the first report's task id, its task object's id and the execution id, and the creation time the one it gives or the clock |
| ExecutionMerge.StaleWorkerIsFenced | apps/api/src/server.ts:813-816 | after a report with an epoch, at the top level or else in its execution part, was applied, no report with a lower one changes anything |
| ExecutionMerge.AppliedIff | apps/api/src/server.ts:813-822 | a later report is applied, and changes the record, exactly if the last status said is not terminal and no higher epoch was said |
| ExecutionMerge.FirstTerminalIsFinal | apps/api/src/server.ts:818-822 | the first terminal record stands |
| ExecutionMerge.RecordShowsLatest | apps/api/src/server.ts:824-884 | status, completion time, lease epoch, error and result are each what the latest applied report that has it says |
| ExecutionMerge.ErrorsAreKept | apps/api/src/server.ts:758-762 | the errors of the record are exactly the non-empty ones that applied reports name, in their list or, without a list, as their single error |
| ExecutionMerge.ExecutionLog.RecordExecution | apps/api/src/server.ts:791-896 | stores the merge, refuses a report without id, and puts it in the list in its place or at the end of at most 5,000 entries, each a version the store has or had |
| ExecutionMerge.ExecutionLog.UpdateStore | apps/api/src/server.ts:796-884 | the atomic update by any process: entries in memory stay earlier versions of what is stored |
| ExecutionPaging.ListingIsUnique | apps/api/src/server.ts:943-955 | the order of the listing is determined by the records and the order in which the store lists ids that collate alike |
| ExecutionPaging.NewestFirst | apps/api/src/server.ts:951-955 | newest first, then by id downwards, then as the store lists them |
| ExecutionPaging.PagesCoverListing | apps/api/src/server.ts:1364-1381 | over unchanged records following the cursor ends and the pages together are the listing |
| ExecutionPaging.NothingMissedNothingTwice | apps/api/src/server.ts:1364-1381 | while cursor rows stay listed, no row is received twice and every row listed throughout is received |
| ExecutionPaging.LostCursorStartsOver | apps/api/src/server.ts:1369-1371 | a cursor that is not listed any more leads to the first page again, and only such a cursor does |
| ExecutionPaging.LostCursorRepeatsRow | apps/api/src/server.ts:1369-1381 | of any three rows listed two at a time the first is received twice if the cursor row is deleted |
| ExecutionPaging.PageSizeIsPositive | apps/api/src/server.ts:1364-1365 | a requested size is cut to whole rows and to 500, a missing or non-positive one means 100, and it is zero exactly for requests strictly between zero and one |
| ExecutionPaging.OffsetPage | apps/api/src/server.ts:1367-1373 | without a cursor the page is the stretch at the offset |
| ExecutionPaging.OffsetsCoverListing | apps/api/src/server.ts:1367-1373 | the first k pages at offsets 0, limit, 2 limit, ... of unchanged records are the first k limit rows of the listing |
| ExecutionPaging.CursorOverOffset | apps/api/src/server.ts:1369-1371 | an offset has no effect beside a cursor |
| DeviceCredentials.TokenOpensIffInForce | apps/api/src/auth.ts:278-292 | after any issues, rotations, revocations and restarts an access token matches exactly while it is its device's newest, unrevoked since and unexpired |
| DeviceCredentials.TokenOpensOneDevice | apps/api/src/auth.ts:278-292 | an access token matches one device at most |
| DeviceCredentials.RotationGrantedIff | apps/api/src/auth.ts:201-247 | over any run a rotation is granted to a device exactly if the token presented is the device's newest refresh token, unrevoked since and unexpired |
| DeviceCredentials.RefreshAcceptedOnce | apps/api/src/auth.ts:201-247 | each refresh token is accepted at most once |
| DeviceCredentials.PairingTimeStays | apps/api/src/auth.ts:167-181 | a device keeps the time of its first pairing through every later operation, pairing again included |
| DeviceCredentials.PairedAtFirstGrant | apps/api/src/auth.ts:167-181 | that time is the one of the first credential issued to the device |
| DeviceCredentials.RevokedAtLatest | apps/api/src/auth.ts:249-264 | a revoked device carries the time of its latest revocation |
| DeviceCredentials.RestartChangesNothing | apps/api/src/auth.ts:123-140 | start-up rebuilds exactly the devices that were known |
| DeviceCredentials.ApiAuth.Issue | apps/api/src/auth.ts:145-196 | the device gets the new credential, unrevoked, and memory and store agree |
| DeviceCredentials.ApiAuth.Rotate | apps/api/src/auth.ts:201-247 | a valid refresh token is exchanged for new tokens of its device, any other changes nothing |
| DeviceCredentials.ApiAuth.Revoke | apps/api/src/auth.ts:249-264 | a known device is revoked in memory and store |
| DeviceCredentials.ApiAuth.Match | apps/api/src/auth.ts:278-292 | finds a device that the token opens whenever there is one |
| TaskMerge.MergeTasks | apps/api/src/mobile.ts:189-281 | one row per task id, every source represented, each row described by its source with ids, creation time and state, none of an execution that a managed or protocol task stands for, first come first listed, and no execution named twice exactly when managed tasks name none twice |
| SshConfig.ParseSshConfigText | apps/api/src/multiSurface.ts:306-395 | the loops give one profile per alias in order, each field read off the last directive of the alias's own section that sets it, with the given or default ports |
| SshConfig.ParseSimpleSshConfig | apps/cli/src/dashboardServer.ts:104-177 | the same for the second parser, with its own port rule and without identity files |
| SshConfig.NamesAreAliases | apps/api/src/multiSurface.ts:337-392 | profiles correspond one to one, in order, to the concrete aliases of the file |
| SshConfig.AliasesFilter | apps/api/src/multiSurface.ts:335-345 | aliases are the patterns without wildcards and negation, in order and as often as they occur |
| SshConfig.BlocksAreSections | apps/api/src/multiSurface.ts:337-366 | the scan collects the sections of the file, and each field is the last acceptable directive of its own section |
| SshConfig.ProfilesAreHomes | apps/api/src/multiSurface.ts:370-392 | host name, user, target, forward and controller port, identity file and port of every profile, in terms of the directives of its section, its alias and its position |
| SshConfig.DefaultForwardsDiffer | apps/api/src/multiSurface.ts:370-376 | default forward ports are pairwise different |
| SshConfig.InertDirectives | apps/api/src/multiSurface.ts:337-350 | directives under a wildcard-only Host or before any Host change no profile |
| SshConfig.ParsersAgree | apps/cli/src/dashboardServer.ts:104-177 | with ports in range both parsers give the same profiles up to the identity file |
| SshConfig.ParsersAgreeIff | apps/cli/src/dashboardServer.ts:125-152 | the two parsers give the same profiles up to the identity file if and only if every section's last port is absent, in range, or reads as the default with no other accepted port before it |
| SshConfig.SectionAgreesIff | apps/cli/src/dashboardServer.ts:144-144 | the same for one profile: exactly the ports of its own section decide |
| SshConfig.ParsersDiffer | apps/cli/src/dashboardServer.ts:144-144 | port 70000 is ignored by one parser and kept by the other |
| HostRegistry.RestartRestores | apps/api/src/multiSurface.ts:448-458 | after any completed operations the active id is local or registered and loading the store gives the same registry |
| HostRegistry.RegistryFollowsRun | apps/api/src/multiSurface.ts:608-807 | after any operations a host is known exactly if it was registered and not removed since, and the active one is the latest selected or registered as active and not removed since |
| HostRegistry.UpsertMeans | apps/api/src/multiSurface.ts:638-673 | registering sets name, url and token of this host only, an earlier token staying if none is given |
| HostRegistry.CrashIsHarmlessUnless | apps/api/src/multiSurface.ts:797-807 | stopping between writes leaves a consistent store, except exactly between the two writes that remove the active host |
| HostRegistry.CrashLosesActiveHost | apps/api/src/multiSurface.ts:797-807 | for any active host, stopping after its deletion leaves an active id that names no host |
| HostRegistry.OneHostMarkedIff | apps/api/src/multiSurface.ts:572-606 | the host list marks exactly one host active if and only if the active id is local or registered |
| HostRegistry.HostService.UpsertHost | apps/api/src/multiSurface.ts:608-673 | refuses bad input, otherwise registers under an acceptable id, and store and memory agree |
| HostRegistry.HostService.SelectHost | apps/api/src/multiSurface.ts:784-795 | only the local or a registered host becomes active |
| HostRegistry.HostService.RemoveHost | apps/api/src/multiSurface.ts:797-807 | removes a registered host and falls back to the local one if it was active |
| ContextAllocation.AllocationIsSmallest | packages/core/src/services/contextAllocation.ts:254-297 | a request is refused exactly when it exceeds the window or the input limit, and otherwise gets the smallest sufficient target or the window |
| ContextAllocation.WindowIsLargest | packages/core/src/services/contextAllocation.ts:163-185 | the window is the largest size within all known limits, and the usable window the largest that is also within the operator's setting |
| ContextAllocation.ReservesAreExact | packages/core/src/services/contextAllocation.ts:187-251 | what is reserved for output is the largest amount within the request and the limit, and the safety margin at least 256 |
| ContextAllocation.LimitsAreRespected | packages/core/src/services/contextAllocation.ts:163-297 | what is let through respects the model's window, input and output limits, the assumed limits of unknown models, and the safety margin |
| ContextAllocation.FittedOutcome | apps/cli/src/contextAllocationRuntime.ts:55-76 | exactly which requests pass after the reserve was reduced, never trimming input and always within the window |
| ContextAllocation.FittedReserve | apps/cli/src/contextAllocationRuntime.ts:61-72 | the reserve is reduced only if it must be, and then to all the room that is left |
| ContextAllocation.FloorFitsYetRefused | apps/cli/src/contextAllocationRuntime.ts:49-54 | a request refused although the floor fits |
| ContextAllocation.PromiseBrokenIff | apps/cli/src/contextAllocationRuntime.ts:49-76 | a request whose floor fits is refused if and only if its size falls into the gap between the safety margins of the floor and of the larger reserve, at the window or at the input limit |
| ContextAllocation.SmallRequestsKeepPromise | apps/cli/src/contextAllocationRuntime.ts:49-76 | no request whose input, tools and reserve stay within 5,100 tokens falls into a gap |
| ContextAllocation.RatchetIsMaximum | apps/cli/src/contextAllocationRuntime.ts:188-198 | under one window the recorded context is the smaller of the window and the largest request that could be sent |
| ContextAllocation.ShrinksIff | apps/cli/src/contextAllocationRuntime.ts:147-151 | the recorded context shrinks exactly when a call is sent under a smaller window |
| ContextAllocation.ShrinksOnSmallerWindow | apps/cli/src/contextAllocationRuntime.ts:188-198 | two calls after which a context of 16,384 has shrunk to 8,192 |
| ContextAllocation.SentContextHoldsIff | apps/cli/src/contextAllocationRuntime.ts:188-198 | the context sent holds what the request needs exactly when the need is within the usable window |
| ContextAllocation.SentWithTooLittle | apps/cli/src/contextAllocationRuntime.ts:188-198 | a request of 10,000 input tokens that is sent with a context of 4,096 |
| ContextAllocation.InvocationContextAllocator.Prepare | apps/cli/src/contextAllocationRuntime.ts:175-223 | sizes a request, sends the smaller of the tokens asked for and reserved, records the larger of the new and the earlier context within the window only if the request can be sent, and touches no other model |
| CrashScopes.StepKeepsSingle | apps/cli/src/crashHandler.ts:87-94 | an operation keeps exactly one listener unless it is a first installation inside a scope |
| CrashScopes.LateInstallLeavesTwo | apps/cli/src/crashHandler.ts:87-94 | a scope opened before the installation leaves two listeners |
| CrashScopes.RunKeepsSingle | apps/cli/src/crashHandler.ts:87-126 | in every run without such an installation the current handler is the only listener |
| CrashScopes.InstallOnce | apps/cli/src/crashHandler.ts:87-94 | the first installation puts the fatal handler in place and a second one changes nothing |
| CrashScopes.RemovesLatest | apps/cli/src/crashHandler.ts:116-122 | removing a listener takes exactly its latest registration |
| CrashScopes.RestoredIffStackEmpty | apps/cli/src/crashHandler.ts:108-126 | over any sequence of opening and restoring in any order the earlier listener is back exactly if every scope was closed innermost first; otherwise the innermost scope left has its handler in place |
| CrashScopes.RestoredIffUnwound | apps/cli/src/crashHandler.ts:108-126 | after nested openings, restore calls in any order bring the earlier listener back exactly when they contain the last-opened-first order |
| CrashScopes.ClosedScopeStaysInPlace | apps/cli/src/crashHandler.ts:119-125 | closing the outer of two scopes first leaves its handler in place |
| CrashScopes.RejectionHandlers.InstallGlobal | apps/cli/src/crashHandler.ts:87-94 | installs once; a second call changes nothing |
| CrashScopes.RejectionHandlers.OpenScope | apps/cli/src/crashHandler.ts:108-119 | replaces the current listener and remembers it |
| CrashScopes.RejectionHandlers.Restore | apps/cli/src/crashHandler.ts:119-125 | takes effect only while its own handler is current |

## Left out

- Routes, event-stream framing, timers, fetches and waiting for an outcome: input and output only. Redelivery is represented by the list of request ids it sends.
- Index coverage when operations of several processes interleave between their own writes: reading an entry and deleting it are two steps, so a dispatch of the same id in between can lose its entry. Runs of single records are proved under full interleaving; coverage is proved when operations follow each other and may stop anywhere.
- Deleting a record is not conditional in the store: two concurrent prunings around a new dispatch of the same id are not modelled.
- Logs start from a store without the id in question: updates of a record that was there before the log began are not traced to a run.
- The limit of 100 queued requests as an invariant: reassignment does not check it.
- Subscribing and disconnecting worker streams, cancel notifications, `status`, `assignments`, `owner`: easy members.
- Fields of execution records that are copied unchanged, the task object inside a record, usage figures and the normalised view of a record; numeric epochs are integers.
- ExecutionPaging.ListingIsUnique: the collation is any order on ids; ids it ranks alike keep the order of the store, which is taken to be fixed while the listing is read (deleting a record and recording it anew can move it). The filters themselves are not modelled, a listing is the rows that match.
- Sorting and filtering of the merged task list, and the other display fields of its rows; how a protocol task's state is derived.
- DeviceCredentials.ApiAuth.Issue: device names, scopes and last-seen times are omitted; SHA-256 is taken to be injective and tokens to be fresh.
- Computer tokens, operator and viewer tokens, request middleware: easy members.
- SSH configuration text is taken as recognised directives; URL and tunnel command strings are fixed functions of the modelled fields.
- ContextAllocation.FittedOutcome: floating-point arithmetic is represented by any monotone rounding of the five per cent margin that is at most one token above the exact one, which holds for counts far beyond any context window; reasoning and system reservations are zero, as in the modelled calls.
- The hosts file written beside the store, pairing and checks of remote hosts.
- The uncaught-exception handler and crash reports: never replaced, and output only.
- Goal studio, schedules, autonomy posture, push relay, memory, scheduler, agents and the user interfaces.
