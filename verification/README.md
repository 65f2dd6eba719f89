# Verified model of Tradeo's scheduling, alerting, locking and audit logic

A Dafny model of the parts of Tradeo whose correctness spans several functions, whole runs or
several programs, with proofs of what they promise. Loops and in-place updates are methods with
invariants over arrays and class fields; each is proved against a function or predicate, and the
properties are proved about those. Amounts and durations are exact (`real`), never floats.

- **Worker queue** (`ListScheduling.dfy`, `Sorting.dfy`, `WorkerQueue.dfy`, `ReportedQueue.dfy`):
  the benchmark's estimate of m workers draining a queue is Graham's list scheduling. The estimate is
  within 2 - 1/m of every other assignment, and for every m this factor is reached; the schedule is
  gapless and conserves the work.
- **Alert cursor** (`AlertCursor.dfy`): send one event, save the cursor, with failure or death at
  every step. Over all histories each message is accounted for. Exactly which events can still be
  announced, and exactly which state files never recover, is proved as well, with a skipped event.
- **Execute lock** (`ExecuteLock.dfy`): any number of processes interleaving create, stat, unlink.
  Mutual exclusion in all interleavings holds exactly for safe starts: with the lock free, no process
  with a stale threshold has company; with an orphaned file, at most one process has a threshold.
  Two concrete interleavings show it break.
- **Env file and account** (`PyText.dfy`, `EnvFile.dfy`, `AccountGate.dfy`): setting and parsing a
  key over arbitrary text, with the exact condition of the round trip, and the account
  reconciliation built on it. The line pattern accepts any whitespace behind `export`, the parser
  only a space: a line with a tab is rewritten and yet not read.
- **Discovery groups** (`DiscoveryGroups.dfy`, `ReportedGroups.dfy`) and **cache warm-up**
  (`CacheWarmup.dfy`, `CleanRuns.dfy`, `RepeatedFetches.dfy`, `ReportedWarmup.dfy`): the
  consecutive-run segmenter, and resuming from an append-only log that may end in a torn line, with
  exactly which recorded tasks are fetched again.
- **Audit package** (`AuditExport.dfy`, `AuditMetrics.dfy`, `AuditDuplicates.dfy`,
  `AuditAgreement.dfy`, `ReportedTables.dfy`, `HashFile.dfy`): exporter, validator and CI check agree
  on amounts, counts, buckets, duplicates, fill references and hashes, check by check.
- **Director gate** (`GateRows.dfy`, `DirectorGate.dfy`, `RowReadings.dfy`, `ReportedBlockers.dfy`,
  `PromotionEvidence.dfy`, `UntradedPromotion.dfy`, `GateResult.dfy`, `ResultFile.dfy`,
  `ReportedResult.dfy`, `ReportedFaults.dfy`): every blocker of the gate with its
  reason, what a silent gate guarantees row by row, the result file and the validator's reading of
  it. Silence of the gate and of the validator's coherence check shows that a promoted pattern has
  the trades required exactly when it has a metrics row; a package without one passes both, promoted
  and untraded. The file written for unreadable tables is one the validator rejects, and a hand-made
  blocked file can be accepted and still read as allowing promotion.

The modules named `Reported...` say what an operation returns by its inputs alone, without the
functions it is written with, and prove that this is what it returns.

A property that is false of the code is replaced by the exact condition under which it holds, with a
concrete input beside it.

## Model

| member | source | states |
|---|---|---|
| `ListScheduling.EarliestSlot` | scripts/run_intraday_process_pool_benchmark.py:390 | the slot picked has the smallest clock, and is the first such slot |
| `ListScheduling.LatestSlot` | scripts/run_intraday_process_pool_benchmark.py:404 | the critical slot has the largest clock, and is the first such slot |
| `ListScheduling.Makespan` | scripts/run_intraday_process_pool_benchmark.py:411 | the makespan of any assignment is reached by a slot and exceeded by none |
| `ListScheduling.AvailIsLoad` | scripts/run_intraday_process_pool_benchmark.py:391-394 | after all jobs a slot's clock equals the sum of the durations placed on it: no gap, no overlap |
| `ListScheduling.LoadsPartitionTheWork` | scripts/run_intraday_process_pool_benchmark.py:389-402 | whatever the assignment, the slots' loads add up to the total of all durations |
| `ListScheduling.JobsAbut` | scripts/run_intraday_process_pool_benchmark.py:391-394 | every job starts exactly at the sum of the durations placed before it on its slot |
| `ListScheduling.NoSlotFreeEarlier` | scripts/run_intraday_process_pool_benchmark.py:390-391 | work conservation: at a job's start no slot has less work, and no earlier slot has as little |
| `ListScheduling.StartsNeverDecrease` | scripts/run_intraday_process_pool_benchmark.py:389-393 | jobs start in submission order |
| `ListScheduling.LoadsBalanced` | scripts/run_intraday_process_pool_benchmark.py:389-394 | the loads of two slots never differ by more than the longest job |
| `ListScheduling.GreedySlotBound` | scripts/run_intraday_process_pool_benchmark.py:389-394 | m times any slot's load is at most the total plus (m-1) times the longest job |
| `ListScheduling.GreedyMakespanBound` | scripts/run_intraday_process_pool_benchmark.py:389-411 | the same bound for the estimated makespan |
| `ListScheduling.EveryAssignmentLowerBound` | scripts/run_intraday_process_pool_benchmark.py:389-411 | no assignment to m slots ends before total/m or before the longest job |
| `ListScheduling.GreedyWithinTwiceAnyAssignment` | scripts/run_intraday_process_pool_benchmark.py:389-411 | m times the greedy makespan is at most (2m-1) times the makespan of every assignment of the same jobs |
| `ListScheduling.UnitsGoRoundRobin` | scripts/run_intraday_process_pool_benchmark.py:389-394 | unit jobs are dealt round robin, for every number of jobs and slots |
| `ListScheduling.WorstGreedyMakespan` | scripts/run_intraday_process_pool_benchmark.py:389-411 | on m(m-1) unit jobs followed by one of length m the greedy makespan is 2m-1 |
| `ListScheduling.GreedyBoundIsTight` | scripts/run_intraday_process_pool_benchmark.py:389-411 | for every m some jobs have an assignment of makespan m where the greedy one is 2m-1: the factor 2-1/m cannot be improved |
| `WorkerQueue.SubmissionOrderIsStableSort` | scripts/run_intraday_process_pool_benchmark.py:381-384 | the submission order holds every row once, sorted by (order or position, timeframe, chunk), ties in input order |
| `Sorting.StringLessTotal` | scripts/run_intraday_process_pool_benchmark.py:437-444 | string comparison is a strict total order |
| `Sorting.StringLessIff` | scripts/run_intraday_process_pool_benchmark.py:437-444 | a text is smaller if and only if the first difference says so or it is a proper beginning of the other |
| `Sorting.SortedSetSorted` | research/audit_bridge/export_audit_package.py:1698-1711 | sorted() over a set, here for pattern ids and (pattern, label) pairs, lists its members in strictly increasing order |
| `WorkerQueue.PrecedesTransitive` | scripts/run_intraday_process_pool_benchmark.py:437-444 | the order of the keys is transitive |
| `WorkerQueue.WorkerCount` | scripts/run_intraday_process_pool_benchmark.py:385 | between one worker and one per row; EstimateReportsTheQueue fixes the number |
| `WorkerQueue.PlaceNext` | scripts/run_intraday_process_pool_benchmark.py:389-402 | one turn of the loop: the earliest slot's clock and job list grow by the row, all other slots stay |
| `WorkerQueue.DrainQueue` | scripts/run_intraday_process_pool_benchmark.py:386-402 | the loop over arrays ends with the clocks, schedule and per-slot lists of the greedy plan |
| `WorkerQueue.EstimatedWorkerQueue` | scripts/run_intraday_process_pool_benchmark.py:374-416 | no rows, no estimate; otherwise worker count, makespan, critical slot and path are those of the greedy plan over the rows in submission order, the tail wait is the largest rounded start, and the final wave holds exactly the jobs whose rounded start lies within a millisecond of it |
| `ReportedQueue.EstimateReportsTheQueue` | scripts/run_intraday_process_pool_benchmark.py:374-416 | the same by the rows alone: they go by (submitted order or position, timeframe, chunk, position), each to the first slot with the least seconds so far, and the estimate reports the asked-for workers within 1 and the number of rows, the first slot with the most seconds, its items, and the items whose printed start is within a millisecond of the latest one |
| `WorkerQueue.EstimateWithinTwiceAnySchedule` | scripts/run_intraday_process_pool_benchmark.py:374-411 | the reported makespan against every other assignment of the same jobs to as many workers, with both lower bounds |
| `WorkerQueue.TailIsLastStart` | scripts/run_intraday_process_pool_benchmark.py:405-412 | for any monotone rounding the reported queue wait is the rounded start of the last submitted job, and that job is in the final wave |
| `WorkerQueue.SlotRunsBackToBack` | scripts/run_intraday_process_pool_benchmark.py:391-401 | each slot's job list starts at 0, has no gaps and ends when the slot becomes free |
| `WorkerQueue.CriticalPathSumsToMakespan` | scripts/run_intraday_process_pool_benchmark.py:404-414 | the reported critical path is gapless and its durations add up to the reported makespan |
| `WorkerQueue.GroupingConserves` | scripts/run_intraday_process_pool_benchmark.py:335-349 | distinct timeframes covering the rows share out all workers and all seconds exactly |
| `WorkerQueue.TimeframesSorted` | scripts/run_intraday_process_pool_benchmark.py:336 | the timeframes of the table come sorted and without repeats |
| `WorkerQueue.ByTimeframe` | scripts/run_intraday_process_pool_benchmark.py:335-349 | the per-timeframe table is sorted, conserves workers and seconds, and each group holds the count, total, mean and maximum of exactly its timeframe's rows |
| `AlertCursor.MaxId` | scripts/notify_new_pattern_alerts.py:157-159 | the initial cursor is the newest visible id, or 0 |
| `AlertCursor.Notifier.WriteState` | scripts/notify_new_pattern_alerts.py:116-124 | through temporary write and rename: wherever the save fails or dies, what the next run loads is the new cursor or the old content and never the torn temporary; no error means the new cursor, an error the old content |
| `AlertCursor.Notifier.AddErrorNote` | scripts/notify_new_pattern_alerts.py:127-140 | the note keeps a readable cursor and drops an unreadable one |
| `AlertCursor.Notifier.NotifyOnce` | scripts/notify_new_pattern_alerts.py:286-429 | a run takes the file, the log and the messages sent to the run's value under every pattern of failures. There is a report if and only if no step of the run died; its exit code is 0 exactly if the query, every send and every save succeeded, and `stateUpdated`, `initialized`, `lastSeen` and the events sent are given by how far the run got |
| `AlertCursor.Notifier.SendPending` | scripts/notify_new_pattern_alerts.py:379-416 | the send-then-save loop over the fetched events: the exact report, or none, after the first k of them |
| `AlertCursor.RunLeaves` | scripts/notify_new_pattern_alerts.py:343-429 | what a run with a cursor leaves: the events before the first one whose send or save does not succeed are sent and passed, and that one as far as it got |
| `AlertCursor.ShortRunLeaves` | scripts/notify_new_pattern_alerts.py:286-341 | what every other run leaves: at most its last save, which begins an epoch at the newest visible id when there was no cursor to go by and the query answered |
| `AlertCursor.RunKeepsInv` | scripts/notify_new_pattern_alerts.py:286-429 | one run with any failures keeps the accounting of sent, lost and passed events |
| `AlertCursor.RunAdvances` | scripts/notify_new_pattern_alerts.py:286-429 | a run never ends an epoch, forgets a message or moves the cursor back |
| `AlertCursor.EveryHistoryIsAccounted` | scripts/notify_new_pattern_alerts.py:286-429 | the accounting holds after every history of runs, failures, deaths, new events and file damage |
| `AlertCursor.DeliveryGuarantee` | scripts/notify_new_pattern_alerts.py:379-416 | inside an epoch: messages go out in id order; a passed event was sent once plus once per lost save following its send, any other event once per lost save; none before all earlier ones of the epoch |
| `AlertCursor.NothingLostMeansExactlyOnce` | scripts/notify_new_pattern_alerts.py:379-416 | without lost saves the messages are exactly the passed events, each once, in id order |
| `AlertCursor.CursorNeverGoesBack` | scripts/notify_new_pattern_alerts.py:379-416 | over any history that leaves the file alone the epoch lasts and its cursor never decreases |
| `AlertCursor.GoodRunCatchesUp` | scripts/notify_new_pattern_alerts.py:343-429 | a run without failures sends every pending event once and leaves nothing above the cursor |
| `AlertCursor.AnnouncedIff` | scripts/notify_new_pattern_alerts.py:343-429 | in an epoch, a run without failures leaves a visible event announced if and only if it lies after the epoch's start |
| `AlertCursor.RecoversIff` | scripts/notify_new_pattern_alerts.py:300-341 | two runs without failures put every state file back into an epoch, at the newest visible id, except exactly one whose cursor is not an integer |
| `AlertCursor.NeverRecoversIff` | scripts/notify_new_pattern_alerts.py:300-315 | no damage-free history ever begins an epoch again if and only if the cursor in the file is not an integer |
| `AlertCursor.CanBeAnnouncedIff` | scripts/notify_new_pattern_alerts.py:286-429 | some damage-free history of runs announces a visible event if and only if an epoch is under way that began before it |
| `AlertCursor.UnsentCanBeAnnouncedIff` | scripts/notify_new_pattern_alerts.py:104-113 | read off the state file: an event not announced yet still can be if and only if the file holds an integer cursor below it |
| `AlertCursor.SkippedEvent` | scripts/notify_new_pattern_alerts.py:127-140 | a concrete history: an event that became visible before the state file got unreadable is never announced |
| `ExecuteLock.StepKeepsOwnershipIff` | scripts/run_intraday_research_wave.py:400-435 | one system call keeps `whoever works created the file that is there` exactly when it is not a takeover removing a live holder's file |
| `ExecuteLock.LockHoldsIffNoLiveTakeover` | scripts/run_intraday_research_wave.py:400-442 | over every interleaving: the lock file is its holder's throughout if and only if no takeover removes a live holder's file |
| `ExecuteLock.ExcludesIffSafeStart` | scripts/run_intraday_research_wave.py:400-442 | mutual exclusion in every interleaving from a start state holds if and only if the start is safe: with the lock free, no process with a threshold has company; with an orphaned file, at most one process has a threshold |
| `ExecuteLock.OwnedMeansExclusive` | scripts/run_intraday_research_wave.py:148-181 | at most one process is between acquire and release |
| `ExecuteLock.ExclusionWithoutThreshold` | scripts/run_intraday_research_wave.py:417-422 | without stale thresholds every interleaving excludes, and only creators unlink |
| `ExecuteLock.RetainedLockBlocksForever` | scripts/run_intraday_research_wave.py:172-181 | without thresholds, after a worker exception or a death no acquire ever succeeds again |
| `ExecuteLock.RetainedLockBlocksIff` | scripts/run_intraday_research_wave.py:172-181 | a retained lock file keeps every process out in every interleaving if and only if no waiting process has a threshold |
| `ExecuteLock.CarefulStepKeepsInv` | scripts/run_intraday_research_wave.py:420-427 | takeovers one at a time and of orphaned files only: each step keeps the lock owned |
| `ExecuteLock.ExclusionWithCarefulTakeover` | scripts/run_intraday_research_wave.py:420-442 | under that discipline every interleaving with stale takeover excludes as well |
| `ExecuteLock.SlowOwnerLosesTheLock` | scripts/run_intraday_research_wave.py:438-442 | a concrete interleaving where a threshold shorter than the work lets a second process in |
| `ExecuteLock.InterleavedTakeoversBothAcquire` | scripts/run_intraday_research_wave.py:421-427 | a concrete interleaving where two takeovers of a dead owner's lock both acquire |
| `ExecuteLock.InitialIsSafe` | scripts/run_intraday_research_wave.py:400-442 | every start state satisfies the invariants the theorems assume |
| `ExecuteLock.PayloadStamps` | scripts/run_intraday_research_wave.py:428-431 | writing the payload refreshes the age of the writer's own file and of no other |
| `ExecuteLock.LockClient.Acquire` | scripts/run_intraday_research_wave.py:400-431 | with the payload written, acquire succeeds if and only if the lock was free, or older than the threshold in minutes times 60 seconds, and then the file is the caller's; result, phase, file and clock are fixed in every case |
| `ExecuteLock.LockClient.ExecuteWave` | scripts/run_intraday_research_wave.py:148-184 | executed if and only if the lock could be taken and the payload was written, with `lock_retained` exactly if the worker raised, and then the file stays the caller's, otherwise it is gone; blocked if and only if the file was there and could not be taken, and then nothing changes; else the run crashed, with what it leaves |
| `PyText.TrimOf` | scripts/run_lab_paper_probe_004.py:667-698 | strip() finds the core between outer blanks |
| `PyText.LinesRoundTrip` | scripts/run_lab_paper_probe_004.py:667-684 | joining lines with newlines, writing, reading and splitting gives the lines back |
| `EnvFile.MatchedShape` | scripts/run_lab_paper_probe_004.py:671-681 | what the line pattern matches: blanks, optional export and blanks, the key, blanks, an equals sign, the rest |
| `EnvFile.SetMatchedLine` | scripts/run_lab_paper_probe_004.py:671-681 | setting a matched line replaces exactly what follows its equals sign |
| `EnvFile.ShapeMatches` | scripts/run_lab_paper_probe_004.py:671-674 | every line of that shape is matched |
| `EnvFile.ParseShape` | scripts/run_lab_paper_probe_004.py:687-698 | the parser binds the key to the cleaned tail of such a line, unless export is followed by something other than a space |
| `EnvFile.CleanOf` | scripts/run_lab_paper_probe_004.py:687-698 | of a value blanks at its ends and then quotes at its ends are taken off, and nothing else |
| `EnvFile.BindingLineIsVisible` | scripts/run_lab_paper_probe_004.py:687-698 | conversely, every line the parser binds the key from is matched |
| `EnvFile.SetEachParses` | scripts/run_lab_paper_probe_004.py:671-681 | rewriting all matched lines changes what is parsed for the key, if any of them is visible to the parser, and nothing else |
| `EnvFile.SetLinesParse` | scripts/run_lab_paper_probe_004.py:671-684 | the parsed map after setting: the key updated, or unchanged when its lines are all hidden |
| `EnvFile.SetThenParse` | scripts/run_lab_paper_probe_004.py:667-698 | the same over the file's text, for every text, key and one-line value |
| `EnvFile.BoundIffVisible` | scripts/run_lab_paper_probe_004.py:687-698 | the parser knows the key exactly when some line of it is visible to the parser |
| `EnvFile.RoundTripIff` | scripts/run_lab_paper_probe_004.py:667-698 | parsing after setting gives the old map with exactly the key set to the value if and only if the value is one clean line and the key has no line or a visible one |
| `EnvFile.HiddenLineIsNotUpdated` | scripts/run_lab_paper_probe_004.py:671-698 | if the only line of the key is hidden from the parser, setting the key changes nothing that is parsed |
| `EnvFile.TabbedExportIsHidden` | scripts/run_lab_paper_probe_004.py:671-698 | a tab behind export makes such a line, for every key |
| `AccountGate.EnvStore.SetEnvValue` | scripts/run_lab_paper_probe_004.py:667-684 | the loop over the lines leaves exactly the specified text in the file |
| `AccountGate.EnvStore.ParseEnv` | scripts/run_lab_paper_probe_004.py:687-698 | the parsing loop returns the specified map; no file, no values |
| `AccountGate.ProbePassesIff` | scripts/run_lab_paper_probe_004.py:323-365 | the probe passes exactly for paper mode, a known paper port and a broker with a single DU account |
| `AccountGate.ProbeFinds` | scripts/run_lab_paper_probe_004.py:323-365 | for every blocker of the probe exactly when it is found; no probe exactly for a port that is not an integer |
| `AccountGate.GateFinds` | scripts/run_lab_paper_probe_004.py:429-454 | the same for the gate, which adds what is wrong with the account the file names |
| `AccountGate.GatePassesIff` | scripts/run_lab_paper_probe_004.py:429-454 | the gate passes exactly when the probe does and the file names its one account |
| `AccountGate.EnvStore.ReconcileAccount` | scripts/run_lab_paper_probe_004.py:368-426 | PASS if and only if the probe passes and the names agree; FIXED if and only if it passes, they differ, the managed one is a DU account and the file exists, and only then the file is rewritten and backed up; BLOCKED, with its blockers, or no result in exactly the other cases |
| `AccountGate.EnvStore.RunAccountGate` | scripts/run_lab_paper_probe_004.py:59-64 | the whole repair by configured account, broker's answer and file: status, cause, blockers, file, backup and the gate's answer on the file as it is then |
| `AccountGate.NamedAccount` | scripts/run_lab_paper_probe_004.py:368-426 | the rewritten file is read to name the account exactly when the account is clean and its line is not hidden from the parser |
| `AccountGate.OtherValuesKept` | scripts/run_lab_paper_probe_004.py:368-426 | setting the account leaves every other value as it was read before |
| `AccountGate.GateAfterFixIff` | scripts/run_lab_paper_probe_004.py:429-454 | after a fix the gate passes exactly when the account could be set |
| `DiscoveryGroups.SortByIdSorts` | scripts/diagnose_discovery_benchmark.py:333 | the rows are sorted by id |
| `DiscoveryGroups.SplitSegments` | scripts/diagnose_discovery_benchmark.py:334-348 | the segment loop computes the segments |
| `DiscoveryGroups.SegmentsAreMaximalStretches` | scripts/diagnose_discovery_benchmark.py:334-348 | the segments are exactly the maximal stretches of consecutive valid ids |
| `DiscoveryGroups.CutChunks` | scripts/diagnose_discovery_benchmark.py:349-354 | the nested loops collect the candidate chunks |
| `DiscoveryGroups.CandidatesAreAlignedChunks` | scripts/diagnose_discovery_benchmark.py:349-354 | a span is a candidate if and only if it has group_size ids and starts a multiple of group_size into a maximal stretch, so a stretch of L ids gives exactly floor(L/group_size) |
| `DiscoveryGroups.CandidatesDisjoint` | scripts/diagnose_discovery_benchmark.py:349-354 | candidates are disjoint and increasing |
| `DiscoveryGroups.AutoRecentGroups` | scripts/diagnose_discovery_benchmark.py:323-365 | the numbered groups of the newest max_groups candidates not asked for already; none for non-positive limits |
| `DiscoveryGroups.SelectedGroupsAreRecentRepeats` | scripts/diagnose_discovery_benchmark.py:357-361 | selected spans are disjoint and increasing, at most max_groups, and consist of valid runs only |
| `DiscoveryGroups.SelectedIffNewest` | scripts/diagnose_discovery_benchmark.py:357-361 | a span is selected if and only if it is a candidate chunk, not asked for already, with fewer than max_groups candidates behind it |
| `DiscoveryGroups.DedupeGroups` | scripts/diagnose_discovery_benchmark.py:271-281 | keeps the first group of every span: distinct spans, and no span lost |
| `DiscoveryGroups.AppendedGroupsSurvive` | scripts/diagnose_discovery_benchmark.py:271-281 | groups with new, distinct spans survive the removal unchanged and in order |
| `DiscoveryGroups.NumberedSurvive` | scripts/diagnose_discovery_benchmark.py:271-281 | numbered groups over disjoint spans not asked for already, as the selected ones are, survive the removal behind any groups |
| `DiscoveryGroups.GroupsToCompare` | scripts/diagnose_discovery_benchmark.py:88-105 | the automatic groups are the numbered newest new chunks for the clamped size and count, none for a count of zero; a run compares the groups asked for, each span once, followed by all automatic ones |
| `ReportedGroups.GroupsReport` | scripts/diagnose_discovery_benchmark.py:323-365 | by the run rows alone, for distinct ids: of all chunks of consecutive valid runs the newest max_groups, less those asked for, in order, titled repeat<number>_<first>_<last> with numbers from 1 |
| `ReportedGroups.FirstsReport` | scripts/diagnose_discovery_benchmark.py:271-281 | the removal of repeated spans keeps, in order, exactly the groups no earlier one has the span of |
| `CacheWarmup.Attempts` | scripts/warm_intraday_cache_resilient.py:203-218 | between one and retries+1 fetches, stopping at the first success |
| `CacheWarmup.Warmer.ReadDone` | scripts/warm_intraday_cache_resilient.py:277-293 | the done set holds the keys with a readable ok line |
| `CacheWarmup.Warmer.RunWithRetries` | scripts/warm_intraday_cache_resilient.py:203-218 | the retry loop makes exactly those fetches |
| `CacheWarmup.Warmer.WarmTask` | scripts/warm_intraday_cache_resilient.py:121-155 | one task's fetches and the one line it appends, for every way of being killed in between |
| `CacheWarmup.Warmer.WarmAll` | scripts/warm_intraday_cache_resilient.py:121-155 | the main loop with its early stop at the failure cap |
| `CacheWarmup.Warmer.WarmCache` | scripts/warm_intraday_cache_resilient.py:121-177 | a whole run. No exit code if and only if it is killed in one of the tasks it reaches, 0 if and only if no pending task fails and none kills it, otherwise 2 |
| `ReportedWarmup.RunReports` | scripts/warm_intraday_cache_resilient.py:109-155 | by the tasks alone: pending are, in order, all of them, or when resuming those without a readable ok line; the run works on them up to the first one it is killed in or whose failure reaches the cap; each is fetched up to its first success or retries+1 times, less if killed, and appends its line or what the kill leaves of it |
| `CacheWarmup.KeyNamesTask` | scripts/warm_intraday_cache_resilient.py:269-274 | a key names its task, as symbols and timeframes hold no bar |
| `CacheWarmup.FailuresStayWithinCap` | scripts/warm_intraday_cache_resilient.py:145-155 | with a positive cap a run never logs more failures than the cap |
| `CacheWarmup.TriesPerTask` | scripts/warm_intraday_cache_resilient.py:203-218 | a run tries a pending task at most retries+1 times and any other not at all |
| `CacheWarmup.RecordedTaskIsNeverFetchedAgain` | scripts/warm_intraday_cache_resilient.py:277-298 | over any sequence of resumed runs a task with a complete ok line is never fetched again |
| `RepeatedFetches.NeverFetchedAgainIff` | scripts/warm_intraday_cache_resilient.py:277-298 | of the tasks the log records as done, exactly those with a complete line are never fetched again by any sequence of resumed runs |
| `RepeatedFetches.BareRecordIsForgotten` | scripts/warm_intraday_cache_resilient.py:277-298 | for a task recorded only in an unterminated last line, two resumed runs that fetch it again |
| `RepeatedFetches.TerminatedMeansDurable` | scripts/warm_intraday_cache_resilient.py:277-298 | in a log that ends with a line end every recorded task has a complete line |
| `RepeatedFetches.KilledRunLeavesBareRecord` | scripts/warm_intraday_cache_resilient.py:296-298 | for every task not recorded in a terminated log, one killed run leaves such an unterminated record of it |
| `CacheWarmup.EverySuccessIsRecordedOnce` | scripts/warm_intraday_cache_resilient.py:277-298 | over any sequence of resumed runs from an empty log no two ok records the next run can read are of the same task |
| `CleanRuns.OneLinePerTask` | scripts/warm_intraday_cache_resilient.py:121-155 | a run nobody kills appends one line for each task in order, ending exactly at the first failure that reaches the cap, or behind the last task |
| `CleanRuns.CleanRunFinishesIff` | scripts/warm_intraday_cache_resilient.py:277-298 | a run in which nothing fails leaves nothing pending exactly when the log it found ended with a line end or nothing was pending: a torn last line swallows the next record |
| `HashFile.HashLineParses` | ops/scripts/director_audit_ci.py:209-222 | a written line splits back into its digest and path |
| `HashFile.Package.WriteHashes` | research/audit_bridge/export_audit_package.py:2708-2715 | the hash file holds one line for each file except those named like itself |
| `HashFile.Package.VerifyFileHashes` | ops/scripts/director_audit_ci.py:198-249 | accepts exactly when every non-blank line parses to a safe, present, matching path and the paths equal the manifest's apart from the hash file |
| `HashFile.Tally` | ops/scripts/director_audit_ci.py:205-249 | the verifier's loop over the lines and its two set comparisons |
| `HashFile.WrittenLinesAreGood` | research/audit_bridge/export_audit_package.py:2708-2715 | lines written for well-named files all check out and name exactly those files |
| `HashFile.WriteThenVerifyIff` | ops/scripts/director_audit_ci.py:198-249 | round trip over all file names: under a manifest that lists every hashed file, what was just written is accepted if and only if all hashed names are relative, safe, without outer blanks and line breaks, and the manifest lists nothing else apart from the hash file |
| `HashFile.SingleLineVerifyIff` | ops/scripts/director_audit_ci.py:198-249 | names without line breaks and any manifest: what was just written is accepted if and only if every stripped name is a safe, present file with the same digest and the manifest lists exactly the stripped names, apart from the hash file itself |
| `HashFile.NestedHashFileIsRejected` | ops/scripts/director_audit_ci.py:232-247 | a manifest listing sub/file_hashes.sha256 is rejected right after writing: a file called like the hash file is never hashed |
| `HashFile.AcceptedIsWellNamed` | ops/scripts/director_audit_ci.py:205-249 | whatever the hash file's text, a manifest with any other name is never accepted |
| `HashFile.SafePathIff` | ops/scripts/director_audit_ci.py:260-262 | a path is safe unless it starts with a slash or one of its steps is `..` |
| `HashFile.FileNameIsLast` | research/audit_bridge/export_audit_package.py:2708-2715 | the file name is the last step of the path |
| `AuditExport.BuildPaperTrades` | research/audit_bridge/export_audit_package.py:1081-1162 | one rounded row for each exportable trade with a pattern, in order, and no other row |
| `AuditExport.BuildIbFills` | research/audit_bridge/export_audit_package.py:1165-1185 | the entry and exit fills of exactly the exported trades that have them, trade by trade, entry first |
| `AuditExport.LinkedFillPatternIds` | research/audit_bridge/export_audit_package.py:813-829 | a pattern is linked if and only if one of its exported trades carries an exported fill |
| `AuditExport.PromotedStatusHasFill` | research/audit_bridge/export_audit_package.py:795-838 | an exported promotion status always has a trade of the pattern with a fill; a stored promotion without one is exported as freeze |
| `ReportedTables.ExportedStatusIs` | research/audit_bridge/export_audit_package.py:795-838 | the exported status is freeze if and only if one of the two stored fields, stripped and in lower case, is one of the nine promotion words and the pattern has no linked fill, or that is what is stored; otherwise the stored status, stripped |
| `AuditMetrics.DrawdownIsDeepestFall` | research/audit_bridge/export_audit_package.py:1910-1918 | the one-pass value is the maximum over all i <= j of prefix sum i minus prefix sum j, the empty prefix included |
| `AuditMetrics.MaxDrawdown` | research/audit_bridge/export_audit_package.py:1910-1918 | the loop returns that maximum |
| `AuditMetrics.CheckPnl` | research/audit_bridge/validate_audit_package.py:474-486 | the row numbers listed are exactly those whose amounts miss by more than 0.01 |
| `AuditMetrics.RoundedTradeAdds` | research/audit_bridge/export_audit_package.py:1105-1142 | six separate four-decimal roundings stay within 0.0003, so below the tolerance of 0.01 |
| `AuditMetrics.GroupByPattern` | research/audit_bridge/validate_audit_package.py:539-541 | the grouping loop gives each pattern its trades in row order |
| `AuditMetrics.BuildMetricsByPattern` | research/audit_bridge/export_audit_package.py:1592-1664 | one row per pattern: count and rounded totals of its trades, blank performance cells without trades |
| `AuditMetrics.CheckMetricCoherence` | research/audit_bridge/validate_audit_package.py:538-558 | an error for exactly each metrics row with a wrong trade count, each filled cell of a row without trades, and each total of another row that misses by more than 0.01; none exactly for coherent rows |
| `AuditMetrics.ExportedMetricIsCoherent` | research/audit_bridge/export_audit_package.py:1592-1664 | every exported metrics row is coherent for the validator |
| `AuditMetrics.BuildBuckets` | research/audit_bridge/export_audit_package.py:1680-1738 | one filled row for each (pattern, label) among the trades, sorted by it, then by increasing id one empty row with a reason for exactly the known patterns without a trade; without trades one empty row |
| `AuditMetrics.MissingPatterns` | research/audit_bridge/export_audit_package.py:1708-1711 | exactly one empty row for each known pattern without a bucket and for no other, by increasing id |
| `AuditMetrics.CheckBucketBreakdown` | research/audit_bridge/validate_audit_package.py:561-581 | exactly the errors due: no rows; no available row and no reason; an available row without a label or without trades |
| `AuditMetrics.ExportedBucketsAreUsable` | research/audit_bridge/export_audit_package.py:1680-1738 | the exported breakdown passes that check, whatever the trades |
| `AuditMetrics.BucketsCountEveryTrade` | research/audit_bridge/export_audit_package.py:1680-1738 | the buckets' trade counts add up to the number of trade rows: each trade is in exactly one bucket |
| `AuditAgreement.CheckFillReferences` | research/audit_bridge/validate_audit_package.py:442-445 | the row numbers listed are exactly those of fills naming an unknown trade |
| `AuditAgreement.ExportedFillsResolve` | research/audit_bridge/export_audit_package.py:428-441 | every exported fill names an exported trade |
| `AuditAgreement.ExportTrades` | research/audit_bridge/export_audit_package.py:428-441 | the rows are the rounded exportable trades in order and the fills those of the exported ids; every row adds up, every fill resolves, and the two checks list exactly what does not, hence nothing |
| `AuditAgreement.ExportMetrics` | research/audit_bridge/validate_audit_package.py:538-558 | each pattern gets the metrics row of its trades, every such row is coherent with the trades table, and the check says so |
| `AuditAgreement.ExportBuckets` | research/audit_bridge/validate_audit_package.py:561-581 | the breakdown holds the bucket rows in order, counting every trade once, and the empty rows behind them; it is usable, and the check says so |
| `AuditAgreement.ExportAndValidate` | research/audit_bridge/validate_audit_package.py:218-222 | for every overview and every rounding within half of 0.0001 the tables are those of the exporter, meet all that the four checks demand, and the four checks find nothing |
| `ReportedTables.ExportReports` | research/audit_bridge/export_audit_package.py:428-470 | each table of an export by the closed trades and the patterns alone: which trade each row and fill shows, every amount rounded for itself and the net from the other five, which rows each metrics row and each bucket counts and adds up, which label a row goes under, and the empty rows |
| `AuditDuplicates.CountIsCardinality` | research/audit_bridge/export_audit_package.py:1993-2000 | the count of a label is the number of rows carrying it |
| `AuditDuplicates.RepeatsIffCounted` | research/audit_bridge/export_audit_package.py:1993-2000 | a row's label occurs on another row exactly when its count exceeds one |
| `AuditDuplicates.CountLabels` | research/audit_bridge/validate_audit_package.py:520-524 | the dictionary loop counts every non-blank label |
| `AuditDuplicates.DuplicateEventGroups` | research/audit_bridge/export_audit_package.py:1993-2000 | groups and repeated rows are the numbers of repeated labels and of rows carrying them |
| `AuditDuplicates.PossibleDuplicates` | research/audit_bridge/export_audit_package.py:2431-2436 | repeated rows are the summary's surplus plus the repeated groups |
| `AuditDuplicates.CheckDuplicateReporting` | research/audit_bridge/validate_audit_package.py:513-535 | no error if and only if the manifest holds those two numbers |
| `AuditDuplicates.DuplicateShareBlocks` | research/audit_bridge/director_gate.py:254-264 | the gate blocks when the share of repeated rows exceeds the limit; at limit 0 exactly when non-blank labels are not pairwise distinct |
| `AuditDuplicates.NoneRepeatIff` | research/audit_bridge/director_gate.py:254-264 | no row repeats exactly when the non-blank labels are pairwise distinct |
| `AuditDuplicates.ReportDuplicates` | research/audit_bridge/validate_audit_package.py:513-535 | exporter, validator, summary and gate in a row: both figures are the numbers of repeated groups and rows, the validator accepts them, the surplus is their difference, and the gate blocks exactly if some row repeats |
| `DirectorGate.LastRowDecides` | research/audit_bridge/director_gate.py:193 | a pattern id on several catalog rows has the status of the last one |
| `DirectorGate.CountIndependence` | research/audit_bridge/director_gate.py:272-282 | the event loop counts the verified rows per pattern, the unverified and the unsettled ones |
| `DirectorGate.NoneCountedIff` | research/audit_bridge/director_gate.py:272-286 | a verdict's count is zero exactly when no row has it |
| `DirectorGate.CountReplays` | research/audit_bridge/director_gate.py:421-443 | the replay loop counts each of its four classes, and every experiment is in exactly one |
| `DirectorGate.ZeroTradePromotions` | research/audit_bridge/director_gate.py:210-216 | the offenders are exactly the promoted patterns with a metrics row below the required trades |
| `DirectorGate.SampleMismatches` | research/audit_bridge/director_gate.py:288-294 | some pattern is listed exactly when a metrics row claims more samples than its events show |
| `DirectorGate.ScientificContractStatus` | research/audit_bridge/director_gate.py:405-524 | besides the contract's blockers the replay figures: without blockers the passed and the exempt replays are all of the experiments |
| `DirectorGate.Evaluate` | research/audit_bridge/director_gate.py:176-336 | runs the stages, counting in loops, and reports exactly the blockers whose reason holds, in the order of the report; ReportedBlockers says of each blocker for which rows that is |
| `DirectorGate.SilentIff` | research/audit_bridge/director_gate.py:199-336 | the report is empty if and only if no reason holds at any stage |
| `DirectorGate.GateSoundness` | research/audit_bridge/director_gate.py:199-336 | a silent gate at the default duplicate share means: all four tables have rows, every event row is independent with all six look-ahead cells filled, duplicate labels are pairwise distinct, some event row names a regime and some a sector, every trade row is costed and if identified has a fill row, every experiment row has a passed or exempt replay, the undemonstrated claim, its hashes and no degrading drift |
| `ReportedBlockers.EmptyTablesIff` | research/audit_bridge/director_gate.py:199-206 | the four empty-table blockers are reported exactly for empty tables |
| `ReportedBlockers.UnknownStatusesIff` | research/audit_bridge/director_gate.py:207-208 | reported if and only if the last catalog row of a pattern has a status that is neither a promotion nor research only |
| `ReportedBlockers.PromotedWithoutTradesIff` | research/audit_bridge/director_gate.py:210-218 | reported if and only if a metrics row of a pattern its last catalog row promotes claims fewer trades than required |
| `ReportedBlockers.PromotedWithoutFillsIff` | research/audit_bridge/director_gate.py:220-224 | reported if and only if some pattern is promoted and the fills table has fewer rows than required |
| `ReportedBlockers.ResearchMetricsInColumnsIff` | research/audit_bridge/director_gate.py:225-230 | reported if and only if a metrics row without trades has a figure in one of the eight operational columns |
| `ReportedBlockers.LookaheadColumnsMissingIff` | research/audit_bridge/director_gate.py:232-235 | reported if and only if one of the six look-ahead columns is on no event row |
| `ReportedBlockers.LookaheadBlankIff` | research/audit_bridge/director_gate.py:236-243 | reported if and only if all six are there and some event row leaves one blank |
| `ReportedBlockers.CloseEntryWithoutProofIff` | research/audit_bridge/director_gate.py:244-253 | reported if and only if an entry rule names the bar's close and no event row has the eligibility column |
| `ReportedBlockers.DuplicatesExceedIff` | research/audit_bridge/director_gate.py:254-264 | reported if and only if the share of event rows repeating a group label exceeds the limit |
| `ReportedBlockers.PendingLabelsPromotedIff` | research/audit_bridge/director_gate.py:266-270 | reported if and only if some pattern's last catalog row promotes it and some event row has a pending or legacy label |
| `ReportedBlockers.NotIndependentIff` | research/audit_bridge/director_gate.py:272-284 | reported if and only if some event row is not marked independent |
| `ReportedBlockers.IndependencePendingIff` | research/audit_bridge/director_gate.py:281-286 | reported if and only if some event row's mark is neither yes nor no |
| `ReportedBlockers.SampleCountMismatchIff` | research/audit_bridge/director_gate.py:288-298 | reported if and only if a metrics row claims more independent samples than a positive number of event rows shows |
| `ReportedBlockers.RegimeNotPersistedIff` | research/audit_bridge/director_gate.py:301-303 | reported if and only if no event row names a regime |
| `ReportedBlockers.SectorNotPersistedIff` | research/audit_bridge/director_gate.py:304-306 | reported if and only if no event row names a sector |
| `ReportedBlockers.NoOutOfSampleIff` | research/audit_bridge/director_gate.py:308-315 | reported if and only if there are experiments and none has both out-of-sample bounds |
| `ReportedBlockers.NoTrainOnlyEvidenceIff` | research/audit_bridge/director_gate.py:317-325 | reported if and only if there are experiments and none of the five train-only columns |
| `ReportedBlockers.NoMultipleTestingIff` | research/audit_bridge/director_gate.py:326-330 | reported if and only if there are twenty experiments or more and none of the multiple-testing columns |
| `ReportedBlockers.ContractColumnsMissingIff` | research/audit_bridge/director_gate.py:412-415 | reported if and only if there are experiments and one of the ten contract columns is on none of them |
| `ReportedBlockers.LedgerHashMissingIff` | research/audit_bridge/director_gate.py:417-419 | reported if and only if some experiment lacks its ledger hash |
| `ReportedBlockers.ReplayMissingIff` | research/audit_bridge/director_gate.py:421-445 | reported if and only if some experiment has all three replay cells blank |
| `ReportedBlockers.ReplayNotPassedIff` | research/audit_bridge/director_gate.py:421-447 | reported if and only if some experiment has replay evidence, is not exempt and has not passed |
| `ReportedBlockers.EdgeInflatedIff` | research/audit_bridge/director_gate.py:449-456 | reported if and only if some experiment claims an edge other than the undemonstrated one |
| `ReportedBlockers.EdgeMissingIff` | research/audit_bridge/director_gate.py:457-459 | reported if and only if some experiment makes no claim |
| `ReportedBlockers.DriftDegradingIff` | research/audit_bridge/director_gate.py:461-467 | reported if and only if some experiment's drift status is one of the three bad ones |
| `ReportedBlockers.BlockersActiveIff` | research/audit_bridge/director_gate.py:469-475 | reported if and only if some experiment's own blocker list is not empty |
| `ReportedBlockers.RegistryHashMissingIff` | research/audit_bridge/director_gate.py:477-485 | reported if and only if some experiment lacks its registry hash |
| `ReportedBlockers.RunManifestMissingIff` | research/audit_bridge/director_gate.py:478-487 | reported if and only if some experiment lacks its run manifest hash |
| `ReportedBlockers.ChainInvalidIff` | research/audit_bridge/director_gate.py:479-489 | reported if and only if some experiment says something other than yes about its hash chain |
| `ReportedBlockers.TradesWithoutFillsIff` | research/audit_bridge/director_gate.py:491-505 | reported if and only if some identified trade has no fill row |
| `ReportedBlockers.CostMissingIff` | research/audit_bridge/director_gate.py:494-507 | reported if and only if some trade lacks its commission or spread |
| `ReportedBlockers.SlippageMissingIff` | research/audit_bridge/director_gate.py:499-509 | reported if and only if some trade lacks its slippage |
| `ReportedBlockers.ReportInOrder` | research/audit_bridge/director_gate.py:199-336 | no blocker is reported twice, and all in the fixed order of the report |
| `PromotionEvidence.ListCountsRows` | research/audit_bridge/validate_audit_package.py:539-545 | the validator's list of a pattern's trades has one entry for each of its rows in the trades table |
| `PromotionEvidence.EnoughTradesClaimed` | research/audit_bridge/director_gate.py:210-218 | a silent gate means that every metrics row of a promoted pattern claims the required trades |
| `PromotionEvidence.ClaimsAreRows` | research/audit_bridge/validate_audit_package.py:542-547 | a silent coherence check means that every claimed count is the number of the pattern's rows in the trades table |
| `PromotionEvidence.PromotedPatternsAreTraded` | research/audit_bridge/validate_audit_package.py:538-558 | gate and coherence check together: if both are silent, every promoted pattern with a metrics row has the required number of rows in the trades table, each costed and each identified one with a fill row |
| `PromotionEvidence.RebookingIsSilent` | research/audit_bridge/validate_audit_package.py:538-558 | booking the trades of a pattern on another one stays unnoticed by both programs if neither has a metrics row |
| `PromotionEvidence.SilenceShowsTradesIff` | research/audit_bridge/director_gate.py:210-218 | the exact condition: whatever the trades table, silence of both programs shows that a promoted pattern has its trades if and only if the pattern has a metrics row or no trades are required |
| `PromotionEvidence.GateAndCoherence` | research/audit_bridge/director_gate.py:210-218 | running both programs on one package gives exactly the gate's blockers and an error exactly for an incoherent metrics table, and without either every promoted pattern with a metrics row has its trades |
| `UntradedPromotion.ChecksShowTradesIff` | research/audit_bridge/validate_audit_package.py:429-437 | the condition stays exact when the reference check must be silent too and no metrics row has a blank pattern id |
| `UntradedPromotion.QuietIsSilent` | research/audit_bridge/director_gate.py:199-336 | a package of one promoted pattern, one independent and complete event, one costed trade with its fill, no metrics and no experiments raises no blocker at all |
| `UntradedPromotion.SilentAndUntraded` | research/audit_bridge/director_gate.py:210-218 | concrete tables on which gate, coherence check and reference check are all silent at every number of required trades, with a promoted pattern that has no trade |
| `GateResult.RankingIsStableSort` | research/audit_bridge/director_gate.py:582-590 | the ranking is a permutation, best first by (expectancy, PnL, trades), ties in their original order |
| `GateResult.BestAndWorst` | research/audit_bridge/director_gate.py:595-596 | no available bucket beats the reported best or falls below the reported worst |
| `GateResult.BucketBreakdown` | research/audit_bridge/director_gate.py:562-599 | without usable rows the first reason given or the fallback; otherwise count, best, worst and the twenty best of the ranking |
| `ResultFile.PayloadAcceptedIff` | research/audit_bridge/director_gate.py:842-864 | a written result raises no validator error if and only if its status is one of the three and the given summary is in order |
| `ResultFile.PayloadPromotion` | research/audit_bridge/director_gate.py:842-864 | the validator reads promotion from a written result exactly when it was passed without blockers |
| `ResultFile.SectionBreakdown` | research/audit_bridge/director_gate.py:338-353 | the breakdown of the table under the section's own label column; it has buckets or a non-blank reason, and is available exactly when some row is |
| `ResultFile.CheckDirectorGateResult` | research/audit_bridge/validate_audit_package.py:337-371 | the validator's list holds exactly the errors the object is at fault for |
| `ResultFile.CheckSummary` | research/audit_bridge/validate_audit_package.py:352-371 | the same for the summary part |
| `ReportedFaults.FaultIff` | research/audit_bridge/validate_audit_package.py:337-371 | which entries of the object are at fault, error by error |
| `ReportedFaults.PromotionIff` | research/audit_bridge/validate_audit_package.py:225-283 | the report allows promotion exactly without errors and if the first promotion entry there is counts as true, or else if the first status that counts reads passed |
| `ResultFile.RunGate` | research/audit_bridge/director_gate.py:126-134 | for all package tables: the file written is that of the blockers and of the two breakdowns, each of its own table; it raises no validator error, lists the blockers in order, says passed exactly without blockers, which at the default duplicate share means sound rows, and the validator reports promotion exactly without errors and blockers |
| `ReportedResult.GateFileReports` | research/audit_bridge/director_gate.py:842-864 | that file entry by entry: verdict, flags, copied recommendations and nothing else; its summary; and each section by the rows alone: of all usable rows, ranked by expectancy, profit, trades and position, the first twenty with their figures, the first and the last one, or the first reason given |
| `ReportedResult.SectionReports` | research/audit_bridge/director_gate.py:562-612 | one section by the rows of its table |
| `ResultFile.RunGateInvalid` | research/audit_bridge/director_gate.py:113-120 | for unreadable tables the file written raises exactly two validator errors, the missing breakdowns, and never allows promotion |
| `ReportedResult.InvalidFileReports` | research/audit_bridge/director_gate.py:113-120 | the file for unreadable tables entry by entry |
| `ResultFile.AcceptedStatus` | research/audit_bridge/validate_audit_package.py:258-272 | the status reported for an accepted file is the file's own |
| `ResultFile.AcceptedPromotionWithoutPass` | research/audit_bridge/validate_audit_package.py:275-283 | an accepted file that has not passed is read as allowing promotion if and only if it lacks its own promotion entry and its summary has a true one |
| `ResultFile.BlockedFileCanAllowPromotion` | research/audit_bridge/validate_audit_package.py:275-283 | a concrete family of such files |

## Left out

- Database, Telegram, broker, git and Docker calls: they appear only as outcomes (success, failure, death of the process, or the value returned).
- Floats and printing: durations and amounts are exact reals; `_rounded` in the benchmark is any function (monotone where the tail wait is concerned); the exporter's `round(x, 4)` is any function within half of 0.0001; infinities and NaN do not occur.
- SHA-256, JSON and CSV text: a digest is any non-blank token, tables are rows by column, JSON is a tree.
- Message texts, timestamps, Markdown and the previews of offenders.
- WorkerQueue.EstimatedWorkerQueue: presumes the elapsed time was parsed; starts are rounded where the estimate compares them, but the makespan and the items it returns are given before rounding.
- AlertCursor.DeliveryGuarantee: runs are serial and ids become visible in increasing order; a message counts as sent when the send command reported success or the process died behind it; tampering never plants a cursor beyond the newest id.
- AlertCursor.Notifier.NotifyOnce: dry runs, the text of notes and the formatting of events are not modelled.
- ExecuteLock.LockHoldsIffNoLiveTakeover: the exclusive create is atomic as POSIX.1-2017 open() with O_CREAT and O_EXCL demands; a failing stat between create and takeover counts as the process raising.
- EnvFile.RoundTripIff: keys start with TRADEO_ and hold no equals sign, line break or trailing blank, as the probe's keys do.
- AccountGate.ProbePassesIff: upper and lower case are exact for the letters compared; int() is any function from text to an optional integer.
- DiscoveryGroups.SelectedGroupsAreRecentRepeats: for distinct row ids, which the table's primary key gives.
- ReportedGroups.GroupsReport: for distinct row ids as well.
- CacheWarmup.RecordedTaskIsNeverFetchedAgain: task keys are distinct and the log is only appended to; upper-casing of symbols and the JSON text of a line are not modelled.
- HashFile.WriteThenVerifyIff: the files are a map from normal relative paths to digests; `./`, doubled slashes and directories are not modelled. Names with a line break under a manifest that omits a hashed file are covered only by the rejection of a listed one.
- AuditMetrics.BuildBuckets: event counts and the note syntax holding regime and variant are not modelled; the six performance cells of a traded pattern are any values.
- AuditAgreement.ExportAndValidate: the checks on PnL, metrics, buckets and fill references only. The package as a whole need not be accepted: the exporter's `linked_event_id` (research/audit_bridge/export_audit_package.py:1236-1238) mints event ids its event table never holds.
- AlertCursor.Notifier.WriteState: the rename is atomic, as POSIX.1-2017 rename() demands; nothing else about the write is assumed.
- PromotionEvidence.SilenceShowsTradesIff: about the gate and the coherence check; UntradedPromotion.ChecksShowTradesIff adds the part of the reference check that looks at the patterns of trades. The other checks of the validator do not compare trades with patterns.
- DirectorGate.Evaluate: the fixed order of its sections is a list of stages; offender lists are kept only where a count or list drives a branch; the recommendations and the other summary figures are arbitrary entries of the summary.
- ResultFile.CheckDirectorGateResult: a status that is a JSON list or object counts as a wrong status where the program would stop with a TypeError, and Python's equality of true with 1 is not modelled.
- check_manifest, check_manifest_counts, check_timestamps, check_evidence_contract, check_experiment_contract, the sensitive-value scan: each is settled by one reading of its body.
- The order of stored and derived split bounds, concurrent notifier runs, and log ids that commit out of order.
- Thin command-line wrappers, the web application, agents, migrations and the frontend.
