# Verified model of the iGrill server

This project models the stateful core of a barbecue-thermometer server and of the
web client beside it, in Dafny, and proves what that core is for: readings that
are thinned without losing their meaning, timers that alert once, sessions that
survive crashes, alerts that are not repeated and, on exact conditions, not missed,
and the fast incremental structures and the printers and parsers of the client.

Every piece of code that works by changing things in place is a class (or a
method with a loop) proved against a specification on values; the theorems are
then about that specification, mostly over whole runs and all interleavings.
Instants are integers in microseconds (in the rate limiter, the evaluator and
the rolling buffer: reals, in seconds), temperatures are reals, SQL tables are
maps or sets with their key constraints, and a transaction is a snapshot that a
rollback restores.

| files | what they hold |
|---|---|
| `ReadingTables`, `Averages`, `TextOrder` | the two reading tables, their order, and what a downsampling pass must do to them |
| `Bucketing`, `Downsampler` | the pass itself: grouping, collapsing, device row rewriting, transaction, two tiers |
| `DownsampleTheorems`, `DownsampleFields`, `DownsampleJoins`, `DownsampleExact` | what a pass preserves, what it does column by column, and exactly which rows still join after it |
| `TimerTable`, `TimerMachine`, `TimerSystem`, `TimerAccounting`, `CountdownCompleter` | timer rows, the states they move through, all their users interleaved, time accounting, the completer |
| `SessionStore`, `TimerReplica` | the browser's reducer, and its timer list as a replica of the server's table |
| `SessionBook`, `StartFaults`, `HistoryStore` | sessions, pointers, crashes and recovery; session starts that fail half way; the store object |
| `TargetCache`, `TargetRows`, `TargetFailures`, `Server` | the evaluator's targets as a copy of the saved ones; what each request saves; updates that fail half way; the request handlers |
| `AlertRules`, `AlertEvaluator`, `AlertRuns`, `AlertTargets`, `AlertRearms`, `AlertDelivery`, `AlertStages`, `AlertDevices`, `AlertSharing` | alert rules, the evaluator object, what a listener hears over whole runs, exactly when each stage is announced and each probe starts over, devices that share a probe number, and targets that share a probe |
| `SeqCounter`, `DeviceWorker` | the workers' sequence numbers |
| `RollingBuffer`, `RateLimiter` | the two sliding windows |
| `Decimal`, `Durations` | duration printers and parsers, on strings |
| `Options`, `Sets` | shared helpers |

Where the code does not do what its documentation suggests, the code is kept, and the
exact condition under which it does is a theorem:

- downsampling can cost a surviving probe row its device row, although the repository's
  README.md:395 says the two tables are cleaned up together. Which rows it costs theirs is
  decided by the tables before the pass (`RowJoinsExactly`, `EveryRowJoinsExactlyWhen`), the
  order of the buckets included (`OrderDecides`). A probe that missed the first cycle of a
  bucket loses its device row whenever no other bucket of its address is kept under one of
  its numbers (`LateProbeLosesItsDevice`, `LateProbeExists`); with complete cycles no row
  loses its own (`EveryRowJoins`); and no pass leaves a device row without probe rows
  (`NoDeviceRowOrphaned`);
- the evaluator keeps its flags by session and probe number, while the web client shows alerts by
  device and probe number (sessionStore.js:285), so the probes of one number on several devices
  share one set of flags. A device's crossing of a target is announced as its own exactly when no
  device's probe of that number was read above the target it was held against since the last
  rearm (`CrossingAnnouncedExactlyWhen`), its first crossing exactly when no other device's was
  (`FirstCrossingAnnouncedExactlyWhen`); after one device's crossing, no other device with a probe
  of that number is heard of until the rearm (`OtherDevicesGoUnheard`, `SecondCrossingIsSilent`);
- targets that name one probe share its flags too. A flag stands for each of them, in that a
  reading was above each, exactly for concordant lists, in which no target of a probe lies above,
  or is without, the ceiling of another one that can be evaluated (`ConcordantExactly`); with any
  other list the crossing of the higher target can go unannounced (`DiscordIsUnjustified`,
  `HigherCrossingIsSilent`);
- a device row is ignored as a duplicate exactly when a worker took up a number below one
  that a device row already carries (`SeedingIsExact`), which a cycle without probe readings
  followed by a respawn brings about (`EmptyCycleCostsADeviceRow`);
- a target update fails exactly when it names a probe twice, and then leaves the part of its list
  before the first repeat as the device's rows (`FailedUpdateLeaves`) while the evaluator keeps its
  old list. The evaluator's copy stays right exactly when those are the rows that were there
  already (`ServeKeepsTheCopyExactlyWhen`, over whole runs `EvaluatorHoldsSavedTargets`);
  `RepeatedProbeBreaksTheCopy` is the plainest case in which it does not;
- a session start that fails after its insert is not rolled back: the row is open under no pointer,
  and the next commit makes it permanent (`FailedStartLeavesOpenRow`). Rows and pointers agree
  exactly when no such row is left, until it is discarded or the process restarts
  (`SettledExactlyWhenNothingLeaked`);
- the browser's timer list is right exactly when the last row it received of each timer is the
  server's (`ListMirrorsExactlyWhen`), which an acknowledgement that arrives after a later
  broadcast of the same timer can upset (`LateAckIsStale`);
- the rolling buffer shows its whole window exactly when no sample of it was followed by one
  stamped more than a window later (`ShowsTheWindowExactlyWhen`), which a sensor clock ahead
  of the browser's can bring about (`AheadOfTheClock`);
- the timer input and the probe sheet read a text alike exactly when the sheet reads nothing, or
  the text is all digits, or it is a clock of two or three numbers that does not come to zero
  (`ParsersAgreeExactlyWhen`); they differ, for one, on every signed number
  (`OnlyTheSheetReadsSigns`).

## Model

| member | source | states |
|---|---|---|
| Downsampler.Database.DownsampleRange | service/history/downsampler.py:53-226 | with any subset of statements failing: success exactly when none of those executed fails, so no intermediate delete or insert ever breaks a key; then both tables are related to the old ones as a finished pass; on failure both tables are exactly as before |
| Downsampler.Database.DownsampleSession | service/history/downsampler.py:25-50 | the week-old tier and then the day-old tier; a failure leaves the last committed state |
| Downsampler.Database.CollapseBuckets | service/history/downsampler.py:114-162 | every bucket of two or more rows ends as its averaged row, UNIQUE holding after every statement; what is noted down for the device rows is what the table of readings determines, in order |
| Downsampler.Database.RewriteDevices | service/history/downsampler.py:164-206 | the device rows of each noted entry become one, turn after turn |
| Downsampler.SortRows | service/history/downsampler.py:72-88 | the rows of a pass, each once, by address, probe and time |
| TextOrder.FirstDifferenceDecides | service/history/downsampler.py:83 | addresses are ordered by the first character in which they differ, a text before its continuations |
| Bucketing.FillBuckets | service/history/downsampler.py:90-112 | the dictionary holds exactly the fetched rows, each in the bucket of its address, probe and time, and its keys are the buckets that have rows, in that order |
| Bucketing.Summarise | service/history/downsampler.py:122-151 | the loop over a bucket gives the smallest number, the midpoint of first and last time and the mean of the temperatures there are |
| Bucketing.MergeDevices | service/history/downsampler.py:178-206 | the merged device row is the average the specification demands |
| ReadingTables.InsertIsFree | service/history/downsampler.py:129-150 | half way through a pass, whatever groups were collapsed before, a collapsed row's key is free once its sources are deleted, even when buckets of several probes overlap |
| ReadingTables.PartwayUnique | service/db/schema.py:39-48 | UNIQUE(session, address, seq, probe_index) holds at every intermediate state |
| DownsampleTheorems.BucketBecomesOneRow | service/history/downsampler.py:122-151 | a bucket of several rows becomes exactly one row: smallest number, midpoint time, mean temperature |
| DownsampleTheorems.OthersUntouched | service/history/downsampler.py:72-88 | other sessions, out-of-range rows and rows alone in their bucket are unchanged |
| DownsampleTheorems.NothingInvented | service/history/downsampler.py:122-151 | every other row of the result was there before, unchanged |
| DownsampleTheorems.CollapsedStaysPut | service/history/downsampler.py:129-150 | the midpoint lies between two of its sources, in the same bucket and the same range |
| DownsampleTheorems.CollapsedTemperature | service/history/downsampler.py:129-150 | null if and only if all were null, else between any bounds of the sources |
| DownsampleTheorems.SecondPassChangesNothing | service/history/downsampler.py:53-226 | a second identical pass changes neither table |
| DownsampleTheorems.KeysOnlyShrink | service/history/downsampler.py:122-151 | no row key appears that was not there, and keys stay unique |
| DownsampleTheorems.OrderSurvives | service/history/downsampler.py:129-150 | if smaller numbers never had later times in a series, the same holds over the mix of collapsed and untouched rows |
| DownsampleFields.RowGoesExactlyWhenInCompany | service/history/downsampler.py:72-127 | told from the columns: a row is removed if and only if another reading of its session, address and probe in the time range lies in the same stretch between multiples of the bucket width; every other row is unchanged |
| DownsampleFields.CompanyBecomesItsAverage | service/history/downsampler.py:122-151 | such readings become one new row: their least number, the middle of first and last time to the microsecond (halves to the even side), null or the sum of the temperatures divided by their count; no other row is left in that stretch |
| DownsampleFields.NewRowHasCompany | service/history/downsampler.py:122-151 | and every new row comes about like that |
| DownsampleFields.TurnMergesColumns | service/history/downsampler.py:164-206 | one turn of the rewriting: heating of the highest number, time of the kept number or else the lowest, propane the mean, battery the mean rounded to the nearest and half to even; all other device rows unchanged |
| DownsampleFields.CompanysDeviceRow | service/history/downsampler.py:164-206 | with complete cycles the device row a collapsed row joins is that of exactly its bucket's device rows |
| DownsampleFields.BothTiersThin | service/history/downsampler.py:25-50 | after both tiers a reading of the session is gone if and only if another one of its probe was over 7 days old in the same 5 minutes, or over 1 and up to 7 days old in the same minute, as it is; all others are unchanged |
| DownsampleFields.BothTiersAverage | service/history/downsampler.py:25-50 | and those that are gone have become the average of exactly these readings |
| DownsampleTheorems.JoinSurvives | service/history/store.py:711-743 | a surviving row still joins if it did and no collapsed bucket of its address holds its number under another one |
| DownsampleExact.RowJoinsExactly | service/history/downsampler.py:153-206 | a surviving row of the session joins a device row afterwards if and only if a condition on the two tables before the pass holds for its number |
| DownsampleExact.LastEntryDecides | service/history/downsampler.py:164-206 | that condition, in words: the last entry that lists the number keeps it and finds some device row at its turn |
| DownsampleExact.UnlistedIsAsBefore | service/history/downsampler.py:164-206 | or no entry lists it and it had a device row |
| DownsampleExact.EveryRowJoinsExactlyWhen | service/history/downsampler.py:153-206 | all surviving rows of the session join if and only if the condition holds for every number that remains, told from the table before the pass |
| DownsampleExact.OtherRowsJoinAsBefore | service/history/downsampler.py:164-206 | rows of other sessions join exactly if they did |
| DownsampleExact.OrderDecides | service/history/downsampler.py:72-88 | tables in which one probe was read in cycles lo and mid and another in mid and hi: the collapsed row numbered mid keeps a device row if the probe with the later cycles sorts last, and loses it with the two probes exchanged |
| DownsampleTheorems.NoDeviceRowOrphaned | README.md:395 | if every device row had a probe row, the same holds after the pass |
| DownsampleJoins.EveryRowJoins | service/history/downsampler.py:153-206 | if in every bucket all probes of an address carry the same numbers, every surviving row still joins |
| DownsampleJoins.CollapsedRowJoinsBucketAverage | service/history/downsampler.py:164-206 | the device row a collapsed row joins is the average of exactly its bucket's device rows as they were before the pass |
| DownsampleJoins.MergedBattery | service/history/downsampler.py:178-206 | null if and only if all were, else within the bounds of the sources, after rounding half to even |
| DownsampleJoins.TiersApart | service/history/downsampler.py:25-50 | no row is in range of both tiers, now or after either |
| DownsampleJoins.EveryRowJoinsAfterBothTiers | service/history/downsampler.py:25-50 | completeness survives the first tier, so joins survive both |
| DownsampleJoins.BothTiersTwice | service/history/downsampler.py:25-50 | running both tiers again changes neither table |
| DownsampleJoins.LateProbeLosesItsDevice | service/history/downsampler.py:153-206 | a collapsed bucket whose numbers all lie in another one of its address, and are kept by no other, has no device row afterwards, whatever the device rows and the other buckets |
| DownsampleJoins.LateProbeExists | service/ble/device_worker.py:395-396 | such a table exists |
| TimerTable.OperationsKeepForm | service/history/store.py:1042-1319 | no row is running and paused at once; a completed row is paused and not running |
| TimerTable.CompletedIsTerminal | service/history/store.py:1089-1319 | on a completed row start and resume are refused, pause and complete change nothing; only upsert and reset leave that state |
| TimerTable.CompletedRanItsDuration | service/history/store.py:1244-1319 | a row expired at the scan and undisturbed has its duration on it when completed |
| TimerMachine.OperationsAreTheMachine | service/history/store.py:1042-1319 | idle, going, resting, done: an operation on a row of the current session is refused exactly when it starts or resumes a done one; otherwise the columns show the next state, the seconds are kept, cleared, or raised by the whole seconds run, and mode and duration stay |
| TimerMachine.EveryRowHasAState | service/history/store.py:1042-1319 | every row that the operations can leave behind shows one of the four states |
| TimerMachine.RefusedOtherwise | service/history/store.py:1042-1319 | the other refusals: bad mode, session not current, no such session, no such timer, in that order; no refusal changes the table |
| TimerMachine.RowWalksTheMachine | service/history/store.py:1042-1319 | through every sequence of operations a row walks that machine and no other row moves |
| TimerSystem.AlertsOncePerArming | service/timers.py:51-134 | under every interleaving of clients, sessions, restarts, scans and completions: between two alerts for a timer it was upserted or reset, and every alert is for the session current at completion |
| TimerSystem.CompletionKeepsOrder | service/timers.py:66-126 | the step behind it: one completion, whatever came between it and the scan |
| TimerSystem.ClientActs | service/api/websocket.py:663-709 | a request changes the table as its operation does and publishes the row last, if publishing works; a refused one logs nothing |
| TimerSystem.SessionsAct | service/history/store.py:336-405 | a discard takes the session's timers and no others; starts, ends, restarts and scans leave all |
| TimerAccounting.AccumulatedIsTrueTime | service/history/store.py:1155-1167 | with a monotone clock: never more than the true running time of the closed intervals, and short of it by less than a second for each |
| TimerAccounting.AccumulatedNeverShrinks | service/history/store.py:1155-1167 | with any clock it never decreases without a rearm |
| CountdownCompleter.Completer.Tick | service/timers.py:51-134 | the loop's table, published events and count are those of the specified completions, one after the other, under any publishing faults |
| CountdownCompleter.TickIsARun | service/timers.py:51-134 | an uninterrupted tick is one run of the interleaved system, so its theorems apply |
| CountdownCompleter.UndisturbedTickIsExact | service/timers.py:51-134 | it completes every countdown of the current session that, told from its columns, had run out at the scan, each with at least its duration, and leaves every other timer as it was, those of other sessions that the scan also finds included |
| CountdownCompleter.TickCompletes | service/timers.py:66-126 | each found row is completed as of its own completion and, if publishing works, alerted |
| CountdownCompleter.ScanFindsExactly | service/history/store.py:1339-1401 | a scan finds a row if and only if it is a count_down with started_at and a duration, neither paused nor completed, whose seconds so far and whole seconds since started_at reach the duration |
| CountdownCompleter.UndisturbedTickAlertsExactly | service/timers.py:51-134 | with working publishing an undisturbed tick publishes an alert for exactly those of them that are of the current session |
| CountdownCompleter.CountIsOfCompletions | service/timers.py:51-134 | the tick's count is the number of found rows of the current session whose update went out |
| SessionStore.PutIsUpdate | service/web/static/js/stores/sessionStore.js:182-237 | putting a row keeps one entry per timer, replaces that timer's and keeps all others |
| SessionStore.LastWordOnSession | service/web/static/js/stores/sessionStore.js:97-165 | whatever messages arrive: the session shown is the one named by the last status, start or end message that is not a refusal, and none after an end |
| SessionStore.TimersStayWithTheirSession | service/web/static/js/stores/sessionStore.js:97-165 | refusals change nothing; a message that is not about timers keeps the list of the session shown before and after, and any other session comes with its own timers or none |
| SessionStore.TargetsAsTold | service/web/static/js/stores/sessionStore.js:97-180 | the targets shown are those of the last status, start or acknowledgement that brought some |
| SessionStore.EitherSpelling | service/web/static/js/stores/sessionStore.js:182-237 | a timer row is read the same under snake_case and camelCase columns, each column into its own field |
| SessionStore.CarriedRowCounts | service/web/static/js/stores/sessionStore.js:182-237 | the row a timer message carries is what counts, or else the message itself |
| SessionStore.ReceivesOwnRows | service/web/static/js/stores/sessionStore.js:182-237 | a row without an address or probe number, or of another session, changes nothing; any other is put in the list |
| TimerReplica.ReceiveMirrors | service/web/static/js/stores/sessionStore.js:182-237 | receiving a broadcast does to the list what the operation did to the table |
| TimerReplica.ReplicaEqualsTable | service/web/static/js/stores/sessionStore.js:92-302 | after session_start and every broadcast in order, mixed with the client's own acknowledgements, other sessions' and status messages, the list has one entry per (address, probe) and equals the server's rows, once every acknowledgement was followed by a broadcast of its timer |
| TimerReplica.ListMirrorsExactlyWhen | service/web/static/js/stores/sessionStore.js:182-237 | whatever timer messages arrive, in whatever order: the list is exactly a table's rows of the session if and only if the last row received of each timer is the table's |
| TimerReplica.LateAckIsStale | service/api/websocket.py:705-709 | an acknowledgement that is the last message about its timer and carries another row than the table leaves the list wrong |
| SessionBook.AlwaysSound | service/history/store.py:134-452 | at every commit boundary of every run with crashes anywhere, at most one row is open; between operations the open row is the current one and last names an ended one |
| SessionBook.StepSound | service/history/store.py:210-405 | the invariant behind it, commit by commit |
| SessionBook.RecoveryRepairs | service/history/store.py:134-204 | from any number of open rows, recovery keeps a newest one, ends all others and touches nothing else |
| SessionBook.InterruptedRecovery | service/history/store.py:160-204 | a crash inside recovery leaves it repeatable |
| SessionBook.OpenIsSteps | service/history/store.py:210-280 | starting a session is exactly its single commits and pointer moves in order |
| SessionBook.EndIsSteps | service/history/store.py:302-334 | the same for ending |
| SessionBook.ForgetIsSteps | service/history/store.py:336-405 | the same for discarding |
| SessionBook.OperationsStaySettled | service/history/store.py:210-452 | every whole operation keeps pointers and rows in agreement |
| SessionBook.EndColumns | service/history/store.py:302-334 | ending, whole or at its commit, on its own or before a start, gives the current session's row the time and reason of the end, keeps its start, and touches no other row |
| SessionBook.OpenColumns | service/history/store.py:232-257 | starting gives the new row its time, points at it, and otherwise does what ending does |
| SessionBook.ForgetColumns | service/history/store.py:336-405 | discarding takes out exactly that row and the pointers to it |
| SessionBook.RecoverColumns | service/history/store.py:160-204 | recovery ends every other open row with the time of the recovery, keeps every other row as it was and points at the one it resumes |
| StartFaults.SettledExactlyWhenNothingLeaked | service/history/store.py:232-257 | over every run of starts that may fail at or after their insert, ends, discards, other commits and restarts: rows and pointers agree if and only if no row of a start that failed after its insert is left, and the open rows are those and the current one |
| StartFaults.FailedStartLeavesOpenRow | service/history/store.py:239-254 | such a row is open under no pointer and becomes durable with the next commit; the next start then leaves two sessions open |
| HistoryStore.Store.EndSession | service/history/store.py:302-334 | rows and pointers become those of the specification; the row has the time and reason of the end and no other row changes; the event names the session, time and reason and the duration in whole seconds |
| HistoryStore.Store.StartSession | service/history/store.py:210-280 | ends what is open, then opens the new id, or fails when it is taken |
| HistoryStore.Store.DiscardSession | service/history/store.py:336-405 | the session's rows are gone from every table, nothing else is, and pointers to it are cleared |
| HistoryStore.Store.DiscardCurrentSession | service/history/store.py:428-452 | the same, in all tables, for whichever session is current, and nothing without one; answers its id unless the row was missing |
| HistoryStore.Store.RecoverOrphanedSessions | service/history/store.py:134-204 | the loop over the orphans does what recovery is specified to do |
| HistoryStore.Store.UpsertTimer | service/history/store.py:1042-1087 | refused for an unknown mode, a session not current or a missing session, in that order; otherwise the row is fresh with the given mode and duration, and no other row changes |
| HistoryStore.Store.StartTimer | service/history/store.py:1089-1132 | refused for a session not current, a missing or a completed row; a running row is left alone; otherwise it runs from now with its accumulated time |
| HistoryStore.Store.PauseTimer | service/history/store.py:1134-1172 | a running row rests with the elapsed whole seconds added; any other row is left alone |
| HistoryStore.Store.ResumeTimer | service/history/store.py:1174-1212 | refused on a completed row; a row not paused is left alone; a paused one runs from now |
| HistoryStore.Store.ResetTimer | service/history/store.py:1214-1242 | a completed row too is fresh again, with its mode and duration |
| HistoryStore.Store.CompleteTimer | service/history/store.py:1244-1319 | running, paused and never started rows end completed and paused, elapsed time added only to the first; the first completion time is kept |
| HistoryStore.Store.FindExpiredRunningCountdowns | service/history/store.py:1339-1401 | lists every running countdown that, told from its columns, has run out, exactly once, and nothing else |
| HistoryStore.Store.SaveTargets | service/history/store.py:879-904 | later configurations of a probe replace earlier ones |
| HistoryStore.Store.UpdateTargets | service/history/store.py:971-1000 | replaces a device's rows; stops at the first repeated probe with the earlier rows written |
| HistoryStore.Store.GetTargets | service/history/store.py:906-929 | lists the session's rows, each once |
| HistoryStore.Store.RecordReading | service/history/store.py:667-709 | existing rows are kept, missing ones added; a missing session refuses all |
| HistoryStore.CycleIsStored | service/history/store.py:667-709 | with a fresh number and distinct probes every reading of the cycle is stored as read, and every older row is kept |
| HistoryStore.RecordedKeys | service/history/store.py:667-709 | whatever was there before, the keys afterwards are the old ones and those of the cycle |
| HistoryStore.RecordedIsFirst | service/history/store.py:667-709 | rows already there are kept whatever was read, and of two readings of one probe in a cycle the first is stored |
| HistoryStore.Store.GetMaxSeq | service/history/store.py:1552-1564 | the highest stored number of the device in the session, 0 without rows |
| TargetFailures.EvaluatorHoldsSavedTargets | service/api/websocket.py:491-522 | through every sequence of starts, target updates, failing ones included, ends, discards and restarts, the evaluator holds exactly the current session's saved targets, and nothing for any other session, after each of them, if and only if every update names no probe twice or leaves the table as it was |
| TargetFailures.ServeKeepsTheCopyExactlyWhen | service/api/websocket.py:759-803 | the same for each single request: an exact copy stays exact if and only if the request is no such harmful update |
| TargetFailures.UpdateKeepsTheCopyExactlyWhen | service/api/websocket.py:797-803 | the step behind it: a list of the session's rows tells a device's rows apart, so the old list is right for the new table only if that is the old one |
| TargetFailures.FailedUpdateLeaves | service/history/store.py:971-1000 | a failed update leaves exactly the configurations before the first repeated probe, and changes nothing if and only if those were the device's rows |
| TargetFailures.RepeatedProbeBreaksTheCopy | service/history/store.py:971-1000 | two configurations of one probe for a device without targets: the copy is wrong afterwards |
| TargetCache.ServeExact | service/api/websocket.py:759-803 | an exact copy stays exact through each request whose update, if it is one, names no probe twice |
| TargetCache.InsertIsExact | service/history/store.py:971-1000 | an insert goes through if and only if no probe is repeated, and then the device's rows are exactly the given ones |
| TargetCache.UpdateFailsIfAndOnlyIfProbeRepeated | service/history/store.py:971-1000 | an update fails if and only if it names a probe twice, and then the evaluator keeps its old list |
| TargetRows.StartSaves | service/api/websocket.py:491-522 | a start saves for every device the list's last configuration of each probe, keeps every other row, and gives the evaluator what was read back |
| TargetRows.UpdateReplaces | service/api/websocket.py:797-803 | an update that names no probe twice leaves exactly its configurations for the device, keeps every other row, and gives the evaluator what was read back |
| TargetRows.OthersKeepTheirRows | service/history/store.py:336-405 | a discard takes out the rows of the current session and no others; an end and a restart take out none |
| Server.Handlers.SessionStart | service/api/websocket.py:481-522 | serves the request as specified and keeps the copy exact |
| Server.Handlers.SessionEnd | service/api/websocket.py:559-577 | serves the request as specified and keeps the copy exact |
| Server.Handlers.SessionDiscard | service/api/websocket.py:592-608 | serves the request as specified and keeps the copy exact |
| Server.Handlers.TargetUpdate | service/api/websocket.py:759-803 | succeeds if and only if there is a session and no probe is repeated, serves the request, failing or not, and keeps an exact copy exact if and only if the update is harmless |
| Server.Boot | service/main.py:99-121 | a new process over any committed tables resumes a newest session and reloads its targets, and the copy is exact again |
| AlertEvaluator.Evaluator.SetTargets | service/alerts/evaluator.py:46-104 | targets and alert state become those of the specification, probe by probe |
| AlertEvaluator.Evaluator.ClearSession | service/alerts/evaluator.py:106-111 | the session's targets and state are gone, nothing else |
| AlertEvaluator.Evaluator.Evaluate | service/alerts/evaluator.py:113-219 | state and emitted events, each with the device it is sent for, are those of the rules applied target by target |
| AlertEvaluator.Announce | service/alerts/evaluator.py:186-217 | the sequence of ifs makes exactly the specified announcements and flags |
| AlertRules.StandInOwnUnit | service/alerts/evaluator.py:154-190 | where a reading stands is what the comparisons in the target's own unit say: fixed targets approached within the offset below, reached at and exceeded above their value; ranges approached below either bound, reached inside, exceeded above |
| AlertRules.StandsWhenConfigured | service/models/session.py:37-56 | a target takes part exactly when it is fixed with a value, or a range with both bounds |
| AlertRules.OffsetIsDistance | service/alerts/evaluator.py:13-22 | an offset converts as the distance of two temperatures, not as a temperature |
| AlertRuns.AlertsInOrder | service/alerts/evaluator.py:136-217 | over every run, between rearms: approaching, reached, exceeded at most once each and in that order; every reminder follows an exceeded event and keeps its interval from all earlier exceeded and reminder events |
| AlertStages.StageComesExactlyWhen | service/alerts/evaluator.py:136-217 | after every run, for any list: a target's turn announces approaching, the high-side warning, reached or exceeded if and only if the reading, compared in the target's own unit, asks for it and neither it nor a later stage is on record since the rearm; it reminds if and only if the reading is above, the interval is positive, and every exceeded or reminder event since the rearm lies that long back |
| AlertStages.TurnsMakeTheLog | service/alerts/evaluator.py:136-217 | the turns of the targets, in order, are the evaluation |
| AlertStages.EvaluationSaysExactlyWhen | service/alerts/evaluator.py:186-211 | for lists that name no probe twice, the same of the whole evaluation against the record before it |
| AlertStages.AskedForIsOnRecord | service/alerts/evaluator.py:186-211 | for any list: a stage the reading asks for, or a later one, is on record for the probe when the evaluation is over |
| AlertStages.NoOtherAlerts | service/alerts/evaluator.py:164-217 | every alert is for a target of the session, with its interval, for the device read, at the time of the evaluation |
| AlertStages.FirstEntryIsRead | service/alerts/evaluator.py:136-144 | a target is held against the first entry of its probe number, if that is plugged in and has a temperature |
| AlertDelivery.CrossingIsAnnounced | service/alerts/evaluator.py:206-211 | after every run, a reading strictly above a target of its probe leaves an exceeded event of that probe number on record for the arming, sent for some device |
| AlertDevices.CrossingAnnouncedExactlyWhen | service/ble/device_worker.py:355-360 | after every run, with any number of devices: a device's crossing of a target is announced for that device if and only if no device's probe of that number was read above the target it was held against since the last rearm |
| AlertDevices.FirstCrossingAnnouncedExactlyWhen | service/ble/device_worker.py:355-360 | a device's first crossing in an arming is announced if and only if no other device's was before it |
| AlertDevices.SentExactlyIfAbove | service/alerts/evaluator.py:206-211 | at every point of every run an exceeded event is on record for the arming if and only if some device's probe of that number was read above the target it was held against |
| AlertDevices.OtherDevicesGoUnheard | service/alerts/evaluator.py:206-211 | once a device's probe crossed, nothing logged before the next rearm is an exceeded event of that probe number, for any device, through any readings and target changes |
| AlertDevices.SecondCrossingIsSilent | service/alerts/evaluator.py:206-211 | so a second device's crossing right after is not announced for it |
| AlertDelivery.ReminderComesWhenDue | service/alerts/evaluator.py:213-217 | while above, an event comes in every evaluation for which the interval has passed since everything heard in that arming |
| AlertDelivery.AlwaysTimed | service/alerts/evaluator.py:206-217 | the reminder clock always shows the time of an event that was heard |
| AlertTargets.ExceededMeansAbovePresentTarget | service/alerts/evaluator.py:82-104 | in every run of concordant lists: whenever a probe is flagged exceeded, a reading since its rearm was above each of its targets as it is now, across all edits of targets, units and modes |
| AlertTargets.DistinctIsConcordant | service/alerts/evaluator.py:46-104 | lists that name no probe twice are concordant |
| TargetCache.StartIsConcordant | service/api/websocket.py:507-515 | so is what the evaluator is given when a session starts with one list for any number of devices |
| AlertSharing.ConcordantExactly | service/alerts/evaluator.py:113-219 | with readings of all devices taken together, a list is concordant if and only if, started afresh after any run of concordant lists, no evaluation of it leaves a flag without a reading above each target it stands for |
| AlertSharing.DiscordIsUnjustified | service/alerts/evaluator.py:113-219 | with any other list, after any run at all, one reading between two targets flags the probe for both |
| AlertTargets.SetTargetsJustified | service/alerts/evaluator.py:46-104 | one change of targets keeps that, for any lists |
| AlertRearms.RearmedExactlyWhen | service/alerts/evaluator.py:46-104 | in any state, for any lists: a probe of the session that has a target starts over if and only if it had no state, or a new target of it is above its last old one or one of the two has no value; otherwise it keeps its flags; a probe without a target is forgotten; other sessions are untouched |
| AlertRearms.KeptExactlyWhenNotRaised | service/alerts/evaluator.py:82-104 | for lists that name no probe twice: flags are kept, and the probe not rearmed, if and only if both targets have a value and the new one is not above the old one |
| AlertRearms.ClearedExactly | service/alerts/evaluator.py:106-111 | the end of a session forgets its targets and probes, and those only |
| AlertSharing.HigherCrossingIsSilent | service/alerts/evaluator.py:206-211 | and nothing logged before the next rearm of the probe, through any readings and target changes, is an exceeded event of it, so the crossing of the higher one is not announced |
| SeqCounter.ProbeRowsNeverDropped | service/ble/device_worker.py:281-353 | in every run with reconnects, deaths, respawns, session changes, restarts and downsampling, a recorded number exceeds every stored number of that device and session, so no probe row is ignored as a duplicate |
| SeqCounter.WriteRecords | service/history/store.py:667-709 | a write stores one row per probe read and the device row under the worker's next number; into a session that is gone it stores nothing |
| SeqCounter.ConnectStartsOver | service/ble/device_worker.py:281-291 | a new connection keeps the worker's number, a respawned worker starts at 0, and neither knows a session yet |
| SeqCounter.SeedingIsExact | service/ble/device_worker.py:281-353 | of the turns after a seeding, whatever each of them reads, none has its device row ignored if and only if no device row is numbered among the numbers they use |
| SeqCounter.DeviceRowsKeptIfSeedsClear | service/ble/device_worker.py:281-353 | in every run whose seedings find no device row above the highest probe row, no device row is ever ignored |
| SeqCounter.ClearExactlyWhenTopped | service/history/store.py:1552-1564 | a seeding is like that exactly when every device row has a probe row numbered at least as high (or none is numbered above 0) |
| SeqCounter.PassIsAMove | service/history/downsampler.py:53-226 | what a completed downsampling pass does to the keys of both tables is one of the moves of these runs |
| SeqCounter.EmptyCycleCostsADeviceRow | service/history/store.py:1552-1564 | from any number on: a cycle without probe readings, then a respawn, and the next device row is ignored |
| DeviceWorker.Poller.Cycle | service/ble/device_worker.py:299-353 | one undisturbed turn: reseeds on a session change, records above all stored numbers, stores every reading of the cycle and keeps every older row |
| DeviceWorker.Poller.Seed | service/ble/device_worker.py:286-291 | the counter covers the session's rows |
| RollingBuffer.ShowsTheWindowExactlyWhen | service/web/static/js/stores/rollingBuffer.js:44-102 | whatever the stamps, what is shown is the whole history since the last reset, cut off a window ago, sorted by time, samples of one time in order of arrival, if and only if no sample of that tail was followed by one stamped more than a window later |
| RollingBuffer.ShowsTheWindow | service/web/static/js/stores/rollingBuffer.js:44-102 | so always with a monotone clock and no sample stamped ahead of it |
| RollingBuffer.OneSortedTail | service/web/static/js/stores/rollingBuffer.js:64-102 | and that determines the sequence |
| RollingBuffer.HistoryIsOfPushes | service/web/static/js/stores/rollingBuffer.js:64-70 | that history grows by one sample for each push of the probe that has a temperature, stamped with its timestamp or the time of arrival, and by nothing else |
| RollingBuffer.HoldsWhatIsLeft | service/web/static/js/stores/rollingBuffer.js:64-89 | at every point of a run the series is sorted and holds, of what is still in the window, exactly what no push hid |
| RollingBuffer.AheadOfTheClock | service/web/static/js/stores/rollingBuffer.js:64-89 | of two samples the first is hidden, though in the window, exactly when the second is stamped more than a window ahead |
| RollingBuffer.Placed | service/web/static/js/stores/rollingBuffer.js:72-87 | appending or binary search puts the sample after every one that is not later |
| RollingBuffer.KeysApart | service/web/static/js/stores/rollingBuffer.js:23-25 | no two (address, probe) pairs share a key |
| RollingBuffer.Buffer.PruneKey | service/web/static/js/stores/rollingBuffer.js:44-54 | drops exactly the leading samples before the cutoff |
| RollingBuffer.Buffer.Add | service/web/static/js/stores/rollingBuffer.js:64-89 | the series after a push, ignored pushes included; series stay sorted |
| RollingBuffer.Buffer.Get | service/web/static/js/stores/rollingBuffer.js:95-102 | the pruned series of the probe |
| RateLimiter.AllowsIffFewRecent | service/api/websocket.py:61-78 | with a monotone clock: a call passes if and only if fewer than `max` granted calls of its key lie less than the window back, over the whole record |
| RateLimiter.NoWindowOverflows | service/api/websocket.py:61-78 | no window of that length, wherever put, holds more than `max` granted calls of a key |
| RateLimiter.SweepingChangesNoAnswer | service/api/websocket.py:80-87 | however often it sweeps, if ever, every answer of every run is the same |
| RateLimiter.KeepsWhatCounts | service/api/websocket.py:61-87 | what is kept and the whole record count the same, now and later |
| RateLimiter.Limiter.Allow | service/api/websocket.py:61-78 | answer and new state as specified |
| RateLimiter.Limiter.Sweep | service/api/websocket.py:80-87 | removes exactly the keys all of whose entries expired |
| Durations.TimerDisplayRoundTrip | service/web/static/js/components/activeSessionView.js:236-306 | for every integer: the display reads back as the same number if it is at least 1, and as nothing otherwise |
| Durations.DurationRoundTrip | service/web/static/js/components/probeTargetConfigSheet.js:103-128 | the same for the probe sheet |
| Durations.ViewsAgree | service/web/static/js/components/activeSessionView.js:284-306 | either view reads what the other shows |
| Durations.TimerDisplayFields | service/web/static/js/components/activeSessionView.js:236-245 | two fields below an hour, three from there; every field after the first is two digits below 60 |
| Durations.HHMMRoundTrip | service/web/static/js/components/startCookFlow.js:104-131 | hours and minutes read back, so n - n mod 60 for positive n and 0 otherwise |
| Durations.HHMMExactly | service/web/static/js/components/startCookFlow.js:112-131 | for every string: no duration when empty; without a colon a non-negative number of hours to the nearest second; with one exactly two numbers, the second below 60 |
| Durations.SheetReadsClocksExactly | service/web/static/js/components/probeTargetConfigSheet.js:103-118 | with a colon the sheet reads exactly two or three parts that begin with non-negative numbers |
| Durations.SheetReadsNumberInFront | service/web/static/js/components/probeTargetConfigSheet.js:103-118 | without a colon it reads the number in front, whatever follows |
| Durations.NothingShowsAsZero | service/web/static/js/components/activeSessionView.js:236-245 | a missing, zero or negative value shows as 00:00 in the timer and as nothing elsewhere |
| Durations.BlanksAround | service/web/static/js/components/activeSessionView.js:284-306 | blanks around a number change nothing, for any of the three parsers |
| Durations.ParsersAgreeExactlyWhen | service/web/static/js/components/probeTargetConfigSheet.js:103-118 | for every string: the timer input and the sheet give one answer if and only if the sheet reads nothing, or the trimmed text is all digits, or it is two or three parts that trim to digits and do not come to zero |
| Durations.OnlyTheSheetReadsSigns | service/web/static/js/components/probeTargetConfigSheet.js:103-118 | a digit string with a sign in front is refused by the timer input and read with its sign by the sheet |
| Durations.ParseDurationInput | service/web/static/js/components/activeSessionView.js:284-306 | the parser with its validation loop, for every string and null |

## Left out

- HistoryStore.Store.StartSession: session names, target durations and the session_devices rows are not modelled; whether a device is part of a session is a parameter of the workers.
- SessionBook.AlwaysSound: every statement of an operation succeeds here; starts that fail at or after their insert are in StartFaults, a commit that fails in another operation is not modelled.
- HistoryStore.Store.RecoverOrphanedSessions: clearing left_at in session_devices is not modelled.
- HistoryStore.Store.DiscardSession: single statements inside the transaction do not fail here; crashes are modelled at commit boundaries in SessionBook.
- HistoryStore.Store.UpdateTargets: the rows a failed update has written count as written; the code leaves them in an uncommitted transaction, which the next commit on the connection makes permanent.
- HistoryStore.Store.RecordReading: reading rows are kept by the columns of their UNIQUE key, without the row ids of the table that downsampling works on; SeqCounter.PassIsAMove relates the two by their keys.
- AlertEvaluator.Evaluator.Evaluate: a probe's alert state is a value in a map, so aliasing of state objects is not captured; the payload fields of events beyond device, probe, kind, time and interval are left out.
- SessionStore.PutIsUpdate: of the reducer, the session and its timers are modelled; status timestamps, notes, readings and alert lists are not, nor are dispatch, subscribe and the socket.
- TimerSystem.AlertsOncePerArming: the completer handles one tick at a time, as its loop does.
- CountdownCompleter.Completer.Tick: a database error in a single completion, which the code logs and skips, is not modelled; a refused completion is.
- TargetFailures.EvaluatorHoldsSavedTargets: requests are served one at a time, and a new session's random id is taken to be unused (HistoryStore.Store.StartSession refuses a used one).
- Durations.TimerDisplayRoundTrip: fractional seconds and integers beyond 2^53 are not modelled; parseFloat is a parameter of the hh:mm parser.
- The text form of instants (ISO formatting, parsing and comparison) and floating-point rounding: instants are exact integers or reals; averages of batteries are rounded half to even as the code does.
- The order of rows that a SELECT leaves open, among equals or without ORDER BY: every order is allowed. Addresses are ordered character by character.
- Failure of ROLLBACK, SQLite's locking and write-ahead log, and schema migrations.
- Bluetooth access, authentication, reconnect back-off, WebSocket framing, JSON validation, authorisation, CORS, CSV export, push notifications and live activities: plumbing around the core.
- Listing queries, names, metadata and notes: simple reads and writes that would only add easy members.
- The installation of the rolling buffer on the store's messages, and all drawing code.
- Simulator curves and the drop-oldest queues.
