# Homelab Dashboard: verified model

This project models the stateful core of Homelab Dashboard in Dafny and proves what that core is for. Two components
carry the weight.

**The alert engine and the alerts table** (`Alert*.dfy`). An alert is tracked per (rule, target) in memory and stored as a
row in SQLite. `AlertModel` gives both as one value, with a visit of one key as a function and an evaluation as a fold of
visits in any order; `AlertEngine` and `AlertStore` are the classes with the mutable map of tracks, the loops and the
table, proved equal to that function. A run is any sequence of evaluations, failing store calls, acknowledgements,
deliveries, pruning by `Rollup`, and crashes, each followed by `Restore`. What others do, and a crash, may also fall
between a store write and the memory update that should follow it. On these runs the project proves that memory and table
agree (`AlertSafety`, and `AlertUnrestored` for a `Restore` that fails), that every key follows one four-phase timed
automaton (`AlertAutomaton`), when exactly that automaton opens and closes an alert (`AlertTiming`), that the threshold
rules do not flap (`AlertRules`, `AlertHysteresis`, `AlertFlapping`), what the other rules' alerts say of the snapshots
before them (`AlertFaults`), what rows and messages say (`AlertContents`, `AlertMessages`), what becomes of every notification (`Mailbox`, `AlertDelivery`, `AlertLosses`), and that a
browser replaying the published messages over a snapshot ends with the firing alerts (`AlertReplay`, `Dashboard`, `Bus`).

**The watermark rollup** (`Rollup*.dfy`, `SampleStore.dfy`, `Series*.dfy`). Raw samples are aggregated incrementally into
5-minute rows and deleted. The 5-minute tables are proved to be what aggregating every sample ever inserted would give,
over any run of transactions of which some fail, and to have exactly the rows that retention should leave
(`RollupRetention`); the chart queries are proved to say what the samples ever taken say (`SeriesMeaning`), and the exact
condition is proved under which they keep to the number of points asked for.

The smaller parts each have a result of their own: the stats worker pool (`StatsPool`, `StatsAnswers`), the parallel registry check
(`RegistryCheck`, `ImageDigests`), the image references (`Reference`), the bearer challenge (`Challenge`, section 11.2 of
RFC 9110 and section 3 of RFC 6750), the login limiter (`RateModel`, `RateLimiter`), the Docker log stream (`LogStream`)
and the drives in standby (`DiskStore`, `DiskMerge`, `Disks`).

`dafny verify dfyconfig.toml` checks everything. A `hide` statement in a proof keeps function bodies it does not need away
from the solver.

## Conventions

- A clock reading is an `int` of nanoseconds passed in; `Unix` is whole seconds, rounded down. Outcomes of the store, the
  network and the notifier are parameters (`ok`, `failAt`, `sent`, `remote`); a failed call changes nothing.
- Percentages and averages are `real`. Message texts are an uninterpreted `say`.
- Goroutines are transition systems whose steps interleave in any order.
- Loops over Go maps take any order: a set of keys still to visit, from which one is picked.

## What the proofs found out about the code

- The second debounce guard of `Evaluate` (engine.go:179-181) never suppresses anything: between evaluations
  `lastTransition` is set only while an alert is held (`AlertAutomaton.LastTransitionMarksAlerts`), so a rule without hold
  time fires again at the very next evaluation after it resolved (`AlertTiming.RefireNeedsOnlyTheHold`).
- The provider does not keep messages that arrive before the overview is loaded, so some may be lost. A browser that
  lost some converges exactly when none of them is the resolve of an alert it shows or has heard of, and every firing
  among them is shown already or resolved later (`AlertReplay.LossMattersExactlyWhen`); `AlertReplay.LateLoadHidesAnAlert`
  is the smallest run in which an alert stays hidden.
- `bucketSeconds` rounds the width down, so the store's query can return more points than its caller asked for:
  `SeriesBudget.BudgetCanBeMissed` is a call answered with 428 points for 400, and `SeriesBudget.RawBudgetExactly` and
  `SeriesBudget.RolledBudgetExactly` say for which spans that cannot happen. The five ranges the API accepts are among
  those: no container chart of this program has more than one point over the 400 (`SeriesBudget.ChartsKeepBudget`).
- An image named under `registry-1.docker.io/` or `docker.io/index.docker.io/` has two keys
  (`Reference.TagAndDigestShareAKey`): its local digest is filed under another repository key than the check asks for.
- The user documentation calls the CPU, memory and disk rules "above" their limit; the code fires at or above it, and the
  model follows the code.
- It also says each rule notifies once on firing and once on resolve. What holds in every run is that the
  consumer gets each notification at most once, firing first (`AlertDelivery.ToldAtMostOnce`). It gets or will find each
  one if and only if every enqueue call had a notifier and met fewer than 256 waiting notifications, and no crash met a
  waiting one or came between a store write and its enqueue call (`AlertDelivery.ToldInFullExactlyWhen`); even then it
  gives up a notification after six failed sends (`AlertEngine.Engine.Deliver`). Both kinds of loss happen: `AlertLosses.CrashLosesANotification`,
  `AlertLosses.FullQueueDropsOne`.
- When `Restore` fails, main.go logs it and evaluates all the same. Memory and table then agree if and only if no alert was
  firing (`AlertUnrestored.SafeExactlyWhen`); otherwise a rule and target can get a second firing row
  (`AlertUnrestored.FailedRestoreDoubles`).

## Model

| member | source | states |
|---|---|---|
| AlertKeys.SplitKey | internal/alerts/engine.go:281-288 | the loop returns the parts before and after the first bar |
| AlertKeys.RuleComesBack | internal/alerts/engine.go:277-288 | the rule read back from a key is the rule that went in exactly when the rule has no bar, whatever the target |
| AlertKeys.KeysAreDistinct | internal/alerts/engine.go:277-279 | two (rule, target) pairs without a bar in the rule share a key only if they are equal |
| AlertStore.Store.OpenAlert | internal/store/records.go:391-398 | a new firing row under a never used id, or nothing at all |
| AlertStore.Store.ResolveAlert | internal/store/records.go:400-403 | the row, if it is firing, becomes resolved at that time; every other row stays |
| AlertStore.Store.AckAlert | internal/store/records.go:410-417 | the first acknowledgement of an existing row is recorded and reported, later ones are not |
| AlertStore.Store.MarkAlertNotified | internal/store/records.go:405-408 | the row, if it is still there, gets the time |
| AlertStore.Store.FiringAlerts | internal/store/records.go:419-422 | the firing rows, each once, and no other |
| AlertEngine.Engine.Restore | internal/alerts/engine.go:73-86 | one track for every key with a firing row, restored from such a row; where no key has two, which Safety proves of every table left behind, exactly the modelled restart |
| AlertEngine.Engine.FireTrack | internal/alerts/engine.go:204-222 | table, memory, message and queue all change as one firing, others' changes to table and queue in between included, or nothing does when the store refuses |
| AlertEngine.Engine.ResolveTrack | internal/alerts/engine.go:224-237 | the row is resolved and the track goes, with one message and one notification, whatever others do in between, or nothing changes |
| AlertEngine.Engine.LookActive | internal/alerts/engine.go:160-183 | the first loop's body on the shared track objects is the value-level visit of that key |
| AlertEngine.Engine.LookQuiet | internal/alerts/engine.go:185-201 | the second loop's body is the value-level visit of a key no longer active |
| AlertEngine.Engine.RaisedConditions | internal/alerts/rules.go:15-179 | the loops raise exactly the conditions of the snapshot, with limits lowered for what fires now |
| AlertEngine.Engine.Evaluate | internal/alerts/engine.go:150-202 | both map loops, in whatever order, are one possible evaluation of the model: every active or tracked key visited exactly once |
| AlertEngine.Engine.Enqueue | internal/alerts/engine.go:139-148 | the notification is queued if a notifier exists and fewer than 256 wait, otherwise dropped |
| AlertEngine.Engine.Deliver | internal/alerts/engine.go:103-127 | one to six sends, each after a failed one, stopping at success, cancellation or the sixth; the row is marked exactly on a delivered alert |
| AlertEngine.Engine.RunTurn | internal/alerts/engine.go:88-101 | the oldest notification is delivered or given up before the next is looked at, and its row is marked exactly when it was a delivered alert and the store accepts |
| AlertSafety.Safety | internal/alerts/engine.go:73-237 | every state reachable by evaluations, store failures, crashes, restarts, pruning, acknowledgements, marks and deliveries satisfies the invariant; all but evaluations and restarts may also fall inside a visit, between its store write and the rest |
| AlertSafety.FiringRowsAreTheAlertTracks | internal/alerts/engine.go:150-237 | at most one firing row per rule and target, and the tracks with an alert id are exactly the firing rows |
| AlertSafety.NotifiedAtMostOnce | internal/alerts/engine.go:204-237 | over a row's life at most one firing and at most one resolved enqueue call, firing first; the queue never exceeds 256 |
| AlertSafety.VisitKeepsInv | internal/alerts/engine.go:160-201 | a visit of any key keeps memory and table in agreement, whether or not the store accepts |
| AlertSafety.SideKeepsInv | internal/store/rollup.go:124 | pruning resolved rows, acknowledging, marking and taking from the queue keep it too |
| AlertSafety.RestartKeepsInv | internal/alerts/engine.go:73-86 | Restore re-establishes it from the table alone |
| AlertSafety.HalfIsDurable | internal/alerts/engine.go:204-237 | a crash after the store write, before or after the message, leaves a table Restore can start from |
| AlertContents.TurnStores | internal/alerts/engine.go:204-237 | a visit that opens an alert stores and publishes the condition's rule, target, name, severity and message under the next id and the second; one that closes it resolves the row at the second and publishes the key's rule and the track's words |
| AlertContents.RowsTellTheRun | internal/alerts/engine.go:204-212 | over any run every row says, field by field, what the active condition of its rule and target said in some evaluation of the run, fired at that evaluation's second, and, if resolved, resolved at the second of an evaluation that lacked the condition |
| AlertMessages.RunTracksTell | internal/alerts/engine.go:73-86 | over any run a track with an alert holds the words its condition had when the process last saw it active, those of its row if it has not since the restart |
| AlertMessages.MessagesTellTheRun | internal/alerts/engine.go:204-237 | over any run every firing message says what an active condition and its row say, and every resolved one the key's rule, those latest words and the second, of an alert that was firing and whose condition was missing |
| AlertMessages.NoteSaysTheMessage | internal/alerts/engine.go:218-236 | the notification of a visit has the state, severity, rule, name and message of its message, and the alert's id when it fires |
| AlertUnrestored.SafeExactlyWhen | cmd/dashboard/main.go:150-154 | over any run in which some restarts fail to restore, every state satisfies the invariant if and only if each of those restarts found no alert firing |
| AlertUnrestored.ForgottenIsSafeExactlyWhen | cmd/dashboard/main.go:150-154 | on a table fit to be restored, starting without tracks agrees with it exactly when no row is firing |
| AlertUnrestored.FiresAgain | internal/alerts/engine.go:160-183 | an active key whose firing row has no track gets a second firing row |
| AlertUnrestored.FailedRestoreDoubles | cmd/dashboard/main.go:150-154 | a run of two evaluations with a failed restore between them ends with two firing rows of one rule and target |
| AlertDelivery.BooksAreRight | internal/alerts/engine.go:88-148 | over any run the books of enqueue calls, takes and crashes have the engine's queue and posts, every notification tells of its row's transition, and the transitions are exactly those of the table |
| AlertDelivery.ToldAtMostOnce | internal/alerts/engine.go:88-148 | what the consumer has taken and what waits tells each transition at most once, firing first, in order; each transition has exactly one fate: taken, waiting, dropped, lost with the queue, or cut off before its enqueue call |
| AlertDelivery.ToldInFullExactlyWhen | internal/alerts/engine.go:139-148 | all transitions are taken or wait if and only if every enqueue call had a notifier and room and every crash met an empty queue and cut off none |
| AlertDelivery.CrashFreeRunsTell | internal/alerts/engine.go:88-148 | without a crash every transition is posted, and what is taken and waits is the posts in order less the dropped: all of them exactly when none met a full queue or a missing notifier |
| AlertLosses.CrashLosesANotification | internal/alerts/engine.go:73-86 | an alert opened just before a crash fires on after it, with its notification lost |
| AlertLosses.FullQueueDropsOne | internal/alerts/engine.go:143-147 | 257 alerts opened before the consumer takes any leave 256 notifications, without a crash |
| Mailbox.EachChangeHasOneFate | internal/alerts/engine.go:139-148 | the five fates together are the transitions, as a multiset |
| Mailbox.ToldExactlyWhen | internal/alerts/engine.go:139-148 | of any list of enqueue calls, takes, crashes and cuts: nothing is missing if and only if no move was harmful |
| AlertAutomaton.VisitRefinesStep | internal/alerts/engine.go:160-201 | a visit moves its key's phase (idle, pending, alerting, clearing) by one automaton step |
| AlertAutomaton.EvaluateRefinesStep | internal/alerts/engine.go:150-202 | the two loops, in any order, are one automaton step of every key |
| AlertAutomaton.CrashRefinesStep | internal/alerts/engine.go:73-86 | a crash anywhere in an evaluation and the restart are, for each key, a step followed by a reset that keeps only firing or not |
| AlertAutomaton.RunRefinesKeyRun | internal/alerts/engine.go:150-237 | over any run the phase of every key is that of its own automaton on its own events |
| AlertAutomaton.FiringRowIsFiringPhase | internal/alerts/engine.go:204-237 | a key has a firing row exactly when its phase is alerting or clearing |
| AlertAutomaton.LastTransitionMarksAlerts | internal/alerts/engine.go:179-181 | between evaluations lastTransition is set exactly on the tracks that hold an alert |
| AlertTiming.PhaseFromHistory | internal/alerts/engine.go:160-201 | the phase is a function of how long the condition has been seen or missed without interruption |
| AlertTiming.OpensExactlyWhenHeld | internal/alerts/engine.go:173-182 | an evaluation opens an alert if and only if the condition was there at every evaluation for the hold time and the store accepts |
| AlertTiming.ClosesExactlyWhenMissing | internal/alerts/engine.go:185-200 | an evaluation closes it if and only if the condition was missing at every evaluation for the debounce and the store accepts |
| AlertTiming.RowChangesAreEarned | internal/alerts/engine.go:150-237 | over every run a row of a key appears only after such a hold and goes only after such an absence |
| AlertTiming.OpeningsAreSpaced | internal/alerts/engine.go:173-200 | two openings of a key are at least debounce plus hold time apart, less twice the largest step back of the clock readings: nothing if they never step back |
| AlertTiming.RowOpeningsAreSpaced | internal/alerts/engine.go:73-202 | the same for rows in the table, restarts included; a reading is taken before the lock, so readings can step back by the wait for it even under a monotone clock |
| AlertTiming.RefireNeedsOnlyTheHold | internal/alerts/engine.go:173-182 | right after a resolve only the hold time gates the next opening |
| AlertHysteresis.NoFlapping | internal/alerts/rules.go:10-13 | while readings stay in [limit - band, limit) an alert neither opens nor closes |
| AlertHysteresis.ReopeningNeedsRecovery | internal/alerts/engine.go:166-200 | between two openings the readings left the band downwards for the debounce, then reached the limit for the sustained time |
| AlertRules.ConditionsNameRules | internal/alerts/rules.go:15-179 | every condition names one of the known rules, none with a bar in it |
| AlertRules.LastConditionStays | internal/alerts/engine.go:155-158 | of several conditions of one rule and target the last one is active |
| AlertRules.MetricKeyActive | internal/alerts/rules.go:42-143 | a metric's key is active exactly when one of its readings reaches its limit, less 3 degrees or 5 points while it fires, and the condition then has the rule, target, severity, hold time and message of that metric and a name of its source |
| AlertRules.CpuShareMeans | internal/alerts/rules.go:42-57 | the CPU reading is a share of the container's limit, of the host's CPUs without one, and the plain number without either |
| AlertRules.PercentMeans | internal/alerts/rules.go:52-110 | a percentage times the whole is a hundred times the part |
| AlertFaults.FaultKeyActive | internal/alerts/rules.go:19-176 | the key of each of the seven other rules is active exactly when the snapshot shows its fault, spelled out in the snapshot's fields (for a container down: by state, restart policy, exit code and times), whatever fires already; the condition then has that rule's severity, hold time and message and the name of what is at fault |
| AlertFaults.FaultRowIsEarned | internal/alerts/engine.go:150-237 | over any run the row of such a key appears only after every evaluation of its hold time showed the fault, and goes only after none of the debounce did |
| AlertFaults.DownTurnsOnce | internal/alerts/rules.go:181-200 | with its container unchanged, time turns container_down on only for a restarting container and off only for another |
| AlertFlapping.RulesFollowThresholds | internal/alerts/rules.go:42-143 | run through the engine, each of the six metrics follows the threshold scheme with its own limit, band and hold time |
| AlertFlapping.MetricAlertDoesNotFlap | internal/alerts/rules.go:10-13 | readings inside the band change nothing in the table, over any run |
| AlertFlapping.MetricAlertRecoversBeforeReopening | internal/alerts/rules.go:42-143 | a metric alert opened twice recovered below the band for the debounce and then held the limit |
| AlertReplay.RunIsExplained | internal/alerts/engine.go:209-236 | within a process the published alert messages, replayed, turn the firing rows of any state into those of any later one |
| AlertReplay.BrowserConverges | web/src/store/DashboardProvider.tsx:63-72 | a snapshot read at any moment of a process, also inside a visit, and all messages from any point of the process at or before it on give the firing alerts at the end |
| AlertReplay.ReducerConverges | web/src/store/DashboardProvider.tsx:23-76 | the reducer's list then holds exactly the firing ids, each once |
| AlertReplay.LogIsOrderly | internal/alerts/engine.go:209-236 | within a process each alert has at most a firing and then a resolved message, and no firing one if it fired before |
| AlertReplay.LossMattersExactlyWhen | web/src/store/DashboardProvider.tsx:63-72 | with a snapshot read at any moment and any of a process's messages lost, the browser converges if and only if no lost resolve is of an alert it shows or has heard of, and every lost firing is of an alert it shows or is resolved later |
| AlertReplay.LateLoadHidesAnAlert | web/src/store/DashboardProvider.tsx:23-34 | an engine run whose one firing message comes before an overview read earlier leaves the reducer without the alert |
| Dashboard.ReplayConverges | web/src/store/DashboardProvider.tsx:63-72 | replaying messages the snapshot already shows does no harm |
| Dashboard.ReplayAcrossGap | web/src/store/DashboardProvider.tsx:63-72 | a snapshot replayed with a gap converges if and only if the lost messages are harmless |
| Dashboard.LossOnALog | web/src/store/DashboardProvider.tsx:63-72 | the same for any list with at most a firing and then a resolved message an alert, a snapshot at any of its messages and any of them lost |
| Dashboard.ListFollowsReplay | web/src/store/DashboardProvider.tsx:36-76 | the list's ids are the loaded ones with the alert messages replayed, other messages mixed in at will, none twice |
| Dashboard.EntryFollowsItsMessages | web/src/store/DashboardProvider.tsx:23-76 | the entry of each alert, contents and acknowledgement, follows its own messages and no other's |
| Dashboard.MessageReorders | web/src/store/DashboardProvider.tsx:36-76 | a message takes its alert out of the list wherever it stands and puts a firing one first; the others keep their order |
| Bus.Hub.PublishAll | internal/collector/bus.go:37-47 | each subscriber's channel takes the message or drops it by its own fullness |
| Bus.DeliveredInOrder | internal/collector/bus.go:37-47 | what a subscriber has read and buffered is what was published, in order, less the drops; gap-free exactly when nothing was dropped |
| RollupModel.BoundarySplitsNoBucket | internal/store/rollup.go:41-52 | a boundary that is a multiple of 300 puts a row on the same side as its bucket |
| RollupHistory.AggregationIsExact | internal/store/rollup.go:43-52 | aggregating the raw rows of a window gives what aggregating all samples ever inserted gives for its buckets |
| RollupHistory.PruningStaysBelowWatermark | internal/store/rollup.go:89-92 | no raw row at or above the new watermark is pruned |
| RollupHistory.InsertKeepsInv | internal/store/samples.go:43-90 | an insert at or above the watermark leaves the 5-minute table the batch result |
| RollupHistory.RollKeepsInv | internal/store/rollup.go:27-110 | so does a rollup at any time, also with the clock stepped back |
| RollupHistory.IncrementalIsBatch | internal/store/rollup.go:27-110 | after any run of inserts and rollups every 5-minute row below the watermark that retention kept is the aggregate of all samples ever inserted in its bucket, and no such row is missing |
| RollupHistory.LateInsertIsNeverCounted | internal/store/rollup.go:41-52 | whatever runs afterwards, a sample inserted or replaced below the watermark changes no 5-minute row |
| RollupRetention.RowsOfARun | internal/store/rollup.go:41-110 | after any run the 5-minute table has exactly the rows of the five minutes in which something was sampled, that had ended at some rollup and were older than (now - retention) / second at none |
| RollupRetention.RawRowsOfARun | internal/store/rollup.go:89-100 | and the raw table exactly the samples that no rollup found more than a day old |
| RollupRetention.StoreKeepsRows | internal/store/rollup.go:41-110 | both for the store's container tables, over any run of transactions of which some fail |
| RollupRetention.AlertsOfARollup | internal/store/rollup.go:102-124 | a rollup deletes an alert exactly when it is resolved and was so before (now - retention) / second; the others stay as they are |
| RollupRetention.PutReplaces | internal/store/samples.go:69-90 | after a replacing insert the new row is the only one of its series and second, and every other row is still there |
| RollupSchedule.EarlierRollIsAbsorbed | internal/store/rollup.go:27-110 | rolling up at t1 and then at t2 leaves what rolling up at t2 alone leaves; a repeat changes nothing |
| RollupSchedule.OnlyTheLastRollMatters | internal/store/rollup.go:27-110 | any schedule with a clock that never steps back ends like its last rollup alone |
| SampleStore.Store.InsertSamples | internal/store/samples.go:43-67 | all the samples are stored, or none if any statement or the commit fails, and the caller is told which |
| SampleStore.Store.InsertHostSample | internal/store/samples.go:69-90 | the host row and its mounts replace those of the same second together, or nothing changes if any statement or the commit fails, and the caller is told which |
| SampleStore.Store.Rollup | internal/store/rollup.go:27-135 | the transaction over three tables and the alerts is the modelled rollup, with the limit and the counts of rows written and raw rows deleted, or changes nothing |
| SampleStore.OneContainerSample | internal/store/rollup.go:44-52 | a bucket with one sample holds that sample, every column in its place |
| SampleStore.OneHostSample | internal/store/rollup.go:58-66 | the same for the host table |
| SampleStore.OneMountSample | internal/store/rollup.go:72-75 | the same for the mount table |
| SampleStore.AvgJoins | internal/store/rollup.go:48-50 | the average of two groups together is theirs weighted by their sizes |
| SampleStore.MostJoins | internal/store/rollup.go:48-50 | the maximum of two groups together is the larger of theirs |
| SampleStore.ContainerGroupsJoin | internal/store/rollup.go:44-52 | two groups of samples aggregated as one, column by column: which columns are averages weighted by the groups' sizes, which are the larger maximum, and the count adds up |
| SampleStore.HostGroupsJoin | internal/store/rollup.go:58-66 | the same for the host table |
| SampleStore.MountGroupsJoin | internal/store/rollup.go:72-75 | the same for the mount table |
| SampleStore.RollupKeepsRecords | internal/store/rollup.go:43-110 | one transaction keeps all three 5-minute tables the batch results of their histories |
| SampleStore.InsertsKeepRecords | internal/store/samples.go:43-90 | so does each insert transaction at or above the watermark |
| SampleStore.StoreRunIsBatch | internal/store/rollup.go:27-135 | over any run of insert and rollup transactions, whichever fail, the three 5-minute tables are the batch results of exactly the committed ones, under one watermark |
| Series.SeriesAgreesWithHistory | internal/store/samples.go:142-174 | whichever table answers, every point has its average at most its maximum, and the raw answer is that of the whole history |
| Series.RawSeriesIsComplete | internal/store/samples.go:142-150 | whenever the raw table is chosen no row of its window has ever been pruned |
| Series.RawPointsAreOrdered | internal/store/samples.go:148-150 | every raw point has its average at most its maximum |
| Series.RolledPointsAreOrdered | internal/store/samples.go:152-155 | so has every point averaged from 5-minute averages and maxima |
| Series.PeakSurvivesRollup | internal/store/samples.go:152-155 | a level is reached by some CPUMax point exactly when some sample ever taken in the covered buckets reached it |
| SeriesMeaning.RawSeriesMeans | internal/store/samples.go:142-150 | asked for a window of the last 24 hours, a slot has a point exactly when the container itself was ever sampled there; its average times the number of those samples is their sum, and its maximum is their largest, for CPU and memory |
| SeriesMeaning.RolledSeriesMeans | internal/store/samples.go:151-156 | for an older window a slot has a point exactly when the container has a 5-minute row there; it averages their averages and has the largest of their maxima |
| SeriesMeaning.RowMeans | internal/store/rollup.go:43-52 | and such a row has the average and maximum of all samples the container ever had in its five minutes |
| SeriesMeaning.OthersChangeNothing | internal/store/samples.go:148-155 | tables that differ in other containers' samples and rows only give the same series |
| SeriesBudget.SeriesKeepsBudget | internal/store/samples.go:130-174 | whatever the tables hold, a window whose seconds fit into maxPoints slots and one second gets at most maxPoints + 1 points |
| SeriesBudget.WholeWindowKeepsBudget | internal/store/samples.go:130-174 | a window of a whole number of seconds, starting at any nanosecond, does if maxPoints divides it or the minimum width applies |
| SeriesBudget.ShortWindowKeepsBudget | internal/store/samples.go:130-174 | so does any window, to the nanosecond, that maxPoints slots of the minimum width cover |
| SeriesBudget.ChartsKeepBudget | internal/api/server.go:160-175 | each of the five ranges a container chart accepts does, at any moment |
| SeriesBudget.RawBudgetExactly | internal/store/samples.go:142-150 | from the raw table every start and every content keep that bound if and only if the span is at most maxPoints slots and one second |
| SeriesBudget.RolledBudgetExactly | internal/store/samples.go:151-156 | from the 5-minute table they do if and only if the first and last bucket a window of the span can hold are at most maxPoints slots apart |
| SeriesBudget.BudgetCanBeMissed | internal/store/samples.go:142-174 | 6399 seconds of a sample every five, asked for in 400 points, come as 428, from any last second of a quarter minute on |
| SeriesBudget.WidthIsTight | internal/store/samples.go:130-140 | above the minimum, maxPoints slots of the chosen width fit the window and of one second more do not |
| SeriesBudget.PointsFitSpan | internal/store/samples.go:145-155 | the points are no more than the slots of the window, on both paths |
| SeriesBudget.EverySecondReaches | internal/store/samples.go:148-150 | with a sample a second they are exactly that many |
| SeriesBudget.SlotBudget | internal/store/samples.go:130-140 | windows of that span have at most n + 1 slots wherever they start exactly when n slots and a second cover it |
| SeriesBudget.HistoryIsOnGrid | internal/store/rollup.go:47 | every row rolled up stands at a multiple of 300, as RolledBudgetExactly takes for granted |
| StatsPool.CycleTerminates | internal/collector/stats.go:41-65 | every interleaving of dispatcher, workers and cancellation is bounded, and one that has not closed its results can move without waiting for a cancellation |
| StatsPool.SendersNeverBlock | internal/collector/stats.go:42 | the results buffer has room whenever a worker wants to send, and is not closed |
| StatsPool.EachIdAnsweredOnce | internal/collector/stats.go:45-65 | in the end results and skipped ids together are the ids, each exactly once; without cancellation nothing is skipped |
| StatsPool.NeverAnsweredTwice | internal/collector/stats.go:45-55 | at no moment has an id more results than listings |
| StatsAnswers.AnswersAreReplies | internal/collector/stats.go:45-55 | at every moment the results and the answers workers still hold are, as a multiset, what Docker replied, each under the id its worker was handed last |
| StatsAnswers.ResultsAreReplies | internal/collector/stats.go:41-65 | when the results are closed they alone are |
| StatsAnswers.AtMostConfiguredCalls | internal/collector/stats.go:44-55 | at no moment are more Docker calls under way than configured, or than there are ids |
| RegistryCheck.AtMostFourLookups | internal/registry/checker.go:60-74 | in every reachable state at most four lookups are under way, and a waiting one may begin exactly when fewer are |
| RegistryCheck.CheckTerminates | internal/registry/checker.go:57-78 | every interleaving is bounded, and an unfinished one can move without a cancellation |
| RegistryCheck.EverySlotIsFilled | internal/registry/checker.go:62-77 | slot i ends with a result for images[i]: its lookup's, or "cancelled" only if the context was |
| RegistryCheck.ResultsAreLookups | internal/registry/checker.go:62-77 | exactly one step of the run fills slot i, and the slot ends with what that step found: the answer to what the registry then said of image i, or that it was cancelled |
| ImageDigests.IndexLocalDigests | internal/registry/checker.go:80-104 | the three nested loops file every digest under every key the images give it, in order |
| ImageDigests.CheckOne | internal/registry/checker.go:106-137 | tag candidates first, then repository ones, then the first the registry still has |
| ImageDigests.LocalDigestIsFound | internal/registry/checker.go:112-119 | an image started from name:tag is not called undigested when a local image carries name@digest, misnamed ones aside |
| ImageDigests.UpdateExactlyWhen | internal/registry/checker.go:125-136 | an update is announced exactly when the registry has none of the candidates |
| ImageDigests.UpToDateIsRecognised | internal/registry/checker.go:92-136 | a local image of the same normal form with a digest still served rules an update out |
| ImageDigests.AnswerOfACheck | internal/registry/checker.go:106-137 | the answer, field by field, in terms of the candidates and the manifest: an error without candidates or registry, an update exactly when neither the manifest's digest nor a child's is a candidate, otherwise the first candidate that is |
| ImageDigests.EntriesAreLocal | internal/registry/checker.go:80-104 | every digest in the index is one of a local image, under its own normal name or under a tag of that image |
| Reference.Parse | internal/registry/reference.go:22-62 | the statements, rebinding name and tag step by step, compute the parse |
| Reference.ShortName | internal/registry/reference.go:43-51 | a name without a slash is a Hub library image |
| Reference.HostedName | internal/registry/reference.go:43-57 | host/rest is on that host if it looks like one, on Hub under its whole name if not, with Hub's aliases resolved and the library namespace added where rest has none |
| Reference.NoTagIsLatest | internal/registry/reference.go:23-40 | leaving the tag out is the same as writing "latest" |
| Reference.PinnedDigest | internal/registry/reference.go:27-30 | a digest after a tag changes nothing |
| Reference.DigestOnlyIsRefused | internal/registry/reference.go:27-60 | a digest without a tag is refused |
| Reference.RefusedExactlyWhen | internal/registry/reference.go:18-61 | a string is refused exactly when it is empty, is 12 to 64 hexadecimal digits with or without sha256:, has a colon before its digest or end, or has a digest and no tag in its last component |
| Reference.NormalFormIsStable | internal/registry/reference.go:22-62 | for every accepted string, printing registry, repository and tag and parsing again gives the same three |
| Reference.CutsAtTheTag | internal/registry/reference.go:27-40 | name:tag is cut at that colon whatever colons and slashes the name has |
| Reference.TagAndDigestShareAKey | internal/registry/reference.go:76-94 | RepoKey of name:tag is the repository of name@digest if and only if the name is not one of the two misnamed forms |
| Challenge.SplitChallenge | internal/registry/checker.go:358-378 | the loop computes the split |
| Challenge.ParseChallenge | internal/registry/checker.go:341-356 | the loop computes the map of the split, nothing without the scheme |
| Challenge.JoinUndoesSplit | internal/registry/checker.go:358-378 | joining the parts with commas restores every string, but for one unquoted comma at its end |
| Challenge.PartsAreWhole | internal/registry/checker.go:366-371 | every comma in a part is inside that part's own quotes |
| Challenge.ParsePrints | internal/registry/checker.go:341-378 | printing parameters, quoted or not, with any white space and any spelling of the scheme, and parsing gives the same map |
| RateLimiter.FilterInPlace | internal/auth/session.go:236-241 | filtering over the shared backing array keeps exactly the times after the cutoff, in order |
| RateLimiter.Limiter.Allow | internal/auth/session.go:231-255 | answer and new memory are the model's: times filtered, the grant appended, stale keys collected past 10000 |
| RateModel.ForgettingChangesNothing | internal/auth/session.go:231-255 | with a non-decreasing clock every request is answered as if every grant ever made were remembered |
| RateModel.GrantedExactlyWhen | internal/auth/session.go:242-246 | a request is granted if and only if the limit-th latest grant is missing or at least a window old |
| RateModel.GrantsAreSpaced | internal/auth/session.go:235-246 | any limit + 1 consecutive grants of a key span at least the window |
| RateModel.RefusalsLeaveNoTrace | internal/auth/session.go:242-245 | taking a refused attempt out of the past changes no later answer |
| RateModel.CollectingForgetsNothing | internal/auth/session.go:247-253 | dropping a stale key loses no time a later window can reach |
| RateModel.ManyKeysAreCollected | internal/auth/session.go:247-253 | a granted request with more than 10000 keys in memory leaves only keys whose latest time is not before the window |
| LogStream.ParseMultiplexedLogs | internal/docker/client.go:225-255 | the reading loop computes the stream's meaning, lines and error |
| LogStream.ParseUndoesEncode | internal/docker/client_test.go:9-15 | the stream of any frames up to 4 MiB gives exactly their lines, in order, without an error |
| LogStream.FramesThen | internal/docker/client.go:229-253 | whole frames give their lines whatever follows, and what follows is parsed by itself |
| LogStream.TruncatedStream | internal/docker/client.go:230-247 | cut anywhere, the lines are those of the frames wholly before the cut, with an error exactly when the cut is between a header's end and its payload's end or the connection broke |
| LogStream.WholeIsMaximal | internal/docker/client.go:229-253 | those frames are the longest prefix that fits |
| LogStream.OversizedFrameStops | internal/docker/client.go:240-243 | a size over 4 MiB ends the parse with that error after the lines before it |
| LogStream.TrimmingDropsNoLine | internal/docker/client.go:248-251 | trimming the payload's final newlines never changes its lines |
| LogStream.WrittenLinesAreRead | internal/docker/client.go:248-253 | a payload written line by line gives those lines, tagged with the frame's stream |
| DiskStore.DiskTable.UpsertDisks | internal/store/records.go:279-325 | all the records are merged and all the temperatures kept, or nothing changes |
| DiskStore.RowsRemember | internal/store/records.go:292-311 | a device has a row exactly when it was ever reported: measurements of its last awake record, the first if never awake, and its last known identification |
| DiskStore.BatchExtendsHistory | internal/store/records.go:286-324 | a committed batch is its records, one after the other, at one time |
| DiskStore.TempsOfABatch | internal/store/records.go:317-322 | a batch keeps the last temperature above 0 an awake drive reported in it, and every other one it finds |
| DiskMerge.MergeStandby | internal/collector/hostcycle.go:207-243 | every sleeping drive with a row is overwritten in place by it, every other entry stays |
| DiskMerge.CollectSmart | internal/collector/hostcycle.go:177-200 | a cycle stores what it parsed and shows it merged, whichever store call fails |
| DiskMerge.RecordReadsBack | internal/collector/hostcycle.go:189-240 | recording a drive and reading it back gives the same drive, asleep, less a verdict smartctl did not give |
| DiskMerge.RecordHolds | internal/collector/hostcycle.go:183-196 | a record has every field of the drive under its own name, and of smartctl's verdict one of three words |
| DiskMerge.SleepingDriveShowsLastReading | internal/collector/hostcycle.go:207-243 | a drive asleep is shown with its last awake measurements and is Healthy exactly when that reading was |
| DiskMerge.CycleExtendsHistory | internal/collector/hostcycle.go:189-199 | the rows a cycle merges from include the ones it has just stored |

## Left out

- AlertSafety.Safety: every restart of its runs restores, which main.go does not insist on; AlertUnrestored says exactly what
  that hypothesis is worth. The timing and replay results are over the same runs.
- AlertStore.Store.FiringAlerts: the order of the rows is not modelled.
- AlertReplay.BrowserConverges: within one process and without dropped messages; after a restart the browser loads again.
- RollupHistory.IncrementalIsBatch: inserts are at or above the watermark and the retention is at least one bucket, which
  configuration guarantees; `LateInsertIsNeverCounted` shows why the first is needed.
- Series.PeakSurvivesRollup: averages and byte columns are reals, so truncation to integers and rounding of floats are not
  modelled; memory limit, network and block columns of a point are left out.
- SeriesBudget.PointsFitSpan: HostSeries, MountSeries, DiskTemps and the sparkline query, which have the same shape, are not
  modelled separately.
- SampleStore.Store.Rollup: pruning of disk temperatures, events, log lines and vanished containers, and with them the
  result's other counts of pruned rows.
- Challenge.ParsePrints: strings are sequences of Unicode characters; bytes that are not valid UTF-8 are not modelled.
- LogStream.ParseMultiplexedLogs: a line is its raw bytes; splitting off an RFC 3339 timestamp is not modelled.
- DiskMerge.CollectSmart: fetching and decoding smartctl's output, and the final sort by device.
- RateLimiter.Limiter.Allow: the mutex (calls are one at a time) and the growth policy of Go slices beyond "in place while
  there is room".
- Bus.Hub.PublishAll: unbuffered subscriptions, which no caller makes.
- StatsPool.CycleTerminates: a Docker call and a registry lookup return eventually, as their timeouts enforce; what the
  cycle does with the results afterwards is not modelled.
- Integer widths: row ids, sizes, counters and times are unbounded integers; only the log frame's 32-bit size is exact.
- SQLite and its SQL text, HTTP clients, Telegram, cookies, CSRF, password hashing, configuration, React components and the
  WebSocket: input, output or plumbing around the parts above.
