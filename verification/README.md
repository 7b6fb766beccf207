# gpuviewer: the flight recorder, modelled and proved

A GPU monitor that keeps a flight recording makes claims about whole stretches of time: "likely
hung for ten minutes", "this minute saw throttling", "nothing was recorded here". This project
models the pipeline that makes those claims and proves, for every run, what they mean, and, where
the code says more than it ensures, exactly when they are true: the event engine that narrates, the
recorder and store that keep the recording, the protocol that opens a database, the arithmetic that
draws a recording back, and the identity that keeps one GPU from being listed twice.

## How it is organised

| files | model |
|---|---|
| `Base.dfy`, `Telemetry.dfy` | shared vocabulary, samples and process lists |
| `Narration.dfy` | one tick of the six event derivations as a relation, and whole runs of ticks |
| `HangProofs.dfy`, `IdleProofs.dfy`, `ThrottleProofs.dfy`, `ProcessProofs.dfy`, `SpilloverProofs.dfy`, `VramProofs.dfy` | what each kind of event says about the run behind it |
| `HangByTicks.dfy`, `IdleByTicks.dfy` | the hang and idle machines told by the ticks alone |
| `HangAnchor.dfy`, `GapHolder.dfy`, `IdleActivity.dfy`, `Scenes.dfy` | what hang and gap texts claim that the code does not ensure: exact conditions and concrete runs |
| `EventEngine.dfy` | the engine and its per-device state as classes, proved to take exactly the steps of `Narration` |
| `Rollups.dfy`, `RowFigures.dfy`, `RecorderSpec.dfy`, `WriteOutcomes.dfy` | the reference "group all frames, then aggregate", what a row's columns say of its frames, what tables must hold for the frames fed in, and write-outcome edges |
| `BatchTraces.dfy` | which batch carried which bucket, which failed, and what that leaves stored |
| `Recorder.dfy` | recorder, accumulators and store as classes with failing writes and prunes, proved faithful to that reference |
| `EventLog.dfy` | de-duplication, migration, windowed reading and export of the event log |
| `OpenProtocol.dfy` | openers of one path interleaved in any way, and `open` itself as a class over that protocol |
| `Timeline.dfy`, `Wave.dfy`, `Viewer.dfy`, `ViewerFigures.dfy`, `ViewerKeys.dfy` | columns, square waves, the app's modes, cursors and windows, the same in milliseconds, and which keys undo which |
| `PciId.dfy` | PCI identity and its printers |

Choices the source leaves open (hash-map order, ties of equally large holders, whether a write
succeeds) are nondeterministic; what the system does for an open is given. Time is an input. The
laws are told in figures (amounts, times, columns) and not through the functions the code shares. Percentages and chart coordinates are
reals; byte counts, times and counters are unbounded naturals.

## Where the code does less than its comments say

- A hang's text says the anchor held the printed amount throughout while its own engine activity
  stayed flat. The amount is that of the first tick, and afterwards the code asks only that some
  process holds 1 GiB quietly and that the anchor is listed. The text can be relied on exactly where
  there is at most one quiet holding, process and amount, to speak of:
  `HangAnchor.EvidenceAlwaysTrueIff`, with `HangAnchor.AnchorMayShrink` and
  `HangAnchor.AnchorMayWake` for the runs that break it. "Flat" is at most 2%, or not reported at
  all, as the source counts it.
- An idle gap's text says its holder held the printed amount for the whole gap; holders are kept by
  pid alone. It can be relied on exactly where no process that can be a holder has a second figure:
  `GapHolder.GapAlwaysTrueIff`, `GapHolder.HolderMayShrink`.
- "30 s of sustained activity" before a gap is interrupted by nothing the engine looked at, but
  ticks whose process list was unreadable are not looked at. It holds on every tick exactly if the
  device reads 50% or more on those: `IdleActivity.ActivityAlwaysUnbrokenIff`,
  `IdleActivity.ActivityMayBreak`.
- One trough can be told both as a hang and as an idle gap, exactly across such a tick:
  `IdleActivity.ToldTwiceIff`, `IdleActivity.ToldTwiceAcrossBlindTick`.
- A flush in the middle of a bucket lets the later row replace the earlier one:
  `RecorderSpec.MidRunFlushConservesIff`, `RecorderModel.FlushMidBucket`.
- Taking write edges lazily can lose a failure count: `WriteOutcomes.LazyLossesCompleteIff`.
- Empty batches succeed without touching the database and still count as successful writes, so
  "writes are succeeding again" can be reported with nothing written:
  `WriteOutcomes.RecoveriesDeliverIff`, `RecorderModel.Recorder.RecordEvents`,
  `RecorderModel.Recorder.Observe`.
- A file moved aside "for manual recovery" is named by the second alone, and a second file moved in
  the same second replaces it: `OpenProtocol.MovedAsideKeptIff`,
  `OpenProtocol.SecondMoveOverwrites`.
- A newer database is refused untouched only if its version can be read once. If both the read-only
  probe and the read-write connection can fail to read it, it can be moved aside as corrupt; either
  one being reliable is enough: `OpenProtocol.NeverMovesNewerIff`,
  `OpenProtocol.UncheckedFailureMovesNewerAside`.
- Timeline columns are documented as real ranges; the code maps whole milliseconds:
  `Timeline.RealRangesAgreeIff`, `Timeline.TierRangesAgreeIff`.
- The newest key across tiers is called always a ten-second key. It is as long as no ten-second write
  fails: `Viewer.AlwaysTenSecIff`, `Viewer.LastWriteLost`.
- The timeline clamp aborts in a live session whose oldest bucket lies in the future:
  `Viewer.App.TimelineRefresh`, `Viewer.LiveWindowFitsIff`, `Viewer.ClockSetBack`.

## Model

| member | source | states |
|---|---|---|
| `EventEngineModel.EventEngine.Observe` | crates/core/src/events.rs:249-296 | one call extends that device's run by exactly this tick and returns its events in order; no other device's run or state changes, so every whole-run theorem applies to every device of an engine |
| `EventEngineModel.EventEngine.TickEntry` | crates/core/src/events.rs:249-296 | the tick of a known device is one step of the relation its run is made of |
| `EventEngineModel.EventEngine.EntryOrDefault` | crates/core/src/events.rs:249-260 | an unknown device starts in the initial state with an empty run; a known one is left as it was |
| `EventEngineModel.DevState.Tick` | crates/core/src/events.rs:261-295 | the six derivations in the order the engine runs them, with the arm for an unreadable process list, are one step |
| `EventEngineModel.DevState.ThrottleEvents` | crates/core/src/events.rs:298-372 | new throttle state and events are the specified ones |
| `EventEngineModel.DevState.ProcessEvents` | crates/core/src/events.rs:374-434 | events enumerate the attached and then the exited processes, once each, in any hash-map order |
| `EventEngineModel.DevState.HangEvents` | crates/core/src/events.rs:545-629 | episode and event are allowed by the hang relation, and a hang that speaks mutes the open gap |
| `EventEngineModel.DevState.IdleGapEvents` | crates/core/src/events.rs:436-533 | gap, activity clock and event are allowed by the idle relation |
| `EventEngineModel.DevState.SpilloverEvents` | crates/core/src/events.rs:642-748 | the windows still assessed and the convictions are the specified sets |
| `EventEngineModel.DevState.VramPressureEvents` | crates/core/src/events.rs:750-837 | trend window and event are allowed by the pressure relation |
| `EventEngineModel.JudgeWindows` | crates/core/src/events.rs:690-748 | every assessed window is kept or closed, and exactly the convicting ones are narrated, once each |
| `EventEngineModel.LargestQuiet` | crates/core/src/events.rs:561-567 | finds a largest quiet holder, if any: one of the ties, whichever the map yields |
| `HangProofs.StillIsQuiet` | crates/core/src/events.rs:561-567 | the processes the engine counts as quiet holders are exactly those that hold 1,073,741,824 bytes or more with their own utilisation at 2% or less or not reported; every law below is told in these figures |
| `Narration.EventSlots` | crates/core/src/events.rs:261-295 | an event of a tick was produced by the derivation its kind names, so the theorems below may speak of the events a tick emits |
| `Telemetry.LastWins` | crates/core/src/events.rs:382-433 | a tick's process map holds, of the entries of one pid, the last |
| `HangProofs.HangSound` | crates/core/src/events.rs:545-629 | every hang narrated at tick k has an opening tick s at least 600 s earlier such that on every tick of s..k the list was read, utilisation was observed at 2% or less, the anchor was listed and some quiet process held 1 GiB; its printed anchor, memory and mean utilisation are those of that span |
| `HangProofs.HangComplete` | crates/core/src/events.rs:545-629 | every such span is narrated, once, at its last tick |
| `HangByTicks.HangExactlyAtTenMinutes` | crates/core/src/events.rs:545-629 | told by the ticks alone: in a flat stretch whose first tick's largest quiet holders stay, a hang is narrated of one of them at the first tick 600 s or more after its beginning and at no other |
| `HangByTicks.SoleHolderHangs` | crates/core/src/events.rs:545-629 | while the list is read, the device is seen at 2% or less and one listed process alone holds 1 GiB or more at 2% or less or unreported, one hang is told, at the first tick 600,000 ms or more after the stretch began and at no other; its mean times the ticks is the sum of the readings |
| `HangByTicks.AnchorLeaves` | crates/core/src/events.rs:571-584 | when its anchor leaves, an episode ends on that tick without a word however flat the tick is, and the next opens on the following one, if that is flat |
| `HangByTicks.OpensByTicks` | crates/core/src/events.rs:545-629 | in every run: under the choice of one largest quiet holder per flat tick that the run made, an episode opens at a tick, anchored to a process, exactly if the tick is flat, the process is the chosen one, and the tick before is not flat or is the one on which the episode before lost its anchor |
| `HangByTicks.HangsByTicks` | crates/core/src/events.rs:545-629 | in every run, ties or none: some choice of one largest quiet holder per flat tick makes episodes open exactly where the ticks say, and a hang is narrated at a tick exactly if such an episode keeps its anchor through ten flat minutes the tick is the first to complete, with that episode's figures |
| `HangByTicks.NoHangUnlessFlat` | crates/core/src/events.rs:545-629 | a tick that is not flat narrates no hang and leaves no episode open |
| `HangProofs.SpansDisjoint` | crates/core/src/events.rs:585-629 | two narrated spans never overlap: an episode speaks at most once |
| `HangProofs.HangsTenMinutesApart` | crates/core/src/events.rs:545-629 | under a clock that does not step back two hangs of a device are at least 600 s apart |
| `HangProofs.EpisodeHistory` | crates/core/src/events.rs:545-629 | at every point of every run an open episode has one opening tick that accounts for all it has accumulated |
| `HangAnchor.EvidenceAlwaysTrueIff` | crates/core/src/events.rs:561-608 | for a set of holdings (process, amount of 1 GiB or more): in every run whose quiet holdings all lie in it, the printed sentence is true of every narrated hang (on every tick of its span the anchor was listed, held the printed amount and was at 2% or less or not reported), if and only if the set has at most one holding; the same whether the amount is read as exactly that or as no less |
| `HangAnchor.SoleHoldingHangIsTrue` | crates/core/src/events.rs:561-608 | with at most one quiet holding ever shown the sentence of a narrated hang is true, amount included |
| `HangAnchor.SoleHolderStaysQuiet` | crates/core/src/events.rs:561-599 | where no process but the anchor ever holds 1 GiB quietly the anchor stays a quiet holder throughout, of whatever amounts |
| `HangAnchor.AnchorMayShrink` | crates/core/src/events.rs:597-608 | for any process and any two amounts a run narrates the larger as held throughout although the process ends with the smaller |
| `HangAnchor.AnchorMayWake` | crates/core/src/events.rs:561-608 | for any two processes a run narrates the larger holder as flat throughout although it worked at 90% in the middle of the only span the hang can stand for |
| `GapHolder.GapAlwaysTrueIff` | crates/core/src/events.rs:452-532 | for a set of figures (process, listed amount or none): in every run that lists only these, the holder of every narrated gap was listed with the printed amount on every tick of it, if and only if no process of 256 MiB or more has a second figure in the set; the same for both readings of the amount |
| `GapHolder.HolderMayShrink` | crates/core/src/events.rs:452-532 | for any process, amount and smaller figure or none, a run narrates the amount as held for the whole gap although the process ends it listed with the other |
| `IdleProofs.OneTroughOneNarration` | crates/core/src/events.rs:452-532 | no hang is narrated anywhere between the opening of a narrated idle gap and its recovery |
| `IdleProofs.AlwaysCoupled` | crates/core/src/events.rs:275-290 | in every reachable state an open hang on an eligible device has an open gap, and a hang that has fired has muted any open gap |
| `IdleProofs.GapSound` | crates/core/src/events.rs:436-533 | every narrated gap opened below 10%, stayed below 50% on every tick until a recovery at 50% or more, lasted 10 s or more, and names a largest holder among those attached from start to recovery |
| `IdleProofs.GapComplete` | crates/core/src/events.rs:436-533 | every such trough somebody stayed attached through, with no hang in it, is narrated exactly once |
| `IdleProofs.RecoveryNarration` | crates/core/src/events.rs:452-532 | what a recovery narrates, in both directions |
| `IdleProofs.GapWasEarned` | crates/core/src/events.rs:436-533 | before a narrated gap utilisation was at 50% or more on every tick, of a stretch of at least 30 s, whose process list was readable, and no other gap was narrated since that stretch began |
| `IdleProofs.GapsFortySecondsApart` | crates/core/src/events.rs:436-533 | under a clock that does not step back two gaps of a device are at least 40 s apart |
| `IdleProofs.GapHistory` | crates/core/src/events.rs:452-490 | an open gap has one opening tick and holds exactly the figures and surviving holders of the ticks since |
| `IdleProofs.EligibilityHistory` | crates/core/src/events.rs:275-290 | eligibility always goes back to a stretch of sustained activity that no narrated gap has used up |
| `IdleByTicks.IdleStateByTicks` | crates/core/src/events.rs:436-533 | told by the ticks alone: a device is eligible exactly when some activity of 30 s by a tick b has not been used up since by a lost reading or by a recovery from a trough begun after b, and a gap is open exactly when the ticks are in a trough the device was entitled to |
| `IdleByTicks.ClockByTicks` | crates/core/src/events.rs:436-533 | the activity clock runs exactly from the first tick of the current stretch at 50% or more, ticks with an unreadable process list skipped |
| `IdleByTicks.GapOpensByTicks` | crates/core/src/events.rs:436-490 | a gap opens exactly on the first tick under 10% of a trough the device is entitled to |
| `IdleByTicks.TroughIsNarrated` | crates/core/src/events.rs:436-533 | every such trough of 10 s or more with no hang in it and a holder attached from beginning to recovery is narrated once, with that trough's figures |
| `IdleByTicks.NarratedIsTrough` | crates/core/src/events.rs:436-533 | nothing else is: every narrated gap is such a trough |
| `IdleActivity.ActivityAlwaysUnbrokenIff` | crates/core/src/events.rs:275-290 | for a set of readings: in every run whose readings on ticks with an unreadable process list all lie in it, the 30 s of activity behind every narrated gap are at 50% or more on every tick, if and only if every reading in the set is 50% or more |
| `IdleActivity.ActivityMayBreak` | crates/core/src/events.rs:275-290 | for any other reading, 0% or none included, a run narrates a gap with no 30 s stretch before it that was at 50% or more on every tick |
| `IdleActivity.ToldTwiceAcrossBlindTick` | crates/core/src/events.rs:275-290 | while utilisation is read and below 50%, a hang and a later gap are both narrated only with a tick of unreadable process list between them |
| `IdleActivity.ToldTwiceIff` | crates/core/src/events.rs:275-290 | with at most n such ticks one trough can be told both as a hang and as an idle gap if and only if n is at least one |
| `IdleActivity.TroughToldTwice` | crates/core/src/events.rs:275-290 | the run: 0% for ten minutes (hang), one unreadable list, 0% again, and busy ten seconds later (gap) |
| `ThrottleProofs.EpisodeClock` | crates/core/src/events.rs:298-372 | the episode clock is set exactly when the previous sample was observed active, to the start of the unbroken active stretch |
| `ThrottleProofs.StartExactlyAtRise` | crates/core/src/events.rs:298-372 | a start is narrated exactly when observed activity rises |
| `ThrottleProofs.EndExactlyAtFall` | crates/core/src/events.rs:298-372 | an end is narrated exactly when an active stretch meets an observed quiet sample, with that stretch's duration; never across an unobservable sample |
| `ThrottleProofs.BracketsMatch` | crates/core/src/events.rs:298-372 | each end has a unique start with no other throttle event between |
| `ProcessProofs.KeepsLastSeen` | crates/core/src/events.rs:374-434 | the state is the last readable process list |
| `ProcessProofs.NarratesTheDifference` | crates/core/src/events.rs:374-434 | a tick narrates exactly the difference between its list and the last readable one; nothing when blind or on the first list |
| `ProcessProofs.PrintsAmounts` | crates/core/src/events.rs:374-434 | an attach prints what the process is listed with now, an exit what it was last listed with |
| `ProcessProofs.AttachExitAlternate` | crates/core/src/events.rs:374-434 | each pid's attaches and exits strictly alternate, and the last observed set is the first one plus attached minus exited |
| `ProcessProofs.BlindTicksErasable` | crates/core/src/events.rs:261-293 | deleting every tick whose list was unreadable leaves the attach/exit log and the final list unchanged |
| `ProcessProofs.DeviceFactsIgnoreProcesses` | crates/core/src/events.rs:261-293 | throttle events, and kind, time and figures of pressure events, are the same for any process arguments |
| `SpilloverProofs.SpilloverSound` | crates/core/src/events.rs:642-748 | every spillover for a pid follows its attach at tick s with no exit since, closes on the first tick 90 s or more after s, and every tick between listed the pid with no utilisation of 30% or more |
| `SpilloverProofs.ConvictionFigures` | crates/core/src/events.rs:705-740 | the engine convicts exactly on these figures: utilisation observed on at least half the ticks with mean below 15%, and at least 3 CPU samples with mean 150% or more |
| `SpilloverProofs.SpilloverComplete` | crates/core/src/events.rs:642-748 | every such window is narrated at its closing tick |
| `SpilloverProofs.OneSpilloverPerAttachment` | crates/core/src/events.rs:384-403 | between two spillovers of one pid lies a new attach of it |
| `SpilloverProofs.WindowHistory` | crates/core/src/events.rs:642-748 | every open assessment is exactly the window since its process loaded |
| `VramProofs.WindowIsTrend` | crates/core/src/events.rs:750-800 | under a clock that does not step back the window is the longest run of newest real readings in which use never falls by more than a twentieth of the memory and nothing is older than 180,000 ms |
| `VramProofs.SlopeFigures` | crates/core/src/events.rs:797-803 | the slope the engine computes times the span in ms is 60,000 times the rise in bytes, and it reaches the bar exactly if the rise times 60,000 is at least 16,777,216 times the span |
| `VramProofs.PressureExactly` | crates/core/src/events.rs:750-837 | an event is narrated if and only if 100 times the used bytes is at least 85 times the total, the trend window spans 60,000 ms or more and its rise times 60,000 is at least 16,777,216 times its span, and 90,000 ms have passed since the last event; it prints that window's figures and names a process of greatest known size |
| `VramProofs.PressureByReadings` | crates/core/src/events.rs:750-837 | under a clock that does not step back the same told by the readings alone: the window that decides and is printed is the longest calm tail of all readings so far, of which there is only one, and no event was narrated in the 90,000 ms before |
| `VramProofs.PressureSound` | crates/core/src/events.rs:750-837 | every event: fill at least 85%, span 60-180 s, slope at least 16,777,216 bytes a minute, its figures those of the longest calm tail of the readings, and at least 90 s after every earlier event |
| `VramProofs.PushKeepsTrend` | crates/core/src/events.rs:760-790 | one more reading keeps the window the longest calm tail |
| `VramProofs.RemembersLastPressure` | crates/core/src/events.rs:800-837 | the cooldown clock is the time of the last narrated event |
| `Rollups.AggMeaning` | crates/history/src/lib.rs:113-137 | an aggregate counts and sums the present readings only, its minimum and maximum are readings bounding all others, and all-absent is None, never zero |
| `Rollups.FoldIsAggregate` | crates/history/src/lib.rs:158-182 | folding frame by frame computes the reference aggregate of the frames, metric by metric and flag by flag |
| `Rollups.AggregateConcat` | crates/history/src/lib.rs:158-213 | aggregating two stretches separately and merging is aggregating both at once |
| `Rollups.FoldProcIsGroups` | crates/history/src/lib.rs:219-268 | folding samples into the per-pid map keeps each pid's last identity, peak memory and means |
| `Rollups.KeyFigures` | crates/history/src/lib.rs:385-421 | the open bucket's key is the last multiple of 10,000 or 60,000 ms that some frame so far reached |
| `RowFigures.ColumnsMean` | crates/history/src/lib.rs:113-213 | column by column a row says what its frames showed: each minimum and maximum is the least or greatest present reading of its metric and absent iff there is none, each average times the number of present readings is their sum, whole-number columns are the floors of these, and each counter is the number of frames whose readable throttle state has that reason |
| `RowFigures.ProcsFigures` | crates/history/src/lib.rs:219-290 | a process bucket has one row per process some frame listed, with the identity it was last seen with, its greatest known memory, and means of its present utilisation and CPU readings |
| `Rollups.CountersOrdered` | crates/history/src/lib.rs:158-182 | every throttle counter is at most the observed count, itself at most the frame count; a counter is zero exactly if no frame raised its flag |
| `Rollups.EveryFrameCountedOnce` | crates/history/src/lib.rs:385-443 | over the buckets of a run, frames going back in time included, each frame is counted exactly once |
| `Rollups.KeysIncrease` | crates/history/src/lib.rs:385-443 | bucket keys open in strictly increasing order, whatever the clock does |
| `Rollups.KeysHaveMembers` | crates/history/src/lib.rs:385-443 | the keys opened are exactly the buckets with frames |
| `Rollups.MinuteOfTenSec` | crates/history/src/lib.rs:385-443 | the open minute is always the open ten-second bucket rounded down |
| `Rollups.TiersAgree` | crates/history/src/lib.rs:385-443 | each minute's aggregate is the exact merge of its six ten-second aggregates |
| `Rollups.ThreeStateReading` | crates/tui/src/ui.rs:353-361 | on a recorded row the reading is exact: throttling iff some frame was observed throttling, clear iff some frame was observed and none was, unknown iff none was observed |
| `WriteOutcomes.LatestEdgeAgrees` | crates/history/src/lib.rs:336-370 | however lazily edges are taken, the newest edge tells whether writes are failing now |
| `WriteOutcomes.EagerEdgesAlternate` | crates/history/src/lib.rs:336-366 | taken after every write, edges alternate starting with a degradation and all failures are the reported losses plus the open streak |
| `WriteOutcomes.FailuresAccountedFor` | crates/history/src/lib.rs:336-366 | every failed write is accounted for once: taken, pending, overwritten before it was taken, or in the open streak |
| `WriteOutcomes.LazyLossesCompleteIff` | crates/history/src/lib.rs:336-366 | taken lazily the reported losses are complete if and only if no failing write follows a streak-ending success without an edge taken between the two |
| `WriteOutcomes.OverwrittenIff` | crates/history/src/lib.rs:336-366 | a reported loss is overwritten exactly under such a schedule |
| `WriteOutcomes.PendingRecoveryIff` | crates/history/src/lib.rs:336-366 | a recovery waits to be taken exactly when a streak-ending success has been followed by no take and no failure |
| `WriteOutcomes.LazyTakingCanLoseACount` | crates/history/src/lib.rs:336-366 | a concrete run of fail, succeed, fail, take loses a count |
| `WriteOutcomes.RecoveriesDeliverIff` | crates/history/src/lib.rs:336-356 | for recorders with given batch sizes: whenever a streak of failures ends, a batch with rows has just been written, if and only if no prune runs and empty batches are never mixed with others |
| `WriteOutcomes.EmptyBatchReportsRecovery` | crates/history/src/store.rs:846-852 | after a failed batch an empty one reports a recovery with nothing written |
| `RecorderSpec.SampleFrameArrives` | crates/history/src/lib.rs:385-455 | whatever the write result, a frame keeps the table equal to the reference rows on top of what it held when recording began, and the row it completes was not written since: replacing can only overwrite what was there before |
| `RecorderSpec.ProcFrameArrives` | crates/history/src/lib.rs:385-460 | the same for the process table, bucket by bucket |
| `RecorderSpec.PruneKeepsSamples` | crates/history/src/store.rs:1072-1092 | pruning removes only rows below its cut and leaves the rest equal to the reference |
| `RecorderSpec.PruneKeepsProcs` | crates/history/src/store.rs:1072-1092 | the same for process rows |
| `RecorderSpec.FlushSealsSamples` | crates/history/src/lib.rs:477-517 | one final flush completes the table: every bucket of every frame, up to failed writes and pruned rows |
| `RecorderSpec.FlushSealsProcs` | crates/history/src/lib.rs:477-517 | the same for the process table |
| `RecorderSpec.SealedRow` | crates/history/src/lib.rs:477-517 | with no failed write and no prune a sealed table holds the reference row of every bucket with frames, which says column by column what those frames showed, and exactly what it held before at every other key |
| `RecorderSpec.SealedCountsEveryFrame` | crates/history/src/lib.rs:477-517 | with no failed write and no prune a sealed table has one row per bucket and its frame counts add up to every frame observed |
| `RecorderSpec.StoredMinuteMergesTenSecs` | crates/history/src/lib.rs:158-213 | in a sealed recording each stored minute is the merge of its stored ten-second rows: frame and throttle counts add, and every minimum and maximum a row keeps (utilisation, memory, power, temperature, fan, clock) is the extreme of theirs |
| `RecorderSpec.NewestBucketStored` | crates/history/src/lib.rs:388-416 | a device's newest bucket is stored in both tiers and no later ten-second row exists |
| `RecorderSpec.MidRunFlushConservesIff` | crates/history/src/lib.rs:474-517 | of the stored rows two flushes leave: every frame from before and after the first flush stays counted, in every bucket of every device, if and only if no bucket has frames from both |
| `RecorderSpec.TwiceFlushedRow` | crates/history/src/store.rs:794-796 | the row two flushes leave counts the later frames of its bucket alone, or the earlier ones if there are no later ones |
| `RecorderSpec.MidRunFlushLosesAFrame` | crates/history/src/store.rs:794-796 | one frame, a flush, another frame of the same bucket and a flush leave a stored row counting one frame |
| `BatchTraces.TraceFrame` | crates/history/src/lib.rs:446-456 | each bucket a frame completes goes into exactly one batch of its table, and the lost buckets stay exactly those of failed batches |
| `BatchTraces.TraceSeal` | crates/history/src/lib.rs:477-517 | a flush's batch carries exactly the open buckets, none of which was carried before, so afterwards every bucket with frames has been carried once |
| `BatchTraces.BatchOf` | crates/history/src/lib.rs:446-517 | a carried bucket has one batch, and is among the lost ones if and only if that batch failed |
| `BatchTraces.SampleFates` | crates/history/src/lib.rs:385-517 | of a flushed recording, under any failures and prunes: a bucket without frames has no row; any other went into one batch, has no row if that failed, has a row saying column by column what its frames showed if it did not and the bucket is within retention, and never any other row |
| `BatchTraces.ProcFates` | crates/history/src/lib.rs:385-517 | the same for the rows of a process bucket, one per process its frames listed, which are stored or missing together |
| `RecorderModel.Recorder.Observe` | crates/history/src/lib.rs:385-465 | any frame, with any write failing and any prune due, keeps both sample tables and the process table faithful to all frames since the last flush on top of what they held then; what is newly lost is exactly what the failed batches carried, which carry only the buckets this frame closes of its own device; since the last flush every completed bucket went into exactly one batch; no row changes, no row within retention goes, no row at all goes unless a prune is due; a closed bucket without a process ends any failing streak whatever its other writes did |
| `RecorderModel.Recorder.Flush` | crates/history/src/lib.rs:477-517 | a flush at any point of a recording leaves the tables holding the reference row of every bucket of every frame since the last one on top of what they held then, except pruned rows and buckets whose own batch failed; its three batches carry exactly the open buckets of each table, every bucket since the last flush has then been carried once, no row is dropped, and the accumulators and the account begin anew |
| `RecorderModel.FlushMidBucket` | crates/history/src/lib.rs:474-517 | the recorder itself, fed a frame, flushed, fed another frame of the same bucket and flushed, with no failed write stores a row counting one frame |
| `RecorderModel.RecordAll` | crates/history/src/lib.rs:385-517 | a recorder on an empty database fed any frames of any devices and flushed once, whatever failed and was pruned: every bucket with frames went into exactly one batch; from the newest time minus retention on it holds the row that says, column by column, what its frames showed, if and only if that batch did not fail, in both tiers and for the processes; an older one holds it or nothing; and nothing else is stored. If nothing failed and no prune ran, both tiers' counts add up to every frame fed |
| `RecorderModel.Recorder.NoteWrite` | crates/history/src/lib.rs:336-356 | streak, state and pending edge follow the specified outcome state |
| `RecorderModel.Recorder.TakeWriteTransition` | crates/history/src/lib.rs:362-366 | hands over the pending edge and clears it |
| `RecorderModel.Recorder.RecordEvents` | crates/history/src/lib.rs:469-472 | the log gains the first rows of new keys or, on a failed write, nothing; keys stay unique; an empty batch ends a failing streak and reports a recovery with the log unchanged |
| `RecorderModel.Recorder.MaybePrune` | crates/history/src/lib.rs:457-464 | every 360th completed ten-second bucket, and at no other time, rows past retention are dropped |
| `RecorderModel.Recorder.WriteSample` | crates/history/src/lib.rs:446-452 | a completed row is written once; if that write fails exactly that key is lost |
| `RecorderModel.Recorder.WriteProcs` | crates/history/src/lib.rs:453-456 | a completed process bucket is written as a whole or lost as a whole; one without a process always counts as a successful write of nothing |
| `RecorderModel.DevRecord.FoldFrame` | crates/history/src/lib.rs:398-443 | one frame keeps the three accumulators equal to the open bucket's frames and hands back exactly the bucket it completes |
| `RecorderModel.AdvanceTier` | crates/history/src/lib.rs:400-421 | closing, resetting and folding one tier yields the open bucket of the longer run and the reference row of the closed one |
| `RecorderModel.FoldProcs` | crates/history/src/lib.rs:436-443 | folding a process slice is grouping all samples seen so far |
| `RecorderModel.ProcessRollups` | crates/history/src/lib.rs:425-431 | the rows of a closed process bucket, in any map order, are its keyed reference rows |
| `RecorderModel.SqliteStore.InsertSampleRollups` | crates/history/src/store.rs:797-842 | insert-or-replace in one transaction: all rows or none, an empty batch succeeds untouched |
| `RecorderModel.SqliteStore.InsertProcessRollups` | crates/history/src/store.rs:846-879 | the same for process rows |
| `RecorderModel.SqliteStore.InsertEvents` | crates/history/src/store.rs:883-907 | insert-or-ignore in one transaction: stored rows stay where they are, every offered row has a stored one equal in time, device, kind and title, and no two stored rows agree in all four |
| `RecorderModel.SqliteStore.MigrateEventDedupe` | crates/history/src/store.rs:669-694 | the migration leaves what re-inserting the old rows into an empty log would: every old narration once, two that differ in time, device, kind or title both, and nothing else |
| `RecorderModel.SqliteStore.Prune` | crates/history/src/store.rs:1072-1092 | ten-second and process rows are kept exactly if their key plus 172,800,000 ms is not before now, minute rows and events exactly if plus 2,592,000,000 ms, each unchanged and events in order; or nothing changes |
| `EventLog.LogHoldsFirstOfEach` | crates/history/src/store.rs:883-907 | the log holds exactly the rows no earlier one agrees with in time, device, kind and title, in insertion order |
| `EventLog.BatchesConverge` | crates/history/src/store.rs:883-907 | however rows are split into batches and however often replayed, the log is the first row of each key of everything offered |
| `EventLog.InsertInColumns` | crates/history/src/store.rs:883-907 | inserting rows into any log keeps its rows as a prefix, represents every offered row by a stored one equal in time, device, kind and title, and appends only offered rows that agree with no stored one in all four |
| `EventLog.BatchesTellEachOnce` | crates/history/src/store.rs:883-907 | after any batches the log holds each offered narration once: no two rows agree in time, device, kind and title, two offered rows that differ in any of them are both represented, and every row was offered |
| `EventLog.ReplayIsNoOp` | crates/history/src/store.rs:883-907 | offering rows whose keys are already held changes nothing |
| `EventLog.MigrationIsReinsertion` | crates/history/src/store.rs:669-694 | deleting all but the smallest id of each key equals re-inserting all rows into an empty log |
| `EventLog.MigratedTellsEachOnce` | crates/history/src/store.rs:669-694 | the same of the migration and the rows it found |
| `EventLog.MigrationIdempotent` | crates/history/src/store.rs:669-694 | migrating twice is migrating once |
| `EventLog.ByTimeIsStableSort` | crates/history/src/store.rs:938-975 | windowed reading is sorted by time and keeps insertion order within one instant |
| `EventLog.ReadsBack` | crates/history/src/store.rs:938-975 | reading a window gives back each row inside it whose kind, severity and confidence are among those the engine writes, as often as it is stored, and no other |
| `EventLog.DedupeThenWindow` | crates/history/src/store.rs:1180-1192 | de-duplication commutes with windowing |
| `EventLog.DedupeThenSort` | crates/history/src/store.rs:1180-1192 | de-duplication commutes with reading order |
| `EventLog.ExportEqualsMigrateThenRead` | crates/history/src/store.rs:1127-1201 | exporting an unmigrated log and reading the export back equals migrating first and reading the window |
| `OpenProtocol.OneWriter` | crates/history/src/store.rs:385-420 | in every interleaving of openers opening, stopping and crashing, at most one is past the lock |
| `OpenProtocol.RefusalTouchesNothing` | crates/history/src/store.rs:378-390 | an opener that ends refused as Locked or SchemaTooNew changed nothing at the path and moved nothing aside in any step it took |
| `OpenProtocol.RefusalsAreEarned` | crates/history/src/store.rs:378-390 | in every history an opener is refused as SchemaTooNew only by a file newer than its build, and as Locked only by another's lock |
| `OpenProtocol.VersionNeverLowered` | crates/history/src/store.rs:490-513 | as long as nothing is moved aside a readable file stays readable and its version never decreases, whatever builds open it |
| `OpenProtocol.MovedAsideKeptIff` | crates/history/src/store.rs:613-627 | beside a path with nothing moved aside yet, every file these openers move there lies unchanged in all their histories if and only if no two of them can move one in the same wall-clock second |
| `OpenProtocol.SecondMoveOverwrites` | crates/history/src/store.rs:613-627 | two openers with one second: the second one's move replaces the file the first moved aside |
| `OpenProtocol.MovedAsideOnlyOnFailure` | crates/history/src/store.rs:396-416 | a file is moved aside only by an opener that failed on it, under its own second; once its version was read it is not newer than the opener's build |
| `OpenProtocol.NeverMovesNewerIff` | crates/history/src/store.rs:378-400 | no history moves a newer database aside if and only if one of the two guards, the read-only probe or the read-write connection, can always read its version |
| `OpenProtocol.UncheckedFailureMovesNewerAside` | crates/history/src/store.rs:559-576 | the history, for every newer file, in which neither could |
| `OpenProtocol.SourcesNeverMix` | crates/history/src/store.rs:745-769 | in every file that ever stood at the path, moved aside or not, every recorded row has the source the file is stamped with |
| `OpenProtocol.HandleAppends` | crates/history/src/store.rs:797-907 | in every history a live handle can append a row of its source, so those laws speak of files with rows |
| `OpenProtocol.StoppingFreesTheLock` | crates/history/src/store.rs:515-553 | an opener that stops, by any way, frees the lock |
| `OpenProtocol.AlwaysInv` | crates/history/src/store.rs:369-431 | the invariant behind these: the lock is held exactly by the opener past it, the file fits every opener's phase, the unguarded have touched nothing |
| `OpenProtocol.HistoryPath.Open` | crates/history/src/store.rs:369-417 | every outcome of `open`, with any failure of the system, is a continuation of the protocol by this opener alone and leaves the path as specified for that outcome; when everything works and the lock is free, a sound file of this or an older schema or none is opened, a newer one refused, and a damaged or unreadable one started over |
| `OpenProtocol.HistoryPath.OpenLocked` | crates/history/src/store.rs:391-417 | guard, init, integrity check and recovery in order: what each success or failure leaves at the path and beside it |
| `OpenProtocol.HistoryPath.InitOrRecover` | crates/history/src/store.rs:395-417 | the same from the read-write open on; a sound file is not moved aside when everything works |
| `OpenProtocol.HistoryPath.OpenRecording` | crates/history/src/store.rs:424-431 | success means lock, version and stamp are this recording's own and existing rows survive; a mismatch writes no row and no source stamp, only the version; when everything works a sound file of the same source, or of none, is opened without a reset |
| `OpenProtocol.HistoryPath.AcquireInstanceLock` | crates/history/src/store.rs:525-553 | the lock is taken only if free; a refusal changes nothing |
| `OpenProtocol.HistoryPath.CheckSchemaNotNewer` | crates/history/src/store.rs:559-589 | refuses only a readable newer file and never changes it |
| `OpenProtocol.HistoryPath.TryOpenInit` | crates/history/src/store.rs:490-513 | the version is checked again on the read-write connection before anything is stamped |
| `OpenProtocol.HistoryPath.QuickCheckOk` | crates/history/src/store.rs:598-605 | a file that was just created passes, an older one only if sound; a sound one passes whenever the check can be answered |
| `OpenProtocol.HistoryPath.Quarantine` | crates/history/src/store.rs:613-627 | the file is moved aside intact under the second in its name, replacing whatever had that name, or stays |
| `OpenProtocol.HistoryPath.StartFresh` | crates/history/src/store.rs:402-416 | recovery moves the failed file aside and starts on an empty one |
| `OpenProtocol.HistoryPath.ClaimDataSource` | crates/history/src/store.rs:745-769 | an unstamped file is claimed, a matching one accepted, another one refused unchanged |
| `Timeline.TimelineColumns` | crates/tui/src/ui.rs:546-575 | every column is the fold of the buckets reaching it; an empty window leaves all blank |
| `Timeline.ColumnShowsPeak` | crates/tui/src/ui.rs:546-575 | column c is the peak of exactly the present buckets holding a millisecond whose floor-mapped column is c, blank iff there is none |
| `Timeline.ContiguousPaintsAll` | crates/tui/src/ui.rs:538-545 | unbroken recording over the window paints every column |
| `Timeline.CoveredStretchPainted` | crates/tui/src/ui.rs:538-545 | an unbroken stretch paints every column from its first to its last |
| `Timeline.HoleStaysBlank` | crates/tui/src/ui.rs:538-545 | a column owning no recorded instant is blank |
| `Timeline.RecordedInstantPainted` | crates/tui/src/ui.rs:577-582 | an event at a recorded instant lands in a painted column, at least as high as its bucket, at any width |
| `Timeline.EventColumn` | crates/tui/src/ui.rs:577-582 | an event's column is the one whose share of the span it lies in, the first before the window and the last from its end on |
| `Timeline.FoldingExactIff` | crates/tui/src/ui.rs:561-572 | a bucket reaches exactly the columns owning one of its milliseconds, for all buckets, if and only if there is at most one column more than milliseconds (or a single millisecond) |
| `Timeline.PaintedOverlaps` | crates/tui/src/ui.rs:529-537 | the code never paints a column outside the documented real range |
| `Timeline.RealRangesAgreeIff` | crates/tui/src/ui.rs:529-537 | code and documented real-valued ranges agree on every slice, wherever it begins and ends, if and only if columns are whole milliseconds wide |
| `Timeline.TierRangesAgreeIff` | crates/tui/src/ui.rs:529-537 | on the slices a tier produces (ending on multiples of its width or at the window's end) they agree if and only if no column begins strictly inside the last millisecond before a bucket boundary |
| `Timeline.CutColumnDiffers` | crates/tui/src/ui.rs:529-537 | otherwise the slice ending in the millisecond column 1 begins inside overlaps that column and is not painted there |
| `Wave.StepSegments` | crates/tui/src/ui.rs:373-395 | the loop produces the outline of every run |
| `Wave.Densify` | crates/tui/src/ui.rs:413-428 | the nested loop computes the solid points and terminates |
| `Wave.WaveSegments` | crates/tui/src/ui.rs:407-432 | both styles have one segment per run, over the same outline |
| `Wave.RunsAreTheSplit` | crates/tui/src/ui.rs:373-395 | the runs cut the samples into consecutive pieces bridged at 15 s or less inside and broken by more than 15 s between |
| `Wave.SplitIsUnique` | crates/tui/src/ui.rs:363-366 | there is no other such cut: samples share a segment iff every step between them is 15 s or less |
| `Wave.OutlineHolds` | crates/tui/src/ui.rs:368-372 | corner 2i is sample i and corner 2i+1 ends its hold at the next sample (or after the trail): holds are level and steps vertical |
| `Wave.SegmentsApartIff` | crates/tui/src/ui.rs:368-372 | for increasing samples segments always stay strictly apart if and only if the trail is at most 15 s |
| `Wave.CornersKept` | crates/tui/src/ui.rs:400-406 | every outline corner is a solid point |
| `Wave.SolidIsFaithful` | crates/tui/src/ui.rs:400-406 | every solid point shows some sample's value at a moment that value is held, so never inside a gap |
| `Wave.SolidShowsNoPhantomBlank` | crates/tui/src/ui.rs:400-406 | every moment of every hold has a solid point of its value at most 2 s before it |
| `Wave.SolidSegmentsApart` | crates/tui/src/ui.rs:400-406 | the solid style leaves the same gaps |
| `Viewer.App.EventLoop` | crates/tui/src/app.rs:302-337 | over any passes of clocks, widths, keys and collector ticks: a session pinned to a file never shows the live mode and never aborts, each replay draw is the current window and each timeline draw a window that reaches the end of what was recorded with the cursor inside; in a live session every timeline draw is the window over all recorded by then, of some zoom, ending at a moment since which the collector has not ticked, with the cursor inside |
| `Viewer.App.BeforeDraw` | crates/tui/src/app.rs:302-308 | following the collector, rebuilding if it ticked, and keeping the selection on the list |
| `Viewer.App.AfterDraw` | crates/tui/src/app.rs:319-336 | a key keeps what the next draw relies on |
| `Viewer.App.HandleKey` | crates/tui/src/app.rs:343-349 | the next mode and the quit keys exactly; the viewer invariant is kept and no key aborts a viewer |
| `Viewer.App.HandleKeyLive` | crates/tui/src/app.rs:351-385 | each live key's mode, device, selection and pause; a replay or timeline it enters shows a current window, and only `t` can abort, with the oldest bucket ahead of the clock |
| `Viewer.App.HandleKeyReplay` | crates/tui/src/app.rs:387-437 | each replay key's mode, cursor and device; leaving is inert in a viewer and the window stays the one around the cursor |
| `Viewer.App.ReplayKey` | crates/tui/src/app.rs:401-434 | scrubs by 10 s or 5 min stop at the recorded ends, ends jump there, Enter re-anchors at the selected event, and no other key moves the cursor |
| `Viewer.App.HandleKeyTimeline` | crates/tui/src/app.rs:442-481 | each timeline key's mode, cursor, zoom and device; Enter drills into replay at the cursor |
| `Viewer.App.TimelineKey` | crates/tui/src/app.rs:460-477 | steps of one or ten columns and jumps to the edges, nothing else moves the cursor |
| `Viewer.App.TimelineRefresh` | crates/tui/src/app.rs:562-603 | rebuilds exactly the window of the zoom with the cursor clamped into it; aborts if and only if a live session's oldest bucket, aligned, is in the future |
| `Viewer.App.TimelineTick` | crates/tui/src/app.rs:612-626 | a live window follows the clock once the collector has ticked and a cursor on its newest edge rides it; a file's window never moves |
| `Viewer.App.TimelineStep` | crates/tui/src/app.rs:640-651 | moves the cursor by whole columns, clamped to the window |
| `Viewer.StepMoves` | crates/tui/src/app.rs:640-651 | a step keeps the cursor in the window and moves it at least one millisecond in its direction unless it is at that edge |
| `Viewer.App.TimelineRezoom` | crates/tui/src/app.rs:630-636 | one rung at a time within the ladder, keeping the cursor where the new window has it |
| `Viewer.App.EnterReplay` | crates/tui/src/app.rs:489-510 | anchors at the event, else the newest bucket, else now; a recorded event entered at is the one selected in the window's list, and another selects nothing |
| `Viewer.App.EnterTimeline` | crates/tui/src/app.rs:515-524 | carries the replay cursor over, clamped |
| `Viewer.App.Scrub` | crates/tui/src/app.rs:690-701 | the cursor stays within what is recorded |
| `Viewer.LiveWindowFitsIff` | crates/tui/src/app.rs:593-593 | the clamp's bounds are in order if and only if the aligned oldest bucket is not after now |
| `Viewer.ClockSetBack` | crates/tui/src/app.rs:593-593 | a concrete recording and clock for which they are not |
| `Viewer.ViewerWindowCovers` | crates/tui/src/app.rs:562-603 | a file's window is in order and ends at or after the newest key plus 10 s and the newest event |
| `Viewer.QueryFindsOverlapping` | crates/tui/src/app.rs:572-577 | what a window lists for a device is exactly the stored buckets of its tier some millisecond of which lies in the window, ends included |
| `Viewer.BetweenHolds` | crates/history/src/store.rs:912-930 | the query lists exactly the device's keys between its two bounds, both included |
| `Viewer.EventsInside` | crates/history/src/store.rs:938-942 | a window lists exactly the recorded events between its bounds, both included, in their order and as often as recorded |
| `Viewer.ListedAround` | crates/tui/src/app.rs:656-680 | an event is on the list of the replay window around it exactly if it is recorded |
| `ViewerFigures.TimelineFigures` | crates/tui/src/app.rs:30-78 | the overview at each of the seven zooms: 3,600,000 to 604,800,000 ms back from now, or from a file's end (the newest bucket plus 10,000 ms or the newest event), begun no earlier than the oldest bucket and rounded down to 10,000 ms at the first zoom and 60,000 at the others; it lists exactly each device's keys of that tier and the events between its bounds |
| `ViewerFigures.ReplayFigures` | crates/tui/src/app.rs:653-680 | replay lists exactly each device's ten-second keys and the events from 300,000 ms before the cursor to 300,000 ms after it |
| `ViewerFigures.ReplayMoves` | crates/tui/src/app.rs:401-434 | arrows move the replay cursor 10,000 ms and pages 300,000, as far as the oldest and the newest bucket, where Home and End lead |
| `ViewerFigures.TimelineMoves` | crates/tui/src/app.rs:640-651 | arrows move the overview's cursor by one column and pages by ten, as far as the window's edges, where Home and End lead; a column is the span shared out in whole milliseconds, at least one |
| `Viewer.FinalBucketShownIff` | crates/tui/src/app.rs:706-732 | the final bucket overlaps a file's window if and only if no event lies a whole zoom span or more past its end |
| `Viewer.FinalBucketPainted` | crates/tui/src/app.rs:706-732 | and the strip drawn from the rows the window lists for a device that has that bucket then paints a column for it, at any width of at least one column |
| `Viewer.SealedLatestBucket` | crates/tui/src/app.rs:706-719 | in a sealed recording in which the newest ten-second bucket was written and not pruned, for one of the devices that have it, the newest key of both tiers is that bucket's and its ten-second row is stored, whatever else was lost or pruned |
| `Viewer.NewestOutlivesPrunes` | crates/history/src/store.rs:1072-1092 | a prune looks back from an observed time by more than a bucket, so the newest ten-second bucket is never pruned |
| `Viewer.AlwaysTenSecIff` | crates/tui/src/app.rs:711-719 | the newest key is a ten-second key in every sealed recording, however its prunes cut it, if and only if no ten-second write can fail; minute writes may |
| `Viewer.LastWriteLost` | crates/tui/src/app.rs:711-719 | one frame and a final flush whose ten-second batch fails and whose minute batch does not leave a newest key with no ten-second row |
| `ViewerKeys.ScrubUndoneIff` | crates/tui/src/app.rs:690-701 | a scrub is undone by its opposite if and only if it was not cut short by the end of the recording or began at the other end |
| `ViewerKeys.CycleUndone` | crates/tui/src/app.rs:351-385 | Tab and BackTab undo each other on any list of devices |
| `ViewerKeys.FullCircle` | crates/tui/src/app.rs:351-385 | tabbing comes back to a device after exactly as many tabs as there are devices |
| `ViewerKeys.NeverLiveBehindAFile` | crates/tui/src/app.rs:387-481 | behind a recording no keys ever lead to the live view |
| `ViewerKeys.TwiceIff` | crates/tui/src/app.rs:351-481 | `t` twice comes back except from a live session's replay; `r` twice always does |
| `ViewerKeys.LettersMeanKeys` | crates/tui/src/app.rs:334-342 | each letter moves a cursor as the key it stands for |
| `PciId.NormalizesToCanonical` | crates/core/src/model.rs:194-209 | an accepted id becomes the canonical spelling of the hex values it denotes |
| `PciId.AcceptedIsWellFormed` | crates/core/src/model.rs:194-209 | only domain:bus:dev.func of 1-8, 1-2, 1-2 and 1 hex digits is accepted |
| `PciId.MergedIffSameAddress` | crates/core/src/model.rs:179-193 | two accepted ids normalise equally if and only if their (domain, bus, device, function) values are equal |
| `PciId.Idempotent` | crates/core/src/model.rs:194-209 | normalising twice is normalising once |
| `PciId.PrintedIsFixedPoint` | crates/core/src/wddm.rs:788-793 | every printed bus address is already canonical |
| `PciId.PrintedInjective` | crates/core/src/wddm.rs:788-793 | different bus addresses are printed differently |
| `PciId.MergedWithPrintedIff` | crates/core/src/wddm.rs:779-787 | an id is merged with a printed address if and only if it denotes that address in domain 0 |
| `PciId.SyntheticNeverAccepted` | crates/core/src/wddm.rs:795-802 | no synthetic id is ever accepted |
| `PciId.SyntheticInjective` | crates/core/src/wddm.rs:795-802 | two adapters share a synthetic id only if vendor, device and ordinal all agree |
| `PciId.ForeignPrefixRefused` | crates/core/src/model.rs:186-189 | an id whose part before the first colon is not 1-8 hex digits is refused |

## Left out

- HangProofs.HangSound: does not say that the anchor itself kept its amount or stayed quiet, because the code does not ask it (`HangAnchor.EvidenceAlwaysTrueIff`).
- Viewer.App.EventLoop: a collector tick between reading the tick counter and querying the rows is taken to happen before or after both.
- VramProofs.WindowIsTrend: assumes timestamps that do not step back; with a clock that does, the window may hold readings out of order.
- Names, titles, severities and wording of events, short device names and `register_device`: an event is its kind, times, pids and figures.
- f32/f64 rounding, NaN, and u64 overflow of products and saturating additions: arithmetic is exact.
- SQL text, pragmas, WAL, real locks, renames and sidecar files: tables are maps and sequences, a transaction is all or nothing, the lock is a value.
- Damage to a file between steps and writers that take no lock: files at the path change only by the protocol's own steps.
- `copy_window` for meta, devices, samples and processes: only its event part is modelled; the others are plain windowed copies.
- The v2 to v3 column migration, `devices`, `processes_at`, and the in-memory rings of recent samples and events.
- `SampleAccum`, `Agg`, `ProcAccum` and `ProcBucket` are values held in fields that the recorder's methods reassign; updating their own fields in place is not modelled.
- Query errors in the app: an opened recording answers every query; a query that fails shows as empty in the source.
- `collector.rs`: which calls reach the engine and the recorder, and in what order, is the environment.
- Rendering, colours, layout, the cells of the event lane and the chart axes.
- The backends (sysfs, NVML, PDH, DXGI, Metal, process files) and their decoders.
- The report, argument parsing, packaging, the mock simulator and clock formatting.
