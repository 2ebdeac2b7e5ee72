# WorkoutApp motion data, reassembly and workout state in Dafny

WorkoutApp records accelerometer and gyroscope samples on a watch during a
workout, cuts them into batches, saves the batches with the workout, and
reassembles them for display on the phone. This project models that data
path and proves properties of the model:

- `WorkoutMotionData` (module `WorkoutInfoModel`, file `workout_info_model.dfy`):
  - the two snapshot streams and the two integer capture rates;
  - the session span (`getStartAndEndTime`);
  - the count-based batcher `batchByDataRate`, an imperative loop proved
    against a specification function `Batches`;
  - `getNumberOfBatches` and `calculateCombinedBatchDuration`.
- The history detail view (module `DataDetailView`, file `data_detail_view.dfy`):
  - the `workoutData` filter on the workout's id;
  - `consolidateData`, a method of a class holding the view's two
    consolidated streams;
  - `calculateDuration`;
  - a reassembly theorem: consolidating the saved batches of a
    `batchByDataRate` split gives back the recorded accelerometer stream,
    whatever order they are stored in and whatever other workouts' batches
    sit beside them.
- The workout state machine (module `WorkoutStateModel`, file
  `workout_state.dfy`): the five-case `WorkoutState` enum with its raw
  values, and `WorkoutStateManager.transitionTo`.
- Swift's integer and conversion semantics (module `SwiftNumeric`, file
  `swift_numeric.dfy`):
  - `/` and `%` truncate toward zero;
  - `Int(Double)` truncates toward zero.

  Dafny's own `/` and `%` are Euclidean, so these are written out.

Behaviour the model keeps exactly as the code has it:

- **The gyroscope cursor restarts in every batch.**
  - The gyroscope sample is read at the batch's own counter, and that counter
    is reset at every flush.
  - So every batch holds a prefix of the whole gyroscope stream: the first
    min(|batch accelerometer|, gyroscope quota, |gyroscope stream|) samples.
  - Gyroscope samples past the longest such prefix never reach any batch.
- **The divisor is truncated before the division.** The gyroscope quota is
  `target / Int(1 + ratio)`, not the floor of `target / (1 + ratio)`.
- **What the batch count counts.** `getNumberOfBatches` counts the batches of
  `batchByDataRate`.
- **Trap conditions become a precondition.** A gyroscope rate of 0 (which
  converts an infinity or a NaN) or a truncated divisor of 0 (integer
  division by zero) makes the Swift code trap. The model takes the absence
  of both as the precondition `CanBatch`. It does not invent an error value.

How `batchByDataRate` is specified:

- **The plan.** Its result is described by a `BatchPlan`:
  - the flush size is max(accelerometer quota, gyroscope quota, 1) when the
    gyroscope stream can reach its quota;
  - otherwise the flush size is one more than the number of accelerometer
    samples, so no batch is ever flushed inside the loop;
  - the gyroscope take is max(gyroscope quota, 0).
- **The split.** `Split` cuts the accelerometer stream into runs of the flush
  size. Each run gets the gyroscope prefix described above.
- **The proof.** The method's loop invariant is the predicate `Walked`:
  - the flushed samples form whole runs;
  - they have already been emitted as batches;
  - the open batch holds the rest.

  The lemmas `TakeSample`, `FlushBatch` and `FinishWalk` carry it through
  one step of the loop, a flush and the final flush.

## Model

| member | source | states |
|---|---|---|
| SwiftNumeric.TruncDivRoundsTowardZero | WorkoutApp/Views/HistoryTab/DataDetailView.swift:134 | Swift's `/` rounds toward zero: the quotient's magnitude is the largest q with q·\|d\| <= \|x\|, and a non-zero quotient is negative exactly when the operands' signs differ |
| SwiftNumeric.TruncDiv | WorkoutApp/Views/HistoryTab/DataDetailView.swift:134 | Swift's truncating `/`; its contract is carried by `TruncDivRoundsTowardZero` and `DivModIdentity` |
| SwiftNumeric.TruncMod | WorkoutApp/Views/HistoryTab/DataDetailView.swift:135 | Swift's `%` takes the dividend's sign: in 0..\|d\|-1 for a non-negative dividend, in -(\|d\|-1)..0 for a negative one |
| SwiftNumeric.DivModIdentity | WorkoutApp/Views/HistoryTab/DataDetailView.swift:134-135 | d · (x / d) + x % d == x for the truncating pair |
| SwiftNumeric.AgreesWithEuclid | WorkoutApp/Views/HistoryTab/DataDetailView.swift:134-135 | for a non-negative dividend and a positive divisor Swift's `/` and `%` agree with Euclidean division |
| SwiftNumeric.NegativeDividendDiffers | WorkoutApp/Views/HistoryTab/DataDetailView.swift:134-135 | they differ on negative dividends: -1 / 60 is 0 remainder -1 in Swift, -1 remainder 59 in Euclidean division |
| SwiftNumeric.TruncReal | SharedFiles/WorkoutInfoModel.swift:77 | `Int(Double)` truncates toward zero: the result lies within one of the real, on the side of zero |
| WorkoutInfoModel.AllTimestamps | SharedFiles/WorkoutInfoModel.swift:51 | the pool of the accelerometer timestamps followed by the gyroscope timestamps; what is proved about it is in `GetStartAndEndTime` and `SpanCoversEverySample` |
| WorkoutInfoModel.Sort | SharedFiles/WorkoutInfoModel.swift:51 | the pooled timestamps are sorted: the result is ascending and a permutation of its input |
| WorkoutInfoModel.SortedEnds | SharedFiles/WorkoutInfoModel.swift:51-53 | the first and last of an ascending permutation are members of the pool and bound every pooled value |
| WorkoutInfoModel.GetStartAndEndTime | SharedFiles/WorkoutInfoModel.swift:49-61 | no start and no end exactly when both streams are empty; a start exactly when an end; both are timestamps of the streams, and every timestamp lies between them, sorted input or not |
| WorkoutInfoModel.SpanCoversEverySample | SharedFiles/WorkoutInfoModel.swift:49-61 | for non-empty streams, start <= end and every accelerometer and gyroscope sample's timestamp lies in [start, end] |
| WorkoutInfoModel.Ratio | SharedFiles/WorkoutInfoModel.swift:74 | `Double(accelerometerRate) / Double(gyroscopeRate)` without rounding; see `TruncatedRatio` |
| WorkoutInfoModel.Divisor | SharedFiles/WorkoutInfoModel.swift:77 | `Int(1 + ratio)`, truncated before the division; see `TruncatedRatio`, `QuotasSplitTarget` and `DefaultRatesHalveTarget` |
| WorkoutInfoModel.CanBatch | SharedFiles/WorkoutInfoModel.swift:74-77 | the conditions under which lines 74-77 do not trap (non-zero gyroscope rate, non-zero divisor); `QuotasSplitTarget` and `DefaultRatesHalveTarget` prove it for non-negative rates and for the defaults |
| WorkoutInfoModel.EntriesPerBatch | SharedFiles/WorkoutInfoModel.swift:74-78 | the two quotas always add up to the target |
| WorkoutInfoModel.TruncatedRatio | SharedFiles/WorkoutInfoModel.swift:74-77 | for rates a >= 0, g > 0, `Int(1 + Double(a) / Double(g))` is 1 + a div g |
| WorkoutInfoModel.QuotasSplitTarget | SharedFiles/WorkoutInfoModel.swift:74-78 | for non-negative rates (gyroscope positive) and target: batching can run, the divisor is 1 + a div g, both quotas lie in 0..target, the gyroscope quota is the largest n with n · divisor <= target, and the accelerometer quota is at least (a div g) times the gyroscope quota |
| WorkoutInfoModel.DefaultRatesHalveTarget | SharedFiles/WorkoutInfoModel.swift:41 | with the initializer's default rates (-1, -1) batching can run, the divisor is 2 and the gyroscope quota is target / 2 |
| WorkoutInfoModel.DefaultTargetWithDefaultRates | SharedFiles/WorkoutInfoModel.swift:68-78 | at the default target of 10000 and the default rates the quotas are 5000 and 5000, and with at least 5000 gyroscope samples every full batch holds 5000 accelerometer samples |
| WorkoutInfoModel.FlushConditionAtSize | SharedFiles/WorkoutInfoModel.swift:88-94 | while the gyroscope counter follows the accelerometer counter up to its take and the stream's length, the flush test holds exactly when the open batch reaches the flush size |
| WorkoutInfoModel.TakeSample | SharedFiles/WorkoutInfoModel.swift:84-94 | one loop step keeps the loop invariant and makes the flush test equivalent to a full batch |
| WorkoutInfoModel.FlushBatch | SharedFiles/WorkoutInfoModel.swift:94-108 | flushing a full batch emits the next batch of the split and restores the invariant with empty buffers |
| WorkoutInfoModel.FinishWalk | SharedFiles/WorkoutInfoModel.swift:113-121 | after the loop, flushing a non-empty open batch (or nothing when it is empty) completes the split |
| WorkoutInfoModel.BatchByDataRate | SharedFiles/WorkoutInfoModel.swift:68-125 | the loop returns exactly `Batches(m, target)`: the accelerometer stream cut into runs of the flush size, each with its gyroscope prefix and the parent's rates |
| WorkoutInfoModel.SplitFlattens | SharedFiles/WorkoutInfoModel.swift:83-121 | concatenating the split's accelerometer runs gives back the stream |
| WorkoutInfoModel.AccelerometerRoundTrip | SharedFiles/WorkoutInfoModel.swift:83-121 | concatenating the batches' accelerometer lists in order gives exactly the input stream: nothing dropped, duplicated or reordered |
| WorkoutInfoModel.SplitShape | SharedFiles/WorkoutInfoModel.swift:83-121 | every batch of the split is built from its own run, runs hold 1..flush size samples, and all but the last are full |
| WorkoutInfoModel.BatchesShape | SharedFiles/WorkoutInfoModel.swift:83-121 | every batch has accelerometer samples, carries the parent's rates unchanged, and holds as gyroscope samples the prefix of length min(\|batch accelerometer\|, max(gyroscope quota, 0), \|gyroscope stream\|) |
| WorkoutInfoModel.FullBatches | SharedFiles/WorkoutInfoModel.swift:83-109 | when the gyroscope stream can fill its quota, every batch but the last holds exactly max(accelerometer quota, gyroscope quota, 1) accelerometer and max(gyroscope quota, 0) gyroscope samples |
| WorkoutInfoModel.SplitCount | SharedFiles/WorkoutInfoModel.swift:83-121 | the split has \|stream\| / flush size batches, rounded up |
| WorkoutInfoModel.BatchCount | SharedFiles/WorkoutInfoModel.swift:83-121 | the batch count is \|accelerometer\| / flush size rounded up, and it is zero exactly when there is no accelerometer sample, gyroscope samples or not |
| WorkoutInfoModel.StarvedGyroscopeSingleBatch | SharedFiles/WorkoutInfoModel.swift:88-121 | when the gyroscope stream is shorter than the gyroscope quota the flush test never holds: at most one batch, holding every accelerometer sample and the gyroscope samples paired with them |
| WorkoutInfoModel.FiftyAndTwentyFiveHertz | SharedFiles/WorkoutInfoModel.swift:74-121 | at 50 Hz and 25 Hz a target of 30 gives quotas 10 and 20, and 20 accelerometer with 10 gyroscope samples make one batch equal to the input |
| WorkoutInfoModel.CombinedBatchDuration | SharedFiles/WorkoutInfoModel.swift:131-137 | a duration exactly when the combined rate is not zero, and then duration · combined rate == target |
| WorkoutInfoModel.GetNumberOfBatches | SharedFiles/WorkoutInfoModel.swift:143-145 | the count is the number of batches `batchByDataRate` returns, hence \|accelerometer\| / flush size rounded up |
| DataDetailView.WorkoutData | WorkoutApp/Views/HistoryTab/DataDetailView.swift:21-23 | a stored batch is kept exactly when its workout id is the displayed workout's, with its multiplicity; no other batch is kept |
| DataDetailView.SortByBatchNumber | WorkoutApp/Views/HistoryTab/DataDetailView.swift:114 | the batches come out ordered by batch number and as a permutation of the input |
| DataDetailView.SortedPermutationsAgree | WorkoutApp/Views/HistoryTab/DataDetailView.swift:114 | two orderings by batch number of the same batches are identical when different batches never share a number |
| DataDetailView.TotalPermutation | WorkoutApp/Views/HistoryTab/DataDetailView.swift:114-118 | a per-batch total does not depend on the order of the batches |
| DataDetailView.JoinAccelerometer | WorkoutApp/Views/HistoryTab/DataDetailView.swift:117 | the accelerometer `flatMap`; see `JoinAccelerometerLength`, `SavedBatchesJoin` and `ReassemblyInvertsBatching` |
| DataDetailView.JoinGyroscope | WorkoutApp/Views/HistoryTab/DataDetailView.swift:118 | the gyroscope `flatMap`; see `JoinGyroscopeLength`, `SavedBatchesJoin` and `ReassemblyInvertsBatching` |
| DataDetailView.JoinAccelerometerLength | WorkoutApp/Views/HistoryTab/DataDetailView.swift:117 | the joined accelerometer list is as long as the batches' accelerometer lists together |
| DataDetailView.JoinGyroscopeLength | WorkoutApp/Views/HistoryTab/DataDetailView.swift:118 | the joined gyroscope list is as long as the batches' gyroscope lists together |
| DataDetailView.ConsolidatedLengths | WorkoutApp/Views/HistoryTab/DataDetailView.swift:112-119 | the consolidated streams hold as many samples as the workout's batches, summed in storage order |
| DataDetailView.ConsolidationIgnoresOrderAndOtherWorkouts | WorkoutApp/Views/HistoryTab/DataDetailView.swift:112-119 | two stores holding the same batches of the workout (numbers telling different batches apart) consolidate to the same streams, whatever their order and whatever other workouts' batches they hold |
| DataDetailView.DataDetail.constructor | WorkoutApp/Views/HistoryTab/DataDetailView.swift:26-27 | the view starts with empty consolidated streams |
| DataDetailView.DataDetail.ConsolidateData | WorkoutApp/Views/HistoryTab/DataDetailView.swift:112-119 | the two fields become the workout's batches joined in batch-number order, with lengths equal to the batches' totals; the observed batches are unchanged |
| DataDetailView.SavedBatches | WorkoutApp/Views/WorkoutTab/WorkoutConfirmationView.swift:213-240 | saved batches belong to the workout and carry strictly increasing numbers above the starting index |
| DataDetailView.SavedBatchesJoin | WorkoutApp/Views/WorkoutTab/WorkoutConfirmationView.swift:213-240 | when every batch has samples none is skipped, and joining the saved batches gives the batches' concatenated streams |
| DataDetailView.SavedBatchesIdentify | WorkoutApp/Views/WorkoutTab/WorkoutConfirmationView.swift:233 | strictly increasing batch numbers are in order and tell different batches apart |
| DataDetailView.ReassemblyInvertsBatching | WorkoutApp/Views/HistoryTab/DataDetailView.swift:112-119 | consolidating a store that holds one workout's saved `batchByDataRate` batches, in any order and among other workouts' batches, gives back the accelerometer stream and the batches' gyroscope lists in batch order |
| DataDetailView.CalculateDuration | WorkoutApp/Views/HistoryTab/DataDetailView.swift:128-137 | unknown exactly when a time is missing; otherwise minutes · 60 + seconds == Int(end - start), with minutes >= 0 and seconds in 0..59 for a non-negative whole duration, minutes <= 0 and seconds in -59..0 for a negative one |
| DataDetailView.DurationWithinOneSecond | WorkoutApp/Views/HistoryTab/DataDetailView.swift:133-135 | for end >= start the shown minutes and seconds are at most the real duration and less than one second short of it |
| WorkoutStateModel.RawValue | SharedFiles/WorkoutState.swift:11-17 | raw values lie in 0..4, 0 exactly for `waitingForPhone` and 4 exactly for `completed` |
| WorkoutStateModel.FromRawValue | SharedFiles/WorkoutState.swift:11 | a state exactly for raw values 0..4, and the state found has that raw value |
| WorkoutStateModel.RawValueRoundTrip | SharedFiles/WorkoutState.swift:11-17 | decoding a state's raw value gives the state back |
| WorkoutStateModel.RawValueInjective | SharedFiles/WorkoutState.swift:11-17 | different states have different raw values |
| WorkoutStateModel.WorkoutStateManager.constructor | SharedFiles/WorkoutState.swift:21 | a new manager is in `waitingForPhone` |
| WorkoutStateModel.WorkoutStateManager.TransitionTo | SharedFiles/WorkoutState.swift:28-37 | afterwards the state is the requested one, from any state (backward moves included); it does not depend on the state before, so repeating the call changes nothing |
| WorkoutStateModel.WorkoutStateManager.NotifyDevices | SharedFiles/WorkoutState.swift:34-37 | an empty stub: it modifies nothing, which is what makes `TransitionTo` idempotent |

## Left out

- `batchByTimeInterval`: no source file defines it. `WorkoutApp/Views/WorkoutTab/WorkoutConfirmationView.swift:211` calls it under a "to be defined" note. The reassembly theorem is stated for `batchByDataRate` batches instead.
- `calculateRate` and `setDataRate` (`WatchWourkoutApp Watch App/MotionManager.swift:184-193`, `261-273`): the watch's capture code estimates each rate as 1 / the mean gap between consecutive timestamps and stores `Int(rate)`. This capture code is outside the modelled core; the rates are inputs of `WorkoutMotionData` here.
- Floating point:
  - timestamps, axis values and the rate ratio are `real`, without rounding, NaN or infinities;
  - `Int(Double)` on a value out of `Int`'s range traps in Swift and is not modelled;
  - `Date(timeIntervalSince1970:)` is taken as the timestamp itself.
- 64-bit `Int` overflow, for example in `target - gyroEntriesPerBatch` or `accelerometerRate + gyroscopeRate`: integers are unbounded.
- WorkoutInfoModel.CombinedBatchDuration: answers `None` where Swift yields an infinity or a NaN for a zero combined rate.
- DataDetailView.CalculateDuration: returns the minutes and seconds rather than the `"%02d:%02d"` string.
- DataDetailView.CalculateDuration: the "Unknown Duration" text is the `UnknownDuration` case.
- `CoreMotionData`, `AccelerometerData` and `GyroscopeData` are Realm classes whose definitions are not part of this model. `CoreMotionData` is modelled from the fields its uses set and read. The conversions `toAccelerometerData` and `toGyroscopeData` are taken as keeping every sample unchanged.
- Realm, MongoDB and WatchConnectivity:
  - the observed query is a sequence parameter;
  - writes and subscriptions are not modelled;
  - `saveCoreMotionDataBatches` is modelled only as far as the records it builds (`SavedBatches`), not the writes or their failures;
  - `notifyDevices` is a stub in the source and an empty method here.
- The `shared` singleton and `@Published` observation of `WorkoutStateManager`: the model has an ordinary class and constructor.
- The `print` in `batchByDataRate` and all SwiftUI view bodies, charts and `formatDate`.
- DataDetailView.SortByBatchNumber: Swift's `sorted(by:)` does not promise an order among different batches with the same number. The model uses a stable insertion sort, and its order-dependent theorems assume numbers that tell different batches apart.
