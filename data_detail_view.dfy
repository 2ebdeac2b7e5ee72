/**
 * The history tab's detail view of one workout: it keeps the saved motion
 * batches that belong to the workout, puts them in batch-number order and
 * joins their samples back into one accelerometer and one gyroscope stream;
 * it also shows the workout's duration in minutes and seconds.
 */
module DataDetailView {
  import opened Wrappers
  import opened SwiftNumeric
  import opened WorkoutInfoModel

  /** A workout's database identifier. */
  type ObjectId = int

  /**
   * One saved batch: the workout it belongs to, its 1-based position in the
   * batch list, its time span, the capture rates and its samples.
   */
  datatype CoreMotionData = CoreMotionData(
    workoutId: ObjectId,
    batchNumber: int,
    startTime: real,
    endTime: real,
    accelerometerRate: int,
    gyroscopeRate: int,
    accelerometerSnapshots: seq<AccelerometerSnapshot>,
    gyroscopeSnapshots: seq<GyroscopeSnapshot>)

  // ---------------------------------------------------------------------
  // The workout's batches
  // ---------------------------------------------------------------------

  /**
   * `workoutData`: the stored batches whose `workoutId` is the displayed
   * workout's; each of them keeps its multiplicity and every other batch is
   * dropped.
   */
  function WorkoutData(all: seq<CoreMotionData>, workoutId: ObjectId): (r: seq<CoreMotionData>)
    ensures forall b :: b in r <==> b in all && b.workoutId == workoutId
    ensures forall b :: multiset(r)[b] == if b.workoutId == workoutId then multiset(all)[b] else 0
  {
    if all == [] then []
    else
      assert all == [all[0]] + all[1..];
      (if all[0].workoutId == workoutId then [all[0]] else []) + WorkoutData(all[1..], workoutId)
  }

  predicate ByBatchNumber(s: seq<CoreMotionData>)
  {
    forall i, j :: 0 <= i < j < |s| ==> s[i].batchNumber <= s[j].batchNumber
  }

  /** Two different batches never share a batch number. */
  predicate BatchNumbersIdentify(s: seq<CoreMotionData>)
  {
    forall x, y :: x in s && y in s && x.batchNumber == y.batchNumber ==> x == y
  }

  /** Putting a batch numbered no higher than the head in front keeps the order. */
  lemma {:induction false} PrependByBatchNumber(b: CoreMotionData, t: seq<CoreMotionData>)
    requires ByBatchNumber(t) && (t != [] ==> b.batchNumber <= t[0].batchNumber)
    ensures ByBatchNumber([b] + t)
  {
    var r := [b] + t;
    forall i, j | 0 <= i < j < |r|
      ensures r[i].batchNumber <= r[j].batchNumber
    {
      if i == 0 {
        assert r[j] == t[j - 1] && t[0].batchNumber <= t[j - 1].batchNumber;
      } else {
        assert r[i] == t[i - 1] && r[j] == t[j - 1];
      }
    }
  }

  /**
   * Inserts `b` after the batches numbered below it: the insertion sort of
   * the session span's `Insert`, keyed by the batch number.
   */
  function InsertByBatchNumber(b: CoreMotionData, s: seq<CoreMotionData>): (r: seq<CoreMotionData>)
    requires ByBatchNumber(s)
    ensures |r| == |s| + 1 && (r[0] == b || (s != [] && r[0] == s[0]))
    ensures ByBatchNumber(r) && multiset(r) == multiset(s) + multiset{b}
  {
    if s == [] then [b]
    else if b.batchNumber < s[0].batchNumber || b.batchNumber == s[0].batchNumber then
      PrependByBatchNumber(b, s);
      [b] + s
    else
      var tail := InsertByBatchNumber(b, s[1..]);
      PrependByBatchNumber(s[0], tail);
      assert s == [s[0]] + s[1..];
      assert multiset([s[0]] + tail) == multiset{s[0]} + multiset(tail);
      [s[0]] + tail
  }

  /** `sorted(by: { $0.batchNumber < $1.batchNumber })`. */
  function SortByBatchNumber(s: seq<CoreMotionData>): (r: seq<CoreMotionData>)
    ensures ByBatchNumber(r) && multiset(r) == multiset(s)
  {
    if s == [] then []
    else
      assert s == [s[0]] + s[1..];
      InsertByBatchNumber(s[0], SortByBatchNumber(s[1..]))
  }

  /** Identifying batch numbers carry over to any arrangement of the same batches. */
  lemma IdentifyPermutation(s: seq<CoreMotionData>, t: seq<CoreMotionData>)
    requires multiset(s) == multiset(t) && BatchNumbersIdentify(s)
    ensures BatchNumbersIdentify(t)
  {
    forall x, y | x in t && y in t && x.batchNumber == y.batchNumber
      ensures x == y
    {
      assert x in multiset(t) && y in multiset(t);
    }
  }

  /** Two orderings by batch number of the same batches start with the same batch. */
  lemma {:induction false} SortedHeadsAgree(r1: seq<CoreMotionData>, r2: seq<CoreMotionData>)
    requires ByBatchNumber(r1) && ByBatchNumber(r2) && multiset(r1) == multiset(r2)
    requires BatchNumbersIdentify(r1) && r1 != [] && r2 != []
    ensures r1[0] == r2[0]
  {
    var x, y := r1[0], r2[0];
    assert x in multiset(r2) && y in multiset(r1);
    var i :| 0 <= i < |r1| && r1[i] == y;
    var j :| 0 <= j < |r2| && r2[j] == x;
    assert x.batchNumber <= y.batchNumber by {
      if i > 0 {
        assert r1[0].batchNumber <= r1[i].batchNumber;
      }
    }
    assert y.batchNumber <= x.batchNumber by {
      if j > 0 {
        assert r2[0].batchNumber <= r2[j].batchNumber;
      }
    }
  }

  /**
   * Without the head of both, two orderings of the same batches are still
   * orderings of the same batches, and numbers still identify them.
   */
  lemma {:induction false} SortedTails(r1: seq<CoreMotionData>, r2: seq<CoreMotionData>)
    requires ByBatchNumber(r1) && ByBatchNumber(r2) && multiset(r1) == multiset(r2)
    requires BatchNumbersIdentify(r1) && r1 != [] && r2 != [] && r1[0] == r2[0]
    ensures ByBatchNumber(r1[1..]) && ByBatchNumber(r2[1..]) && multiset(r1[1..]) == multiset(r2[1..])
    ensures BatchNumbersIdentify(r1[1..])
  {
    DropHead(r1);
    DropHead(r2);
    forall i, j | 0 <= i < j < |r1| - 1
      ensures r1[1..][i].batchNumber <= r1[1..][j].batchNumber
    {
      assert r1[1..][i] == r1[i + 1] && r1[1..][j] == r1[j + 1];
    }
    forall i, j | 0 <= i < j < |r2| - 1
      ensures r2[1..][i].batchNumber <= r2[1..][j].batchNumber
    {
      assert r2[1..][i] == r2[i + 1] && r2[1..][j] == r2[j + 1];
    }
  }

  /**
   * Two orderings by batch number of the same batches are the same sequence
   * when different batches never share a number.
   */
  lemma {:induction false} SortedPermutationsAgree(r1: seq<CoreMotionData>, r2: seq<CoreMotionData>)
    requires ByBatchNumber(r1) && ByBatchNumber(r2) && multiset(r1) == multiset(r2)
    requires BatchNumbersIdentify(r1)
    ensures r1 == r2
    decreases |r1|
  {
    if r1 == [] {
      assert |r2| == |multiset(r2)| == 0;
    } else {
      assert r1[0] in multiset(r2);
      SortedHeadsAgree(r1, r2);
      SortedTails(r1, r2);
      SortedPermutationsAgree(r1[1..], r2[1..]);
      assert r1 == [r1[0]] + r1[1..];
      assert r2 == [r2[0]] + r2[1..];
    }
  }

  lemma {:induction false} DropHead(s: seq<CoreMotionData>)
    requires s != []
    ensures multiset(s[1..]) == multiset(s) - multiset{s[0]}
    ensures forall b :: b in s[1..] ==> b in s
  {
    assert s == [s[0]] + s[1..];
  }

  // ---------------------------------------------------------------------
  // Joining the samples
  // ---------------------------------------------------------------------

  /** `flatMap { $0.accelerometerSnapshots }`: `FlattenAccelerometer` over saved batches. */
  function JoinAccelerometer(batches: seq<CoreMotionData>): seq<AccelerometerSnapshot>
  {
    if batches == [] then [] else batches[0].accelerometerSnapshots + JoinAccelerometer(batches[1..])
  }

  /** `flatMap { $0.gyroscopeSnapshots }`: `FlattenGyroscope` over saved batches. */
  function JoinGyroscope(batches: seq<CoreMotionData>): seq<GyroscopeSnapshot>
  {
    if batches == [] then [] else batches[0].gyroscopeSnapshots + JoinGyroscope(batches[1..])
  }

  /** The consolidated accelerometer stream of the workout's batches. */
  function ConsolidatedAccelerometer(all: seq<CoreMotionData>, workoutId: ObjectId): seq<AccelerometerSnapshot>
  {
    JoinAccelerometer(SortByBatchNumber(WorkoutData(all, workoutId)))
  }

  /** The consolidated gyroscope stream of the workout's batches. */
  function ConsolidatedGyroscope(all: seq<CoreMotionData>, workoutId: ObjectId): seq<GyroscopeSnapshot>
  {
    JoinGyroscope(SortByBatchNumber(WorkoutData(all, workoutId)))
  }

  function AccelerometerCount(b: CoreMotionData): nat
  {
    |b.accelerometerSnapshots|
  }

  function GyroscopeCount(b: CoreMotionData): nat
  {
    |b.gyroscopeSnapshots|
  }

  /** The sum of `size` over the batches, adding them from the last one back. */
  function Total(s: seq<CoreMotionData>, size: CoreMotionData -> nat): nat
  {
    if s == [] then 0 else Total(s[..|s| - 1], size) + size(s[|s| - 1])
  }

  lemma {:induction false} TotalConcat(s: seq<CoreMotionData>, t: seq<CoreMotionData>, size: CoreMotionData -> nat)
    ensures Total(s + t, size) == Total(s, size) + Total(t, size)
    decreases |t|
  {
    if t == [] {
      assert s + t == s;
    } else {
      var n := |t| - 1;
      assert (s + t)[..|s + t| - 1] == s + t[..n];
      assert (s + t)[|s + t| - 1] == t[n];
      TotalConcat(s, t[..n], size);
    }
  }

  /** Taking out the batch at `k` takes its size off the total and it off the multiset. */
  lemma {:induction false} TotalRemove(t: seq<CoreMotionData>, k: int, size: CoreMotionData -> nat)
    requires 0 <= k < |t|
    ensures Total(t, size) == Total(t[..k] + t[k + 1..], size) + size(t[k])
    ensures multiset(t[..k] + t[k + 1..]) == multiset(t) - multiset{t[k]}
  {
    var left, right := t[..k], t[k + 1..];
    assert t == left + [t[k]] + right;
    TotalConcat(left + [t[k]], right, size);
    TotalConcat(left, [t[k]], size);
    TotalConcat(left, right, size);
    assert [t[k]][..0] == [];
  }

  lemma {:induction false} DropLast(s: seq<CoreMotionData>)
    requires s != []
    ensures multiset(s[..|s| - 1]) == multiset(s) - multiset{s[|s| - 1]}
  {
    assert s == s[..|s| - 1] + [s[|s| - 1]];
  }

  /** A total does not depend on the order of the batches. */
  lemma {:induction false} TotalPermutation(s: seq<CoreMotionData>, t: seq<CoreMotionData>, size: CoreMotionData -> nat)
    requires multiset(s) == multiset(t)
    ensures Total(s, size) == Total(t, size)
    decreases |s|
  {
    assert |s| == |multiset(s)| == |multiset(t)| == |t|;
    if s != [] {
      var n := |s| - 1;
      assert s[n] in multiset(t);
      var k :| 0 <= k < |t| && t[k] == s[n];
      TotalRemove(t, k, size);
      DropLast(s);
      TotalPermutation(s[..n], t[..k] + t[k + 1..], size);
    }
  }

  /** Joining the batches' accelerometer samples yields as many as they hold in total. */
  lemma {:induction false} JoinAccelerometerLength(s: seq<CoreMotionData>)
    ensures |JoinAccelerometer(s)| == Total(s, AccelerometerCount)
    decreases |s|
  {
    if s != [] {
      JoinAccelerometerLength(s[1..]);
      assert s == [s[0]] + s[1..];
      TotalConcat([s[0]], s[1..], AccelerometerCount);
      assert [s[0]][..0] == [];
    }
  }

  /** Joining the batches' gyroscope samples yields as many as they hold in total. */
  lemma {:induction false} JoinGyroscopeLength(s: seq<CoreMotionData>)
    ensures |JoinGyroscope(s)| == Total(s, GyroscopeCount)
    decreases |s|
  {
    if s != [] {
      JoinGyroscopeLength(s[1..]);
      assert s == [s[0]] + s[1..];
      TotalConcat([s[0]], s[1..], GyroscopeCount);
      assert [s[0]][..0] == [];
    }
  }

  /**
   * The consolidated streams hold exactly as many samples as the workout's
   * batches, in whatever order they are stored.
   */
  lemma ConsolidatedLengths(all: seq<CoreMotionData>, workoutId: ObjectId)
    ensures |ConsolidatedAccelerometer(all, workoutId)| == Total(WorkoutData(all, workoutId), AccelerometerCount)
    ensures |ConsolidatedGyroscope(all, workoutId)| == Total(WorkoutData(all, workoutId), GyroscopeCount)
  {
    var mine := WorkoutData(all, workoutId);
    var sorted := SortByBatchNumber(mine);
    JoinAccelerometerLength(sorted);
    JoinGyroscopeLength(sorted);
    TotalPermutation(sorted, mine, AccelerometerCount);
    TotalPermutation(sorted, mine, GyroscopeCount);
  }

  /** Stores that agree on one workout's batches give that workout the same batches. */
  lemma SameWorkoutData(all1: seq<CoreMotionData>, all2: seq<CoreMotionData>, workoutId: ObjectId)
    requires forall b: CoreMotionData :: b.workoutId == workoutId ==> multiset(all1)[b] == multiset(all2)[b]
    ensures multiset(WorkoutData(all1, workoutId)) == multiset(WorkoutData(all2, workoutId))
  {
    var mine1, mine2 := WorkoutData(all1, workoutId), WorkoutData(all2, workoutId);
    forall b: CoreMotionData
      ensures multiset(mine1)[b] == multiset(mine2)[b]
    {
    }
  }

  /**
   * Only the workout's own batches count, and their storage order does not:
   * two stores that hold the same batches of this workout, whose batch
   * numbers tell different batches apart, consolidate to the same streams.
   */
  lemma ConsolidationIgnoresOrderAndOtherWorkouts(all1: seq<CoreMotionData>, all2: seq<CoreMotionData>,
                                                  workoutId: ObjectId)
    requires forall b: CoreMotionData :: b.workoutId == workoutId ==> multiset(all1)[b] == multiset(all2)[b]
    requires BatchNumbersIdentify(WorkoutData(all1, workoutId))
    ensures ConsolidatedAccelerometer(all1, workoutId) == ConsolidatedAccelerometer(all2, workoutId)
    ensures ConsolidatedGyroscope(all1, workoutId) == ConsolidatedGyroscope(all2, workoutId)
  {
    var mine1, mine2 := WorkoutData(all1, workoutId), WorkoutData(all2, workoutId);
    SameWorkoutData(all1, all2, workoutId);
    var sorted1, sorted2 := SortByBatchNumber(mine1), SortByBatchNumber(mine2);
    IdentifyPermutation(mine1, sorted1);
    SortedPermutationsAgree(sorted1, sorted2);
  }

  // ---------------------------------------------------------------------
  // The view's state
  // ---------------------------------------------------------------------

  /**
   * The detail view of the workout `workoutId`: the batches it observes and
   * the two consolidated streams it shows.
   */
  class DataDetail {
    const workoutId: ObjectId
    var allWorkoutData: seq<CoreMotionData>
    var consolidatedAccelerometerData: seq<AccelerometerSnapshot>
    var consolidatedGyroscopeData: seq<GyroscopeSnapshot>

    /** The view opens with empty consolidated streams. */
    constructor(workoutId: ObjectId, allWorkoutData: seq<CoreMotionData>)
      ensures this.workoutId == workoutId && this.allWorkoutData == allWorkoutData
      ensures consolidatedAccelerometerData == [] && consolidatedGyroscopeData == []
    {
      this.workoutId := workoutId;
      this.allWorkoutData := allWorkoutData;
      consolidatedAccelerometerData := [];
      consolidatedGyroscopeData := [];
    }

    /**
     * `consolidateData`: sorts the workout's batches by batch number and
     * stores the concatenation of their accelerometer and of their gyroscope
     * samples; the stored streams hold the batches' samples and no others.
     */
    method ConsolidateData()
      modifies this
      ensures allWorkoutData == old(allWorkoutData)
      ensures consolidatedAccelerometerData == ConsolidatedAccelerometer(allWorkoutData, workoutId)
      ensures consolidatedGyroscopeData == ConsolidatedGyroscope(allWorkoutData, workoutId)
      ensures |consolidatedAccelerometerData| == Total(WorkoutData(allWorkoutData, workoutId), AccelerometerCount)
      ensures |consolidatedGyroscopeData| == Total(WorkoutData(allWorkoutData, workoutId), GyroscopeCount)
    {
      var sortedWorkoutData := SortByBatchNumber(WorkoutData(allWorkoutData, workoutId));
      consolidatedAccelerometerData := JoinAccelerometer(sortedWorkoutData);
      consolidatedGyroscopeData := JoinGyroscope(sortedWorkoutData);
      ConsolidatedLengths(allWorkoutData, workoutId);
    }
  }

  // ---------------------------------------------------------------------
  // Reassembly after batching
  // ---------------------------------------------------------------------

  /**
   * The batches of one workout as they are saved: batch `k` (from 0) gets
   * number `k + 1` and the span of its own samples, and a batch without any
   * sample, hence without a span, is skipped.
   */
  function SavedBatches(batches: seq<WorkoutMotionData>, workoutId: ObjectId,
                        accelerometerRate: int, gyroscopeRate: int, index: nat): (r: seq<CoreMotionData>)
    ensures forall b :: b in r ==> b.workoutId == workoutId && index < b.batchNumber
    ensures forall i, j :: 0 <= i < j < |r| ==> r[i].batchNumber < r[j].batchNumber
    decreases |batches|
  {
    if batches == [] then []
    else
      var span := GetStartAndEndTime(batches[0]);
      var rest := SavedBatches(batches[1..], workoutId, accelerometerRate, gyroscopeRate, index + 1);
      if span.startTime.None? || span.endTime.None? then rest
      else
        var saved := CoreMotionData(workoutId, index + 1, span.startTime.value, span.endTime.value,
                                    accelerometerRate, gyroscopeRate,
                                    batches[0].accelerometerSnapshots, batches[0].gyroscopeSnapshots);
        assert forall j :: 0 <= j < |rest| ==> rest[j] in rest;
        [saved] + rest
  }

  /** When every batch has samples, none is skipped and joining gives back the batches' streams. */
  lemma {:induction false} SavedBatchesJoin(batches: seq<WorkoutMotionData>, workoutId: ObjectId,
                                            accelerometerRate: int, gyroscopeRate: int, index: nat)
    requires forall b :: b in batches ==> b.accelerometerSnapshots != []
    ensures JoinAccelerometer(SavedBatches(batches, workoutId, accelerometerRate, gyroscopeRate, index))
            == FlattenAccelerometer(batches)
    ensures JoinGyroscope(SavedBatches(batches, workoutId, accelerometerRate, gyroscopeRate, index))
            == FlattenGyroscope(batches)
    decreases |batches|
  {
    if batches != [] {
      assert batches[0] in batches;
      assert forall b :: b in batches[1..] ==> b in batches;
      SavedBatchesJoin(batches[1..], workoutId, accelerometerRate, gyroscopeRate, index + 1);
    }
  }

  /** Saved batches carry strictly increasing numbers, so numbers identify them. */
  lemma SavedBatchesIdentify(saved: seq<CoreMotionData>)
    requires forall i, j :: 0 <= i < j < |saved| ==> saved[i].batchNumber < saved[j].batchNumber
    ensures BatchNumbersIdentify(saved) && ByBatchNumber(saved)
  {
    forall x, y | x in saved && y in saved && x.batchNumber == y.batchNumber
      ensures x == y
    {
      var i :| 0 <= i < |saved| && saved[i] == x;
      var j :| 0 <= j < |saved| && saved[j] == y;
      assert i == j;
    }
  }

  /** A store holding one workout's saved batches among others' yields exactly them. */
  lemma WorkoutDataOfStore(stored: seq<CoreMotionData>, saved: seq<CoreMotionData>, workoutId: ObjectId)
    requires forall b :: b in saved ==> b.workoutId == workoutId
    requires forall b: CoreMotionData :: b.workoutId == workoutId ==> multiset(stored)[b] == multiset(saved)[b]
    ensures multiset(WorkoutData(stored, workoutId)) == multiset(saved)
  {
    var mine := WorkoutData(stored, workoutId);
    forall b: CoreMotionData
      ensures multiset(mine)[b] == multiset(saved)[b]
    {
      if b.workoutId != workoutId {
        assert b !in saved;
      }
    }
  }

  /**
   * Reassembly inverts batching: when a store holds, in any order and among
   * batches of other workouts, exactly the saved batches of one workout's
   * `batchByDataRate` split, consolidating gives back the accelerometer
   * stream and the batches' gyroscope samples in batch order.
   */
  lemma ReassemblyInvertsBatching(m: WorkoutMotionData, targetEntriesPerBatch: int, workoutId: ObjectId,
                                  stored: seq<CoreMotionData>)
    requires CanBatch(m)
    requires forall b: CoreMotionData :: b.workoutId == workoutId ==>
               multiset(stored)[b]
               == multiset(SavedBatches(Batches(m, targetEntriesPerBatch), workoutId,
                                        m.accelerometerRate, m.gyroscopeRate, 0))[b]
    ensures ConsolidatedAccelerometer(stored, workoutId) == m.accelerometerSnapshots
    ensures ConsolidatedGyroscope(stored, workoutId) == FlattenGyroscope(Batches(m, targetEntriesPerBatch))
  {
    var batches := Batches(m, targetEntriesPerBatch);
    var saved := SavedBatches(batches, workoutId, m.accelerometerRate, m.gyroscopeRate, 0);
    WorkoutDataOfStore(stored, saved, workoutId);
    SavedBatchesIdentify(saved);
    SortedPermutationsAgree(saved, SortByBatchNumber(WorkoutData(stored, workoutId)));
    BatchesShape(m, targetEntriesPerBatch);
    SavedBatchesJoin(batches, workoutId, m.accelerometerRate, m.gyroscopeRate, 0);
    AccelerometerRoundTrip(m, targetEntriesPerBatch);
  }

  // ---------------------------------------------------------------------
  // Duration
  // ---------------------------------------------------------------------

  datatype Duration = UnknownDuration | MinutesSeconds(minutes: int, seconds: int)

  /**
   * `calculateDuration`: unknown without both times; otherwise the whole
   * seconds of `endTime - startTime` (truncated toward zero) split into
   * minutes and seconds with Swift's truncating `/` and `%` by 60.
   */
  function CalculateDuration(startTime: Option<real>, endTime: Option<real>): (r: Duration)
    ensures r.UnknownDuration? <==> startTime.None? || endTime.None?
    ensures r.MinutesSeconds? ==>
              var whole := TruncReal(endTime.value - startTime.value);
              r.minutes * 60 + r.seconds == whole &&
              (whole >= 0 ==> 0 <= r.minutes && 0 <= r.seconds <= 59) &&
              (whole < 0 ==> r.minutes <= 0 && -59 <= r.seconds <= 0)
  {
    if startTime.None? || endTime.None? then UnknownDuration
    else
      var duration := endTime.value - startTime.value;
      var whole := TruncReal(duration);
      DivModIdentity(whole, 60);
      TruncDivRoundsTowardZero(whole, 60);
      MinutesSeconds(TruncDiv(whole, 60), TruncMod(whole, 60))
  }

  /**
   * For a non-negative duration the minutes and seconds shown never exceed
   * it and fall short of it by less than one second.
   */
  lemma DurationWithinOneSecond(startTime: real, endTime: real)
    requires startTime <= endTime
    ensures var r := CalculateDuration(Some(startTime), Some(endTime));
            r.MinutesSeconds? &&
            (r.minutes * 60 + r.seconds) as real <= endTime - startTime < (r.minutes * 60 + r.seconds + 1) as real
  {
  }
}
