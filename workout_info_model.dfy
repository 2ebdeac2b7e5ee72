/**
 * The motion data of one workout (`WorkoutMotionData`) and what is computed
 * from it: the session span, the per-batch quotas and the count-based
 * splitter `batchByDataRate`.
 *
 * `TimeInterval` and `Double` become `real` (no NaN, no rounding); Swift's
 * `Int` becomes `int`.
 */
module WorkoutInfoModel {
  import opened Wrappers
  import opened SwiftNumeric

  /** One accelerometer reading. */
  datatype AccelerometerSnapshot = AccelerometerSnapshot(
    timestamp: real,
    accelerationX: real,
    accelerationY: real,
    accelerationZ: real)

  /** One gyroscope reading. */
  datatype GyroscopeSnapshot = GyroscopeSnapshot(
    timestamp: real,
    rotationX: real,
    rotationY: real,
    rotationZ: real)

  /** Both sample streams of a workout, with their capture rates in Hz. */
  datatype WorkoutMotionData = WorkoutMotionData(
    accelerometerSnapshots: seq<AccelerometerSnapshot>,
    gyroscopeSnapshots: seq<GyroscopeSnapshot>,
    accelerometerRate: int,
    gyroscopeRate: int)

  /** The rate both fields take when the initializer is not given one. */
  const DefaultRate: int := -1

  /** The default `targetEntriesPerBatch` of `batchByDataRate` and `getNumberOfBatches`. */
  const DefaultTargetEntriesPerBatch: int := 10000

  // ---------------------------------------------------------------------
  // Session span
  // ---------------------------------------------------------------------

  datatype StartAndEndTime = StartAndEndTime(startTime: Option<real>, endTime: Option<real>)

  /** Every timestamp of both streams: the accelerometer ones, then the gyroscope ones. */
  function AllTimestamps(m: WorkoutMotionData): seq<real>
  {
    seq(|m.accelerometerSnapshots|, i requires 0 <= i < |m.accelerometerSnapshots| =>
          m.accelerometerSnapshots[i].timestamp)
    + seq(|m.gyroscopeSnapshots|, j requires 0 <= j < |m.gyroscopeSnapshots| =>
          m.gyroscopeSnapshots[j].timestamp)
  }

  predicate Ascending(s: seq<real>)
  {
    forall i, j :: 0 <= i < j < |s| ==> s[i] <= s[j]
  }

  /**
   * Inserts `x` into an ascending sequence. The batch-number sort of the
   * detail view (`InsertByBatchNumber`) is the same insertion sort on saved
   * batches keyed by their number.
   */
  function Insert(x: real, s: seq<real>): (r: seq<real>)
    requires Ascending(s)
    ensures |r| == |s| + 1 && (r[0] == x || (s != [] && r[0] == s[0]))
    ensures Ascending(r) && multiset(r) == multiset(s) + multiset{x}
  {
    if s == [] then [x]
    else if x <= s[0] then
      PrependAscending(x, s);
      [x] + s
    else
      var tail := Insert(x, s[1..]);
      PrependAscending(s[0], tail);
      assert s == [s[0]] + s[1..];
      assert multiset([s[0]] + tail) == multiset{s[0]} + multiset(tail);
      [s[0]] + tail
  }

  /** Putting a value no larger than the head in front keeps a sequence ascending. */
  lemma {:induction false} PrependAscending(y: real, t: seq<real>)
    requires Ascending(t) && (t != [] ==> y <= t[0])
    ensures Ascending([y] + t)
  {
    var r := [y] + t;
    forall i, j | 0 <= i < j < |r|
      ensures r[i] <= r[j]
    {
      if i == 0 {
        assert r[j] == t[j - 1] && t[0] <= t[j - 1];
      } else {
        assert r[i] == t[i - 1] && r[j] == t[j - 1];
      }
    }
  }

  /** Swift's `sorted()` on timestamps. */
  function Sort(s: seq<real>): (r: seq<real>)
    ensures Ascending(r) && multiset(r) == multiset(s)
  {
    if s == [] then []
    else
      assert s == [s[0]] + s[1..];
      Insert(s[0], Sort(s[1..]))
  }

  /** The first and last elements of an ascending permutation of `s` bound all of `s`. */
  lemma {:induction false} SortedEnds(s: seq<real>, r: seq<real>)
    requires Ascending(r) && multiset(r) == multiset(s) && r != []
    ensures r[0] in s && r[|r| - 1] in s
    ensures forall t :: t in s ==> r[0] <= t <= r[|r| - 1]
  {
    assert r[0] in multiset(r) && r[|r| - 1] in multiset(r);
    forall t | t in s
      ensures r[0] <= t <= r[|r| - 1]
    {
      assert t in multiset(s);
      var k :| 0 <= k < |r| && r[k] == t;
    }
  }

  /**
   * `getStartAndEndTime`: pools both streams' timestamps, sorts them and
   * takes the first and the last; no time at all when both streams are empty.
   */
  function GetStartAndEndTime(m: WorkoutMotionData): (r: StartAndEndTime)
    ensures r.startTime.None? <==> m.accelerometerSnapshots == [] && m.gyroscopeSnapshots == []
    ensures r.startTime.None? <==> r.endTime.None?
    ensures r.startTime.Some? ==>
              r.startTime.value in AllTimestamps(m) && r.endTime.value in AllTimestamps(m)
    ensures r.startTime.Some? ==>
              forall t :: t in AllTimestamps(m) ==> r.startTime.value <= t <= r.endTime.value
  {
    var pool := AllTimestamps(m);
    var sorted := Sort(pool);
    if sorted == [] then
      StartAndEndTime(None, None)
    else
      SortedEnds(pool, sorted);
      StartAndEndTime(Some(sorted[0]), Some(sorted[|sorted| - 1]))
  }

  /** The span covers every sample of either stream, whatever their order. */
  lemma {:induction false} SpanCoversEverySample(m: WorkoutMotionData)
    requires m.accelerometerSnapshots != [] || m.gyroscopeSnapshots != []
    ensures GetStartAndEndTime(m).startTime.Some? && GetStartAndEndTime(m).endTime.Some?
    ensures GetStartAndEndTime(m).startTime.value <= GetStartAndEndTime(m).endTime.value
    ensures forall i :: 0 <= i < |m.accelerometerSnapshots| ==>
              GetStartAndEndTime(m).startTime.value <= m.accelerometerSnapshots[i].timestamp
                                                    <= GetStartAndEndTime(m).endTime.value
    ensures forall j :: 0 <= j < |m.gyroscopeSnapshots| ==>
              GetStartAndEndTime(m).startTime.value <= m.gyroscopeSnapshots[j].timestamp
                                                    <= GetStartAndEndTime(m).endTime.value
  {
    var pool := AllTimestamps(m);
    var na := |m.accelerometerSnapshots|;
    assert pool[0] in pool;
    forall i | 0 <= i < na
      ensures pool[i] in pool && pool[i] == m.accelerometerSnapshots[i].timestamp
    {
    }
    forall j | 0 <= j < |m.gyroscopeSnapshots|
      ensures pool[na + j] in pool && pool[na + j] == m.gyroscopeSnapshots[j].timestamp
    {
    }
  }

  // ---------------------------------------------------------------------
  // Quotas
  // ---------------------------------------------------------------------

  /** `Double(accelerometerRate) / Double(gyroscopeRate)`, without rounding. */
  function Ratio(m: WorkoutMotionData): real
    requires m.gyroscopeRate != 0
  {
    m.accelerometerRate as real / m.gyroscopeRate as real
  }

  /** `Int(1 + ratio)`: the divisor is truncated before the integer division. */
  function Divisor(m: WorkoutMotionData): int
    requires m.gyroscopeRate != 0
  {
    TruncReal(1.0 + Ratio(m))
  }

  /**
   * What `batchByDataRate` needs in order not to trap: a gyroscope rate
   * that is not zero (else `Int(1 + ratio)` converts an infinity or a NaN)
   * and a non-zero divisor (else the integer division traps).
   */
  predicate CanBatch(m: WorkoutMotionData)
  {
    m.gyroscopeRate != 0 && Divisor(m) != 0
  }

  datatype Quotas = Quotas(gyroEntriesPerBatch: int, accelEntriesPerBatch: int)

  /** The gyroscope and accelerometer entries one batch aims at. */
  function EntriesPerBatch(m: WorkoutMotionData, targetEntriesPerBatch: int): (q: Quotas)
    requires CanBatch(m)
    ensures q.gyroEntriesPerBatch + q.accelEntriesPerBatch == targetEntriesPerBatch
  {
    var gyro := TruncDiv(targetEntriesPerBatch, Divisor(m));
    Quotas(gyro, targetEntriesPerBatch - gyro)
  }

  /** A real quotient lies between the natural quotient and its successor. */
  lemma {:induction false} RealQuotientBounds(a: int, g: int, k: int)
    requires 0 < g && k * g <= a < (k + 1) * g
    ensures k as real <= a as real / g as real < (k + 1) as real
  {
    var x := a as real / g as real;
    var gr := g as real;
    assert x * gr == a as real;
    assert (k * g) as real == k as real * gr;
    assert ((k + 1) * g) as real == (k + 1) as real * gr;
  }

  /** Truncating `1 + a / g` over the reals gives `1 + a / g` over the naturals. */
  lemma {:induction false} TruncatedRatio(a: int, g: int)
    requires 0 <= a && 0 < g
    ensures TruncReal(1.0 + a as real / g as real) == 1 + a / g
  {
    EuclidBounds(a, g);
    RealQuotientBounds(a, g, a / g);
  }

  /**
   * For non-negative rates and target the divisor is `1 + accelRate / gyroRate`
   * in natural-number division, both quotas lie in `0..target`, and the
   * target is shared in proportion: the gyroscope quota is the largest `g`
   * with `g * divisor <= target`, and the accelerometer quota is at least
   * `accelRate / gyroRate` times the gyroscope quota.
   */
  lemma {:induction false} QuotasSplitTarget(m: WorkoutMotionData, targetEntriesPerBatch: int)
    requires 0 <= m.accelerometerRate && 0 < m.gyroscopeRate && 0 <= targetEntriesPerBatch
    ensures CanBatch(m)
    ensures Divisor(m) == 1 + m.accelerometerRate / m.gyroscopeRate
    ensures var q := EntriesPerBatch(m, targetEntriesPerBatch);
            0 <= q.gyroEntriesPerBatch <= targetEntriesPerBatch &&
            0 <= q.accelEntriesPerBatch <= targetEntriesPerBatch &&
            q.gyroEntriesPerBatch * Divisor(m) <= targetEntriesPerBatch
              < (q.gyroEntriesPerBatch + 1) * Divisor(m) &&
            q.accelEntriesPerBatch >= q.gyroEntriesPerBatch * (m.accelerometerRate / m.gyroscopeRate)
  {
    TruncatedRatio(m.accelerometerRate, m.gyroscopeRate);
    var k := m.accelerometerRate / m.gyroscopeRate;
    assert Divisor(m) == 1 + k;
    AgreesWithEuclid(targetEntriesPerBatch, 1 + k);
    ShareOfTarget(targetEntriesPerBatch, k);
  }

  /** Dividing a target by `1 + k` leaves at least `k` times the quotient as the remainder share. */
  lemma {:induction false} ShareOfTarget(t: int, k: int)
    requires 0 <= t && 0 <= k
    ensures var g := t / (1 + k);
            0 <= g <= t && 0 <= t - g <= t &&
            g * (1 + k) <= t < (g + 1) * (1 + k) &&
            t - g >= g * k
  {
    EuclidBounds(t, 1 + k);
    var g := t / (1 + k);
    assert g * (1 + k) == g * k + g;
    assert 0 <= g * k;
  }

  /** With the initializer's default rates (-1 and -1) the divisor is 2. */
  lemma DefaultRatesHalveTarget(m: WorkoutMotionData, targetEntriesPerBatch: int)
    requires m.accelerometerRate == DefaultRate && m.gyroscopeRate == DefaultRate
    ensures CanBatch(m) && Divisor(m) == 2
    ensures EntriesPerBatch(m, targetEntriesPerBatch).gyroEntriesPerBatch
            == TruncDiv(targetEntriesPerBatch, 2)
  {
    assert Ratio(m) == 1.0;
  }

  /**
   * At the default target of 10000 entries and the default rates, each batch
   * aims at 5000 gyroscope and 5000 accelerometer entries, and a gyroscope
   * stream that can fill that quota makes every full batch 5000 samples long.
   */
  lemma DefaultTargetWithDefaultRates(m: WorkoutMotionData)
    requires m.accelerometerRate == DefaultRate && m.gyroscopeRate == DefaultRate
    ensures CanBatch(m) && EntriesPerBatch(m, DefaultTargetEntriesPerBatch) == Quotas(5000, 5000)
    ensures |m.gyroscopeSnapshots| >= 5000 ==> PlanOf(m, DefaultTargetEntriesPerBatch).flushSize == 5000
  {
    DefaultRatesHalveTarget(m, DefaultTargetEntriesPerBatch);
    AgreesWithEuclid(DefaultTargetEntriesPerBatch, 2);
  }

  // ---------------------------------------------------------------------
  // Count-based batching: the specification
  // ---------------------------------------------------------------------

  /**
   * How the splitter cuts the accelerometer stream: a batch is flushed when
   * it holds `flushSize` accelerometer samples, and it takes up to
   * `gyroTake` gyroscope samples.
   */
  datatype BatchPlan = BatchPlan(flushSize: int, gyroTake: nat)

  /**
   * The plan the quotas lead to. When the gyroscope stream cannot fill a
   * positive gyroscope quota the flush test never holds, and the flush size
   * exceeds the whole accelerometer stream.
   */
  function PlanFor(q: Quotas, accelTotal: nat, gyroTotal: nat): (p: BatchPlan)
    ensures 1 <= p.flushSize
  {
    var take := Max(q.gyroEntriesPerBatch, 0);
    if gyroTotal >= q.gyroEntriesPerBatch then
      BatchPlan(Max(Max(q.accelEntriesPerBatch, q.gyroEntriesPerBatch), 1), take)
    else
      BatchPlan(accelTotal + 1, take)
  }

  function PlanOf(m: WorkoutMotionData, targetEntriesPerBatch: int): (p: BatchPlan)
    requires CanBatch(m)
    ensures 1 <= p.flushSize
  {
    PlanFor(EntriesPerBatch(m, targetEntriesPerBatch),
            |m.accelerometerSnapshots|, |m.gyroscopeSnapshots|)
  }

  /**
   * The batch built around a run of accelerometer samples: the gyroscope
   * samples are read from index 0 again, one per accelerometer sample, up to
   * the plan's take and the stream's length.
   */
  function BatchOf(m: WorkoutMotionData, p: BatchPlan, chunk: seq<AccelerometerSnapshot>): WorkoutMotionData
  {
    var gyroCount := Min(Min(|chunk|, p.gyroTake), |m.gyroscopeSnapshots|);
    WorkoutMotionData(chunk, m.gyroscopeSnapshots[..gyroCount], m.accelerometerRate, m.gyroscopeRate)
  }

  /** Cuts `rest` into runs of `flushSize` samples (the last may be shorter). */
  function Split(m: WorkoutMotionData, p: BatchPlan, rest: seq<AccelerometerSnapshot>): seq<WorkoutMotionData>
    requires 1 <= p.flushSize
    decreases |rest|
  {
    if rest == [] then []
    else
      var n := Min(|rest|, p.flushSize);
      [BatchOf(m, p, rest[..n])] + Split(m, p, rest[n..])
  }

  /** The batches `batchByDataRate` returns. */
  function Batches(m: WorkoutMotionData, targetEntriesPerBatch: int): seq<WorkoutMotionData>
    requires CanBatch(m)
  {
    Split(m, PlanOf(m, targetEntriesPerBatch), m.accelerometerSnapshots)
  }

  /**
   * The batches' accelerometer samples in batch order; the detail view's
   * `JoinAccelerometer` is the same concatenation over saved batches.
   */
  function FlattenAccelerometer(batches: seq<WorkoutMotionData>): seq<AccelerometerSnapshot>
  {
    if batches == [] then [] else batches[0].accelerometerSnapshots + FlattenAccelerometer(batches[1..])
  }

  /** The batches' gyroscope samples in batch order (`JoinGyroscope` over saved batches). */
  function FlattenGyroscope(batches: seq<WorkoutMotionData>): seq<GyroscopeSnapshot>
  {
    if batches == [] then [] else batches[0].gyroscopeSnapshots + FlattenGyroscope(batches[1..])
  }

  // ---------------------------------------------------------------------
  // Count-based batching: the loop
  // ---------------------------------------------------------------------

  /**
   * The loop's flush test (both counters at their quotas) holds exactly when
   * the open batch has reached the plan's flush size, given that the
   * gyroscope counter has followed the accelerometer counter up to the take
   * and the stream's length.
   */
  lemma {:induction false} FlushConditionAtSize(q: Quotas, accelTotal: nat, gyroTotal: nat,
                                                accelCount: int, gyroCount: int)
    requires 1 <= accelCount <= accelTotal
    requires gyroCount == Min(Min(accelCount, PlanFor(q, accelTotal, gyroTotal).gyroTake), gyroTotal)
    ensures (accelCount >= q.accelEntriesPerBatch && gyroCount >= q.gyroEntriesPerBatch)
            <==> accelCount >= PlanFor(q, accelTotal, gyroTotal).flushSize
  {
  }

  /** Appending one more run after `runs` whole runs appends one batch. */
  lemma {:induction false} SplitAppend(m: WorkoutMotionData, p: BatchPlan, runs: nat,
                                       done: seq<AccelerometerSnapshot>, chunk: seq<AccelerometerSnapshot>)
    requires 1 <= p.flushSize
    requires |done| == runs * p.flushSize
    requires 1 <= |chunk| <= p.flushSize
    ensures Split(m, p, done + chunk) == Split(m, p, done) + [BatchOf(m, p, chunk)]
    decreases runs
  {
    var size := p.flushSize;
    if runs == 0 {
      assert done == [];
      assert done + chunk == chunk;
      assert chunk[..|chunk|] == chunk;
      assert chunk[|chunk|..] == [];
    } else {
      assert |done| >= size by {
        assert runs * size == (runs - 1) * size + size;
      }
      assert (done + chunk)[..size] == done[..size];
      assert (done + chunk)[size..] == done[size..] + chunk;
      assert |done[size..]| == (runs - 1) * size;
      SplitAppend(m, p, runs - 1, done[size..], chunk);
    }
  }

  /**
   * The state of the walk after the accelerometer samples before index `i`:
   * `runs` full batches of `flushed` samples are out, and the open batch holds
   * the rest, with the gyroscope prefix its counter has reached.
   */
  ghost predicate Walked(m: WorkoutMotionData, p: BatchPlan, i: int, flushed: int, runs: nat,
                         batches: seq<WorkoutMotionData>,
                         current: seq<AccelerometerSnapshot>, currentGyro: seq<GyroscopeSnapshot>,
                         accelCount: int, gyroCount: int)
  {
    1 <= p.flushSize &&
    0 <= flushed <= i <= |m.accelerometerSnapshots| &&
    flushed == runs * p.flushSize &&
    current == m.accelerometerSnapshots[flushed..i] &&
    accelCount == |current| <= p.flushSize &&
    gyroCount == Min(Min(accelCount, p.gyroTake), |m.gyroscopeSnapshots|) &&
    currentGyro == m.gyroscopeSnapshots[..gyroCount] &&
    batches == Split(m, p, m.accelerometerSnapshots[..flushed])
  }

  /**
   * Taking accelerometer sample `i` into a batch that is not full, together
   * with the gyroscope sample at the batch's counter when that counter is
   * below the quota and the stream's length; the flush test then holds
   * exactly when the batch has become full.
   */
  lemma {:induction false} TakeSample(m: WorkoutMotionData, q: Quotas, i: int, flushed: int, runs: nat,
                                      batches: seq<WorkoutMotionData>,
                                      current: seq<AccelerometerSnapshot>, currentGyro: seq<GyroscopeSnapshot>,
                                      accelCount: int, gyroCount: int)
    requires i < |m.accelerometerSnapshots|
    requires Walked(m, PlanFor(q, |m.accelerometerSnapshots|, |m.gyroscopeSnapshots|), i, flushed, runs,
                    batches, current, currentGyro, accelCount, gyroCount)
    requires accelCount < PlanFor(q, |m.accelerometerSnapshots|, |m.gyroscopeSnapshots|).flushSize
    ensures var takesGyro := gyroCount < q.gyroEntriesPerBatch && gyroCount < |m.gyroscopeSnapshots|;
            var gyro' := if takesGyro then currentGyro + [m.gyroscopeSnapshots[gyroCount]] else currentGyro;
            var gyroCount' := if takesGyro then gyroCount + 1 else gyroCount;
            Walked(m, PlanFor(q, |m.accelerometerSnapshots|, |m.gyroscopeSnapshots|), i + 1, flushed, runs,
                   batches, current + [m.accelerometerSnapshots[i]], gyro', accelCount + 1, gyroCount') &&
            ((accelCount + 1 >= q.accelEntriesPerBatch && gyroCount' >= q.gyroEntriesPerBatch)
             <==> accelCount + 1 == PlanFor(q, |m.accelerometerSnapshots|, |m.gyroscopeSnapshots|).flushSize)
  {
    var a, g := m.accelerometerSnapshots, m.gyroscopeSnapshots;
    assert current + [a[i]] == a[flushed..i + 1];
    var takesGyro := gyroCount < q.gyroEntriesPerBatch && gyroCount < |g|;
    if takesGyro {
      assert currentGyro + [g[gyroCount]] == g[..gyroCount + 1];
    }
    FlushConditionAtSize(q, |a|, |g|, accelCount + 1, if takesGyro then gyroCount + 1 else gyroCount);
  }

  /** Flushing a full batch closes one more run and opens an empty batch. */
  lemma {:induction false} FlushBatch(m: WorkoutMotionData, p: BatchPlan, i: int, flushed: int, runs: nat,
                                      batches: seq<WorkoutMotionData>,
                                      current: seq<AccelerometerSnapshot>, currentGyro: seq<GyroscopeSnapshot>,
                                      accelCount: int, gyroCount: int)
    requires Walked(m, p, i, flushed, runs, batches, current, currentGyro, accelCount, gyroCount)
    requires accelCount == p.flushSize
    ensures Walked(m, p, i, i, runs + 1,
                   batches + [WorkoutMotionData(current, currentGyro, m.accelerometerRate, m.gyroscopeRate)],
                   [], [], 0, 0)
  {
    var a := m.accelerometerSnapshots;
    assert a[..i] == a[..flushed] + a[flushed..i];
    SplitAppend(m, p, runs, a[..flushed], a[flushed..i]);
    assert i == (runs + 1) * p.flushSize;
    assert a[i..i] == [];
    assert m.gyroscopeSnapshots[..0] == [];
  }

  /** After the last sample, flushing a non-empty open batch completes the split. */
  lemma {:induction false} FinishWalk(m: WorkoutMotionData, p: BatchPlan, flushed: int, runs: nat,
                                      batches: seq<WorkoutMotionData>,
                                      current: seq<AccelerometerSnapshot>, currentGyro: seq<GyroscopeSnapshot>,
                                      accelCount: int, gyroCount: int)
    requires Walked(m, p, |m.accelerometerSnapshots|, flushed, runs, batches, current, currentGyro,
                    accelCount, gyroCount)
    ensures current != [] || currentGyro != [] ==>
              batches + [WorkoutMotionData(current, currentGyro, m.accelerometerRate, m.gyroscopeRate)]
              == Split(m, p, m.accelerometerSnapshots)
    ensures current == [] && currentGyro == [] ==> batches == Split(m, p, m.accelerometerSnapshots)
  {
    var a := m.accelerometerSnapshots;
    assert a[..|a|] == a;
    if current != [] || currentGyro != [] {
      assert current != [];
      assert a == a[..flushed] + a[flushed..];
      SplitAppend(m, p, runs, a[..flushed], a[flushed..]);
    }
  }

  /**
   * `batchByDataRate`: walks the accelerometer samples once, pairing each
   * with the gyroscope sample at the batch's own counter while that counter
   * is below both the gyroscope quota and the stream's length; flushes the
   * batch when both counters reach their quotas, and flushes what is left
   * at the end.
   */
  method BatchByDataRate(m: WorkoutMotionData, targetEntriesPerBatch: int)
    returns (batches: seq<WorkoutMotionData>)
    requires CanBatch(m)
    ensures batches == Batches(m, targetEntriesPerBatch)
  {
    var accelerometerSnapshots := m.accelerometerSnapshots;
    var gyroscopeSnapshots := m.gyroscopeSnapshots;
    batches := [];
    var currentBatchAccelerometerSnapshots: seq<AccelerometerSnapshot> := [];
    var currentBatchGyroscopeSnapshots: seq<GyroscopeSnapshot> := [];

    var quotas := EntriesPerBatch(m, targetEntriesPerBatch);
    var gyroEntriesPerBatch := quotas.gyroEntriesPerBatch;
    var accelEntriesPerBatch := quotas.accelEntriesPerBatch;

    var accelCount := 0;
    var gyroCount := 0;

    ghost var plan := PlanFor(quotas, |accelerometerSnapshots|, |gyroscopeSnapshots|);
    ghost var flushed := 0;  // accelerometer samples already in `batches`
    ghost var runs := 0;     // and the number of those batches
    assert accelerometerSnapshots[..0] == [] && accelerometerSnapshots[0..0] == [];
    assert gyroscopeSnapshots[..0] == [];

    for accelIndex := 0 to |accelerometerSnapshots|
      invariant Walked(m, plan, accelIndex, flushed, runs, batches, currentBatchAccelerometerSnapshots,
                       currentBatchGyroscopeSnapshots, accelCount, gyroCount)
      invariant accelCount < plan.flushSize
    {
      TakeSample(m, quotas, accelIndex, flushed, runs, batches, currentBatchAccelerometerSnapshots,
                 currentBatchGyroscopeSnapshots, accelCount, gyroCount);
      var accelSnapshot := accelerometerSnapshots[accelIndex];
      currentBatchAccelerometerSnapshots := currentBatchAccelerometerSnapshots + [accelSnapshot];
      accelCount := accelCount + 1;

      if gyroCount < gyroEntriesPerBatch && gyroCount < |gyroscopeSnapshots| {
        currentBatchGyroscopeSnapshots := currentBatchGyroscopeSnapshots + [gyroscopeSnapshots[gyroCount]];
        gyroCount := gyroCount + 1;
      }

      if accelCount >= accelEntriesPerBatch && gyroCount >= gyroEntriesPerBatch {
        FlushBatch(m, plan, accelIndex + 1, flushed, runs, batches, currentBatchAccelerometerSnapshots,
                   currentBatchGyroscopeSnapshots, accelCount, gyroCount);
        var newBatch := WorkoutMotionData(currentBatchAccelerometerSnapshots, currentBatchGyroscopeSnapshots,
                                          m.accelerometerRate, m.gyroscopeRate);
        batches := batches + [newBatch];

        currentBatchAccelerometerSnapshots := [];
        currentBatchGyroscopeSnapshots := [];
        accelCount := 0;
        gyroCount := 0;
        flushed := accelIndex + 1;
        runs := runs + 1;
      }
    }

    FinishWalk(m, plan, flushed, runs, batches, currentBatchAccelerometerSnapshots,
               currentBatchGyroscopeSnapshots, accelCount, gyroCount);
    if !(currentBatchAccelerometerSnapshots == []) || !(currentBatchGyroscopeSnapshots == []) {
      var finalBatch := WorkoutMotionData(currentBatchAccelerometerSnapshots, currentBatchGyroscopeSnapshots,
                                          m.accelerometerRate, m.gyroscopeRate);
      batches := batches + [finalBatch];
    }
  }

  // ---------------------------------------------------------------------
  // Count-based batching: properties
  // ---------------------------------------------------------------------

  lemma {:induction false} SplitFlattens(m: WorkoutMotionData, p: BatchPlan, rest: seq<AccelerometerSnapshot>)
    requires 1 <= p.flushSize
    ensures FlattenAccelerometer(Split(m, p, rest)) == rest
    decreases |rest|
  {
    if rest != [] {
      var n := Min(|rest|, p.flushSize);
      var batches := Split(m, p, rest);
      assert batches[1..] == Split(m, p, rest[n..]);
      SplitFlattens(m, p, rest[n..]);
      assert rest == rest[..n] + rest[n..];
    }
  }

  /**
   * Concatenating the batches' accelerometer samples in order gives back the
   * input stream: nothing dropped, duplicated or reordered.
   */
  lemma AccelerometerRoundTrip(m: WorkoutMotionData, targetEntriesPerBatch: int)
    requires CanBatch(m)
    ensures FlattenAccelerometer(Batches(m, targetEntriesPerBatch)) == m.accelerometerSnapshots
  {
    SplitFlattens(m, PlanOf(m, targetEntriesPerBatch), m.accelerometerSnapshots);
  }

  lemma {:induction false} SplitShape(m: WorkoutMotionData, p: BatchPlan, rest: seq<AccelerometerSnapshot>)
    requires 1 <= p.flushSize
    ensures forall k :: 0 <= k < |Split(m, p, rest)| ==>
              Split(m, p, rest)[k] == BatchOf(m, p, Split(m, p, rest)[k].accelerometerSnapshots) &&
              1 <= |Split(m, p, rest)[k].accelerometerSnapshots| <= p.flushSize
    ensures forall k :: 0 <= k < |Split(m, p, rest)| - 1 ==>
              |Split(m, p, rest)[k].accelerometerSnapshots| == p.flushSize
    decreases |rest|
  {
    if rest != [] {
      var n := Min(|rest|, p.flushSize);
      SplitShape(m, p, rest[n..]);
      var bs := Split(m, p, rest);
      assert bs[1..] == Split(m, p, rest[n..]);
      forall k | 1 <= k < |bs|
        ensures bs[k] == bs[1..][k - 1]
      {
      }
    }
  }

  /**
   * Every batch is non-empty on the accelerometer side, carries the parent's
   * rates unchanged, and holds as gyroscope samples the prefix of the whole
   * gyroscope stream of length min(|batch accelerometer|, quota, |stream|):
   * each batch starts reading the gyroscope stream at index 0 again.
   */
  lemma BatchesShape(m: WorkoutMotionData, targetEntriesPerBatch: int)
    requires CanBatch(m)
    ensures forall b :: b in Batches(m, targetEntriesPerBatch) ==>
              b.accelerometerSnapshots != [] &&
              b.accelerometerRate == m.accelerometerRate &&
              b.gyroscopeRate == m.gyroscopeRate &&
              b.gyroscopeSnapshots
                == m.gyroscopeSnapshots[..Min(Min(|b.accelerometerSnapshots|,
                                                  Max(EntriesPerBatch(m, targetEntriesPerBatch).gyroEntriesPerBatch, 0)),
                                              |m.gyroscopeSnapshots|)]
  {
    SplitShape(m, PlanOf(m, targetEntriesPerBatch), m.accelerometerSnapshots);
  }

  /**
   * When the gyroscope stream can fill its quota, every batch but the last
   * holds exactly max(accelQuota, gyroQuota, 1) accelerometer samples and
   * exactly max(gyroQuota, 0) gyroscope samples.
   */
  lemma FullBatches(m: WorkoutMotionData, targetEntriesPerBatch: int)
    requires CanBatch(m)
    requires |m.gyroscopeSnapshots| >= EntriesPerBatch(m, targetEntriesPerBatch).gyroEntriesPerBatch
    ensures var q := EntriesPerBatch(m, targetEntriesPerBatch);
            var bs := Batches(m, targetEntriesPerBatch);
            forall k :: 0 <= k < |bs| - 1 ==>
              |bs[k].accelerometerSnapshots| == Max(Max(q.accelEntriesPerBatch, q.gyroEntriesPerBatch), 1) &&
              |bs[k].gyroscopeSnapshots| == Max(q.gyroEntriesPerBatch, 0)
  {
    SplitShape(m, PlanOf(m, targetEntriesPerBatch), m.accelerometerSnapshots);
  }

  lemma {:induction false} SplitCount(m: WorkoutMotionData, p: BatchPlan, rest: seq<AccelerometerSnapshot>)
    requires 1 <= p.flushSize
    ensures (|Split(m, p, rest)| - 1) * p.flushSize < |rest| <= |Split(m, p, rest)| * p.flushSize
    decreases |rest|
  {
    if rest != [] {
      var n := Min(|rest|, p.flushSize);
      SplitCount(m, p, rest[n..]);
      var c := |Split(m, p, rest[n..])|;
      assert |Split(m, p, rest)| == c + 1;
      assert (c + 1) * p.flushSize == c * p.flushSize + p.flushSize;
      if n < p.flushSize {
        assert rest[n..] == [] && c == 0;
      }
    }
  }

  /**
   * The number of batches is |accelerometer| / flushSize rounded up; in
   * particular there is no batch exactly when there is no accelerometer
   * sample, however many gyroscope samples there are.
   */
  lemma BatchCount(m: WorkoutMotionData, targetEntriesPerBatch: int)
    requires CanBatch(m)
    ensures var size := PlanOf(m, targetEntriesPerBatch).flushSize;
            var count := |Batches(m, targetEntriesPerBatch)|;
            (count - 1) * size < |m.accelerometerSnapshots| <= count * size
    ensures |Batches(m, targetEntriesPerBatch)| == 0 <==> m.accelerometerSnapshots == []
  {
    SplitCount(m, PlanOf(m, targetEntriesPerBatch), m.accelerometerSnapshots);
  }

  /**
   * `calculateCombinedBatchDuration`: the seconds a batch of
   * `targetEntriesPerBatch` entries spans at the two sensors' combined rate.
   * Over `Double` a zero combined rate gives an infinity or a NaN instead of
   * trapping; the model answers `None` there.
   */
  function CombinedBatchDuration(m: WorkoutMotionData, targetEntriesPerBatch: int): (r: Option<real>)
    ensures r.None? <==> m.accelerometerRate + m.gyroscopeRate == 0
    ensures r.Some? ==>
              r.value * (m.accelerometerRate + m.gyroscopeRate) as real == targetEntriesPerBatch as real
  {
    var combinedRate := (m.accelerometerRate + m.gyroscopeRate) as real;
    if combinedRate == 0.0 then None else Some(targetEntriesPerBatch as real / combinedRate)
  }

  /** `getNumberOfBatches`: the number of batches `batchByDataRate` returns. */
  method GetNumberOfBatches(m: WorkoutMotionData, targetEntriesPerBatch: int) returns (count: int)
    requires CanBatch(m)
    ensures count == |Batches(m, targetEntriesPerBatch)|
    ensures (count - 1) * PlanOf(m, targetEntriesPerBatch).flushSize < |m.accelerometerSnapshots|
            <= count * PlanOf(m, targetEntriesPerBatch).flushSize
  {
    var batches := BatchByDataRate(m, targetEntriesPerBatch);
    count := |batches|;
    BatchCount(m, targetEntriesPerBatch);
  }

  /**
   * Rates of 50 Hz and 25 Hz share a target of 30 as 10 gyroscope and 20
   * accelerometer entries, and 20 accelerometer with 10 gyroscope samples
   * make exactly one batch holding all of them.
   */
  lemma FiftyAndTwentyFiveHertz(m: WorkoutMotionData)
    requires m.accelerometerRate == 50 && m.gyroscopeRate == 25
    requires |m.accelerometerSnapshots| == 20 && |m.gyroscopeSnapshots| == 10
    ensures CanBatch(m) && EntriesPerBatch(m, 30) == Quotas(10, 20)
    ensures Batches(m, 30) == [m]
  {
    QuotasSplitTarget(m, 30);
    AgreesWithEuclid(30, 3);
    var a, g := m.accelerometerSnapshots, m.gyroscopeSnapshots;
    var p := PlanOf(m, 30);
    assert p == BatchPlan(20, 10);
    assert a[..20] == a && a[20..] == [] && g[..10] == g;
    assert Split(m, p, a) == [BatchOf(m, p, a[..20])] + Split(m, p, a[20..]);
  }

  /**
   * When the gyroscope stream is shorter than a positive quota, the flush
   * test never holds and everything lands in one batch, with the gyroscope
   * samples the accelerometer walk could pair.
   */
  lemma StarvedGyroscopeSingleBatch(m: WorkoutMotionData, targetEntriesPerBatch: int)
    requires CanBatch(m)
    requires |m.gyroscopeSnapshots| < EntriesPerBatch(m, targetEntriesPerBatch).gyroEntriesPerBatch
    ensures |Batches(m, targetEntriesPerBatch)| <= 1
    ensures m.accelerometerSnapshots != [] ==>
              Batches(m, targetEntriesPerBatch)
              == [WorkoutMotionData(m.accelerometerSnapshots,
                                    m.gyroscopeSnapshots[..Min(|m.accelerometerSnapshots|, |m.gyroscopeSnapshots|)],
                                    m.accelerometerRate, m.gyroscopeRate)]
  {
    var a := m.accelerometerSnapshots;
    var p := PlanOf(m, targetEntriesPerBatch);
    assert p.flushSize == |a| + 1;
    if a != [] {
      assert a[..|a|] == a;
      assert a[|a|..] == [];
      assert Split(m, p, a) == [BatchOf(m, p, a)] + Split(m, p, []);
    }
  }
}
