/**
 * The measurement bookkeeping of Benchmark1.java: `usedMB` (heap in use,
 * shifted right by 20 bits), `measure` (one timing and one clamped memory
 * delta per call, appended under the stage label), and `main`'s loop of
 * RUNS repetitions over five stages followed by a report of per-stage
 * medians in first-insertion order.
 *
 * `System.nanoTime()` and `Runtime.totalMemory()/freeMemory()` are inputs:
 * the model receives the readings they return.
 */
module Benchmark {
  import opened Sorting
  import opened Samples
  import opened Arithmetic
  import opened Wrappers

  const LONG_MIN: int := -0x8000_0000_0000_0000
  const LONG_MAX: int := 0x7fff_ffff_ffff_ffff
  const LONG_RANGE: int := 0x1_0000_0000_0000_0000

  /** Java's `long`. */
  type Long = x: int | LONG_MIN <= x <= LONG_MAX

  /** Java `long` arithmetic: the mathematical value reduced into range modulo 2^64. */
  function WrapLong(x: int): (r: Long)
    ensures LONG_MIN <= x <= LONG_MAX ==> r == x
    ensures (x - r) % LONG_RANGE == 0
  {
    (x - LONG_MIN) % LONG_RANGE + LONG_MIN
  }

  function Pow2(n: nat): (p: nat)
    ensures p > 0
  {
    if n == 0 then 1 else 2 * Pow2(n - 1)
  }

  /** `x >> n` on a long: an arithmetic shift, which halves (rounding down) once per bit. */
  function ShiftRight(x: int, n: nat): (r: int)
    decreases n
  {
    if n == 0 then x else ShiftRight(x / 2, n - 1)
  }

  /** The arithmetic shift is floor division by a power of two, also for negative values. */
  lemma {:induction false} ShiftRightIsFloorDivision(x: int, n: nat)
    ensures ShiftRight(x, n) == x / Pow2(n)
    decreases n
  {
    if n > 0 {
      ShiftRightIsFloorDivision(x / 2, n - 1);
      DivideTwice(x, 2, Pow2(n - 1));
    }
  }

  /** The two readings `Runtime` gives, in bytes. */
  datatype HeapReading = HeapReading(totalMemory: Long, freeMemory: Long)

  /** Bounds of a floor division of a long by 2^20. */
  lemma MegabytesOfLong(x: Long)
    ensures LONG_MIN / BYTES_PER_MB <= x / BYTES_PER_MB <= LONG_MAX / BYTES_PER_MB
    ensures 0 <= x ==> 0 <= x / BYTES_PER_MB
    ensures (x / BYTES_PER_MB) * BYTES_PER_MB <= x < (x / BYTES_PER_MB + 1) * BYTES_PER_MB
  {
  }

  lemma {:induction false} Pow2Add(a: nat, b: nat)
    ensures Pow2(a + b) == Pow2(a) * Pow2(b)
    decreases a
  {
    if a > 0 {
      Pow2Add(a - 1, b);
    }
  }

  lemma Pow2Of20()
    ensures Pow2(20) == BYTES_PER_MB
  {
    assert Pow2(5) == 32;
    Pow2Add(5, 5);
    Pow2Add(10, 10);
  }

  /** `usedMB(rt)`: `(rt.totalMemory() - rt.freeMemory()) >> 20`. */
  function UsedMb(rt: HeapReading): (mb: Long)
    ensures LONG_MIN / BYTES_PER_MB <= mb <= LONG_MAX / BYTES_PER_MB
    ensures 0 <= rt.freeMemory <= rt.totalMemory ==>
      0 <= mb && mb * BYTES_PER_MB <= rt.totalMemory - rt.freeMemory < (mb + 1) * BYTES_PER_MB
  {
    var used := WrapLong(rt.totalMemory - rt.freeMemory);
    ShiftRightIsFloorDivision(used, 20);
    Pow2Of20();
    MegabytesOfLong(used);
    ShiftRight(used, 20)
  }

  /** `t1 - t0` on two `System.nanoTime()` readings: a long subtraction, exact unless it overflows. */
  function ElapsedNs(t0: Long, t1: Long): (ns: Long)
    ensures LONG_MIN <= t1 - t0 <= LONG_MAX ==> ns == t1 - t0
    ensures (t1 - t0 - ns) % LONG_RANGE == 0
  {
    WrapLong(t1 - t0)
  }

  /** `Math.max(usedMB(rt) - memBefore, 0)`: growth of the heap in use, never negative. */
  function MemDelta(before: HeapReading, after: HeapReading): (delta: Long)
    ensures delta >= 0
    ensures delta == if UsedMb(after) >= UsedMb(before) then UsedMb(after) - UsedMb(before) else 0
  {
    var grown := WrapLong(UsedMb(after) - UsedMb(before));
    if grown > 0 then grown else 0
  }

  /**
   * `measure(label, timesNs, memDeltasMB, block)`. The heap is read
   * (`before`) and the clock is read (`t0`), then the block runs: `block`
   * is the outcome of `block.get()`, its value or the exception it throws.
   * When it throws, the exception leaves `measure` before anything is
   * recorded. Otherwise the clock (`t1`) and the heap (`after`) are read
   * again, one timing goes to `timesNs` and one memory delta to
   * `memDeltasMb`, both under `stage`, and the block's value is returned
   * unchanged.
   */
  method Measure<T, E>(stage: string, timesNs: SampleMap, memDeltasMb: SampleMap,
                       before: HeapReading, t0: Long, block: Result<T, E>, t1: Long, after: HeapReading)
    returns (result: Result<T, E>)
    requires timesNs.Valid() && memDeltasMb.Valid()
    modifies timesNs, memDeltasMb
    ensures timesNs.Valid() && memDeltasMb.Valid()
    ensures result == block
    ensures block.Err? ==> unchanged(timesNs, memDeltasMb)
    ensures block.Ok? && timesNs != memDeltasMb ==>
      && timesNs.lists == Appended(old(timesNs.lists), stage, ElapsedNs(t0, t1))
      && timesNs.order == OrderAfter(old(timesNs.order), old(timesNs.lists), stage)
      && memDeltasMb.lists == Appended(old(memDeltasMb.lists), stage, MemDelta(before, after))
      && memDeltasMb.order == OrderAfter(old(memDeltasMb.order), old(memDeltasMb.lists), stage)
    ensures block.Ok? && timesNs == memDeltasMb ==>
      && timesNs.lists == Appended(Appended(old(timesNs.lists), stage, ElapsedNs(t0, t1)), stage, MemDelta(before, after))
      && timesNs.order == OrderAfter(old(timesNs.order), old(timesNs.lists), stage)
  {
    var memBefore := UsedMb(before);
    result := block;
    if block.Err? {
      return;
    }
    var deltaMb := WrapLong(UsedMb(after) - memBefore);
    if deltaMb < 0 {
      deltaMb := 0;
    }
    timesNs.Add(stage, ElapsedNs(t0, t1));
    memDeltasMb.Add(stage, deltaMb);
  }

  /** One line of the final table: the stage and its two medians (nanoseconds, megabytes). */
  datatype StageRow = StageRow(stage: string, medianNs: int, medianMb: int)

  /**
   * The body of the report loop for one stage: `median(timingsNs.get(stage))`
   * and `median(memDeltasMB.get(stage))`, each sorting its stored list.
   */
  method ReportLine(timings: SampleMap, memDeltas: SampleMap, stage: string) returns (row: StageRow)
    requires timings != memDeltas && timings.Valid() && memDeltas.Valid()
    requires stage in timings.lists && stage in memDeltas.lists
    modifies timings, memDeltas
    ensures timings.Valid() && memDeltas.Valid()
    ensures timings.order == old(timings.order) && memDeltas.order == old(memDeltas.order)
    ensures timings.lists == old(timings.lists)[stage := SortedSeq(old(timings.lists)[stage])]
    ensures memDeltas.lists == old(memDeltas.lists)[stage := SortedSeq(old(memDeltas.lists)[stage])]
    ensures row == StageRow(stage, UpperMedian(old(timings.lists)[stage]), UpperMedian(old(memDeltas.lists)[stage]))
  {
    var medianNs := timings.MedianOf(stage);
    var medianMb := memDeltas.MedianOf(stage);
    row := StageRow(stage, medianNs, medianMb);
  }

  /**
   * The report loop of `main`: for each key of `timings`, in insertion
   * order, the median timing and the median memory delta. Each `median`
   * call sorts the stored list it is given.
   */
  method Report(timings: SampleMap, memDeltas: SampleMap) returns (rows: seq<StageRow>)
    requires timings != memDeltas && timings.Valid() && memDeltas.Valid()
    requires timings.lists.Keys <= memDeltas.lists.Keys
    modifies timings, memDeltas
    ensures timings.Valid() && memDeltas.Valid()
    ensures timings.order == old(timings.order) && memDeltas.order == old(memDeltas.order)
    ensures |rows| == |timings.order|
    ensures forall i :: 0 <= i < |rows| ==>
      rows[i] == StageRow(timings.order[i], UpperMedian(old(timings.lists)[timings.order[i]]),
                          UpperMedian(old(memDeltas.lists)[timings.order[i]]))
    ensures timings.lists.Keys == old(timings.lists.Keys)
    ensures forall k :: k in timings.lists ==> timings.lists[k] == SortedSeq(old(timings.lists)[k])
    ensures memDeltas.lists.Keys == old(memDeltas.lists.Keys)
    ensures forall k :: k in memDeltas.lists ==>
      memDeltas.lists[k] == if k in old(timings.lists) then SortedSeq(old(memDeltas.lists)[k]) else old(memDeltas.lists)[k]
  {
    rows := [];
    var stages := timings.order;
    ghost var times0, mems0, memsOrder := timings.lists, memDeltas.lists, memDeltas.order;
    ReportInputsHold(timings, memDeltas);
    var i := 0;
    while i < |stages|
      invariant i <= |stages|
      invariant Reported(timings, memDeltas, times0, mems0, stages, memsOrder, i, rows)
    {
      rows := ReportStep(timings, memDeltas, times0, mems0, stages, memsOrder, i, rows);
      i := i + 1;
    }
    RowsFinished(times0, mems0, stages, rows);
    SortEachFinished(times0, stages, timings.lists);
    SortEachFinished(mems0, stages, memDeltas.lists);
  }

  lemma ReportInputsHold(timings: SampleMap, memDeltas: SampleMap)
    requires timings.Valid() && memDeltas.Valid()
    requires timings.lists.Keys <= memDeltas.lists.Keys
    ensures ReportInputs(timings.lists, memDeltas.lists, timings.order)
  {
  }

  /** The rows of the finished report loop, spelled out. */
  lemma RowsFinished(times0: map<string, seq<int>>, mems0: map<string, seq<int>>, stages: seq<string>, rows: seq<StageRow>)
    requires ReportInputs(times0, mems0, stages)
    requires |rows| == |stages| && forall p :: 0 <= p < |stages| ==> rows[p] == ExpectedRow(times0, mems0, stages[p])
    ensures forall i :: 0 <= i < |rows| ==>
      rows[i] == StageRow(stages[i], UpperMedian(times0[stages[i]]), UpperMedian(mems0[stages[i]]))
  {
  }

  /** `median(timingsNs.get(stage))` and `median(memDeltasMB.get(stage))` on the lists as they were before the report. */
  function ExpectedRow(times0: map<string, seq<int>>, mems0: map<string, seq<int>>, stage: string): StageRow
    requires stage in times0 && stage in mems0 && times0[stage] != [] && mems0[stage] != []
  {
    StageRow(stage, UpperMedian(times0[stage]), UpperMedian(mems0[stage]))
  }

  /** What the report loop starts from: the timing keys in insertion order, each also a memory key, no list empty. */
  ghost predicate ReportInputs(times0: map<string, seq<int>>, mems0: map<string, seq<int>>, stages: seq<string>)
  {
    && (forall p, q :: 0 <= p < q < |stages| ==> stages[p] != stages[q])
    && (forall k :: k in times0 <==> k in stages)
    && times0.Keys <= mems0.Keys
    && (forall k :: k in times0 ==> times0[k] != [])
    && (forall k :: k in mems0 ==> mems0[k] != [])
  }

  /** The state after the report loop has handled the first `i` stages. */
  ghost predicate Reported(timings: SampleMap, memDeltas: SampleMap,
                           times0: map<string, seq<int>>, mems0: map<string, seq<int>>,
                           stages: seq<string>, memsOrder: seq<string>, i: nat, rows: seq<StageRow>)
    reads timings, memDeltas
  {
    && timings != memDeltas && timings.Valid() && memDeltas.Valid()
    && ReportInputs(times0, mems0, stages)
    && i <= |stages| && timings.order == stages && memDeltas.order == memsOrder
    && timings.lists == SortEach(times0, stages[..i])
    && memDeltas.lists == SortEach(mems0, stages[..i])
    && |rows| == i
    && forall p :: 0 <= p < i ==> rows[p] == ExpectedRow(times0, mems0, stages[p])
  }

  /** One iteration of the report loop: the row for `stages[i]`. */
  method ReportStep(timings: SampleMap, memDeltas: SampleMap,
                    ghost times0: map<string, seq<int>>, ghost mems0: map<string, seq<int>>,
                    stages: seq<string>, ghost memsOrder: seq<string>, i: nat, rows: seq<StageRow>)
    returns (rows': seq<StageRow>)
    requires i < |stages| && Reported(timings, memDeltas, times0, mems0, stages, memsOrder, i, rows)
    modifies timings, memDeltas
    ensures Reported(timings, memDeltas, times0, mems0, stages, memsOrder, i + 1, rows')
  {
    var stage := stages[i];
    SortEachNext(times0, stages, i);
    SortEachNext(mems0, stages, i);
    var row := ReportLine(timings, memDeltas, stage);
    rows' := rows + [row];
    RowsExtended(times0, mems0, stages, i, rows, row);
  }

  lemma RowsExtended(times0: map<string, seq<int>>, mems0: map<string, seq<int>>, stages: seq<string>,
                     i: nat, rows: seq<StageRow>, row: StageRow)
    requires ReportInputs(times0, mems0, stages) && i < |stages| && |rows| == i
    requires forall p :: 0 <= p < i ==> rows[p] == ExpectedRow(times0, mems0, stages[p])
    requires row == ExpectedRow(times0, mems0, stages[i])
    ensures forall p :: 0 <= p < i + 1 ==> (rows + [row])[p] == ExpectedRow(times0, mems0, stages[p])
  {
    forall p | 0 <= p < i + 1
      ensures (rows + [row])[p] == ExpectedRow(times0, mems0, stages[p])
    {
      if p < i {
        assert (rows + [row])[p] == rows[p];
      }
    }
  }

  /** `RUNS` in Benchmark1.java. */
  const RUNS: nat := 5

  /** The labels `main` measures, in the order of the calls in its loop body. */
  const STAGES: seq<string> := ["read", "write", "group", "sort", "to_np"]

  /** The labels of STAGES as a set, the key set of both maps after the loop. */
  const STAGE_SET: set<string> := set stage | stage in STAGES

  /** Index of the `measure` call for stage `j` in repetition `run`, counting from 0. */
  function CallIndex(run: nat, j: nat): nat
  {
    |STAGES| * run + j
  }

  /** The timing of each `measure` call: the k-th reads the clock as `clock(2k)` and `clock(2k + 1)`. */
  function Timings(clock: nat -> Long): (sample: nat -> int)
  {
    (k: nat) => ElapsedNs(clock(2 * k), clock(2 * k + 1))
  }

  /** The memory delta of each `measure` call: the k-th reads the heap as `heap(2k)` and `heap(2k + 1)`. */
  function Deltas(heap: nat -> HeapReading): (sample: nat -> int)
  {
    (k: nat) => MemDelta(heap(2 * k), heap(2 * k + 1))
  }

  /** The samples recorded for stage `j` over `runs` repetitions, `sample(k)` being the k-th call's. */
  function StageSamples(sample: nat -> int, j: nat, runs: nat): (s: seq<int>)
    ensures |s| == runs
  {
    if runs == 0 then [] else StageSamples(sample, j, runs - 1) + [sample(CallIndex(runs - 1, j))]
  }

  /** A map of sample lists after `runs` full repetitions of the loop body. */
  function SampleLists(sample: nat -> int, runs: nat): map<string, seq<int>>
    decreases runs, |STAGES| + 1
  {
    if runs == 0 then map[] else Partial(sample, runs - 1, |STAGES|)
  }

  /** The lists after the first `j` calls of repetition `run`. */
  function Partial(sample: nat -> int, run: nat, j: nat): map<string, seq<int>>
    requires j <= |STAGES|
    decreases run + 1, j
  {
    if j == 0 then SampleLists(sample, run)
    else Appended(Partial(sample, run, j - 1), STAGES[j - 1], sample(CallIndex(run, j - 1)))
  }

  /** The key order after the first `j` calls of repetition `run`. */
  function PartialOrder(run: nat, j: nat): seq<string>
    requires j <= |STAGES|
  {
    if run == 0 then STAGES[..j] else STAGES
  }

  lemma StagesDistinct(i: nat, j: nat)
    requires i < |STAGES| && j < |STAGES|
    ensures STAGES[i] == STAGES[j] <==> i == j
  {
    assert STAGES[0][0] == 'r' && STAGES[1][0] == 'w' && STAGES[2][0] == 'g';
    assert STAGES[3][0] == 's' && STAGES[4][0] == 't';
  }

  /** Which stages are keys after the first `j` calls of repetition `run`. */
  lemma {:induction false} PartialKeys(sample: nat -> int, run: nat, j: nat)
    requires j <= |STAGES|
    ensures Partial(sample, run, j).Keys <= STAGE_SET
    ensures forall i :: 0 <= i < |STAGES| ==> (STAGES[i] in Partial(sample, run, j) <==> run > 0 || i < j)
    decreases run + 1, j
  {
    if j == 0 {
      if run > 0 {
        PartialKeys(sample, run - 1, |STAGES|);
      }
    } else {
      PartialKeys(sample, run, j - 1);
      forall i | 0 <= i < |STAGES|
        ensures STAGES[i] in Partial(sample, run, j) <==> run > 0 || i < j
      {
        StagesDistinct(i, j - 1);
      }
    }
  }

  /** One `measure` call moves the key order from the state before call `j` to the state after it. */
  lemma OrderStep(sample: nat -> int, run: nat, j: nat)
    requires j < |STAGES|
    ensures OrderAfter(PartialOrder(run, j), Partial(sample, run, j), STAGES[j]) == PartialOrder(run, j + 1)
  {
    PartialKeys(sample, run, j);
    if run == 0 {
      assert STAGES[..j + 1] == STAGES[..j] + [STAGES[j]];
    }
  }

  /** One `measure` call appends the call's elapsed time to the timing lists. */
  lemma TimingStep(clock: nat -> Long, run: nat, j: nat, t0: Long, t1: Long)
    requires j < |STAGES|
    requires t0 == clock(2 * CallIndex(run, j)) && t1 == clock(2 * CallIndex(run, j) + 1)
    ensures Partial(Timings(clock), run, j + 1) == Appended(Partial(Timings(clock), run, j), STAGES[j], ElapsedNs(t0, t1))
  {
    var k := CallIndex(run, j);
    assert Timings(clock)(k) == ElapsedNs(t0, t1);
    assert Partial(Timings(clock), run, j + 1) == Appended(Partial(Timings(clock), run, j), STAGES[j], Timings(clock)(k));
  }

  /** One `measure` call appends the call's memory delta to the memory lists. */
  lemma DeltaStep(heap: nat -> HeapReading, run: nat, j: nat, before: HeapReading, after: HeapReading)
    requires j < |STAGES|
    requires before == heap(2 * CallIndex(run, j)) && after == heap(2 * CallIndex(run, j) + 1)
    ensures Partial(Deltas(heap), run, j + 1) == Appended(Partial(Deltas(heap), run, j), STAGES[j], MemDelta(before, after))
  {
    var k := CallIndex(run, j);
    assert Deltas(heap)(k) == MemDelta(before, after);
    assert Partial(Deltas(heap), run, j + 1) == Appended(Partial(Deltas(heap), run, j), STAGES[j], Deltas(heap)(k));
  }

  /** After `runs` repetitions every stage holds exactly its `runs` samples, in call order. */
  lemma {:induction false} SampleListsAt(sample: nat -> int, runs: nat, i: nat)
    requires i < |STAGES|
    ensures ListOf(SampleLists(sample, runs), STAGES[i]) == StageSamples(sample, i, runs)
    decreases runs, |STAGES| + 1
  {
    if runs > 0 {
      PartialAt(sample, runs - 1, |STAGES|, i);
    }
  }

  /** Within repetition `run`, stage `i` has gained its sample once its call is among the first `j`. */
  lemma {:induction false} PartialAt(sample: nat -> int, run: nat, j: nat, i: nat)
    requires j <= |STAGES| && i < |STAGES|
    ensures ListOf(Partial(sample, run, j), STAGES[i])
         == StageSamples(sample, i, run) + (if i < j then [sample(CallIndex(run, i))] else [])
    decreases run + 1, j
  {
    if j == 0 {
      SampleListsAt(sample, run, i);
    } else {
      PartialAt(sample, run, j - 1, i);
      StagesDistinct(i, j - 1);
    }
  }

  /** Once a repetition has run, the keys are exactly the five stages. */
  lemma SampleListsKeys(sample: nat -> int, runs: nat)
    requires runs > 0
    ensures SampleLists(sample, runs).Keys == STAGE_SET
  {
    PartialKeys(sample, runs - 1, |STAGES|);
    assert STAGE_SET == {STAGES[0], STAGES[1], STAGES[2], STAGES[3], STAGES[4]};
  }

  /** After the RUNS repetitions the keys are the five stages and each holds its samples in call order. */
  lemma SampleListsAfterRuns(sample: nat -> int)
    ensures SampleLists(sample, RUNS).Keys == STAGE_SET
    ensures forall j :: 0 <= j < |STAGES| ==> SampleLists(sample, RUNS)[STAGES[j]] == StageSamples(sample, j, RUNS)
  {
    SampleListsKeys(sample, RUNS);
    forall j | 0 <= j < |STAGES|
      ensures SampleLists(sample, RUNS)[STAGES[j]] == StageSamples(sample, j, RUNS)
    {
      SampleListsAt(sample, RUNS, j);
    }
  }

  /** The first `n` blocks run all return, none of them throws. */
  ghost predicate AllReturn<E>(blocks: nat -> Result<(), E>, n: nat)
  {
    forall k :: 0 <= k < n ==> blocks(k).Ok?
  }

  /** One more block that returns extends AllReturn by one call. */
  lemma AllReturnStep<E>(blocks: nat -> Result<(), E>, n: nat)
    requires AllReturn(blocks, n) && blocks(n).Ok?
    ensures AllReturn(blocks, n + 1)
  {
  }

  /**
   * The measuring loop of `main`: RUNS repetitions of the five `measure`
   * calls, `blocks(k)` being the outcome of the k-th block. The outcome is
   * the first exception a block throws, which ends the loop; when every
   * block returns, both maps list the five labels in call order and hold
   * exactly RUNS samples per label.
   */
  method CollectSamples<E>(clock: nat -> Long, heap: nat -> HeapReading, blocks: nat -> Result<(), E>)
    returns (r: Result<(), E>, timings: SampleMap, memDeltas: SampleMap, ghost failed: nat)
    ensures fresh(timings) && fresh(memDeltas) && timings != memDeltas
    ensures r.Err? ==> failed < |STAGES| * RUNS && AllReturn(blocks, failed) && blocks(failed) == r
    ensures r.Ok? ==>
      && AllReturn(blocks, |STAGES| * RUNS)
      && timings.Valid() && memDeltas.Valid()
      && timings.order == STAGES && memDeltas.order == STAGES
      && timings.lists.Keys == STAGE_SET && memDeltas.lists.Keys == STAGE_SET
      && forall j :: 0 <= j < |STAGES| ==>
        && timings.lists[STAGES[j]] == StageSamples(Timings(clock), j, RUNS)
        && memDeltas.lists[STAGES[j]] == StageSamples(Deltas(heap), j, RUNS)
  {
    timings, memDeltas := NewMaps(clock, heap);
    r, failed := MeasureRuns(clock, heap, blocks, timings, memDeltas);
    SampleListsAfterRuns(Timings(clock));
    SampleListsAfterRuns(Deltas(heap));
  }

  /** The two `LinkedHashMap`s `main` creates before its loop. */
  method NewMaps(clock: nat -> Long, heap: nat -> HeapReading) returns (timings: SampleMap, memDeltas: SampleMap)
    ensures fresh(timings) && fresh(memDeltas)
    ensures Recorded(clock, heap, 0, 0, timings, memDeltas)
  {
    timings := new SampleMap();
    memDeltas := new SampleMap();
  }

  /** The loop of `main`: RUNS repetitions of the five calls, left by the first exception. */
  method MeasureRuns<E>(clock: nat -> Long, heap: nat -> HeapReading, blocks: nat -> Result<(), E>,
                        timings: SampleMap, memDeltas: SampleMap)
    returns (r: Result<(), E>, ghost failed: nat)
    requires Recorded(clock, heap, 0, 0, timings, memDeltas)
    modifies timings, memDeltas
    ensures r.Err? ==> failed < CallIndex(RUNS, 0) && AllReturn(blocks, failed) && blocks(failed) == r
    ensures r.Ok? ==> AllReturn(blocks, CallIndex(RUNS, 0)) && Recorded(clock, heap, RUNS, 0, timings, memDeltas)
  {
    r, failed := Ok(()), 0;
    for run := 0 to RUNS
      invariant r.Ok? && AllReturn(blocks, CallIndex(run, 0))
      invariant Recorded(clock, heap, run, 0, timings, memDeltas)
    {
      r, failed := MeasureRun(clock, heap, blocks, run, 0, timings, memDeltas);
      if r.Err? {
        return;
      }
    }
  }

  /**
   * The two maps after the first `j` calls of repetition `run`: distinct,
   * well formed, and holding what those calls recorded.
   */
  ghost predicate Recorded(clock: nat -> Long, heap: nat -> HeapReading, run: nat, j: nat,
                           timings: SampleMap, memDeltas: SampleMap)
    reads timings, memDeltas
  {
    && j <= |STAGES|
    && timings != memDeltas && timings.Valid() && memDeltas.Valid()
    && timings.lists == Partial(Timings(clock), run, j)
    && memDeltas.lists == Partial(Deltas(heap), run, j)
    && timings.order == PartialOrder(run, j)
    && memDeltas.order == PartialOrder(run, j)
  }

  /**
   * The `measure` calls of repetition `run` from stage `j` on, in order,
   * left by the first exception; `failed` is the index of the call whose
   * block threw.
   */
  method MeasureRun<E>(clock: nat -> Long, heap: nat -> HeapReading, blocks: nat -> Result<(), E>, run: nat, j: nat,
                       timings: SampleMap, memDeltas: SampleMap)
    returns (r: Result<(), E>, ghost failed: nat)
    requires j <= |STAGES| && Recorded(clock, heap, run, j, timings, memDeltas) && AllReturn(blocks, CallIndex(run, j))
    modifies timings, memDeltas
    ensures r.Err? ==> CallIndex(run, j) <= failed < CallIndex(run + 1, 0) && AllReturn(blocks, failed) && blocks(failed) == r
    ensures r.Ok? ==> AllReturn(blocks, CallIndex(run + 1, 0)) && Recorded(clock, heap, run + 1, 0, timings, memDeltas)
    decreases |STAGES| - j
  {
    if j == |STAGES| {
      assert CallIndex(run, |STAGES|) == CallIndex(run + 1, 0);
      return Ok(()), 0;
    }
    r := MeasureCall(clock, heap, blocks, run, j, timings, memDeltas);
    if r.Err? {
      failed := CallIndex(run, j);
      return;
    }
    AllReturnStep(blocks, CallIndex(run, j));
    assert CallIndex(run, j) + 1 == CallIndex(run, j + 1);
    r, failed := MeasureRun(clock, heap, blocks, run, j + 1, timings, memDeltas);
  }

  /**
   * The `measure` call for stage `j` of repetition `run`, reading the clock
   * and the heap at that call's indices; it records its samples when its
   * block returns and leaves both maps as they were when the block throws.
   */
  method MeasureCall<E>(clock: nat -> Long, heap: nat -> HeapReading, blocks: nat -> Result<(), E>,
                        run: nat, j: nat, timings: SampleMap, memDeltas: SampleMap)
    returns (r: Result<(), E>)
    requires j < |STAGES| && Recorded(clock, heap, run, j, timings, memDeltas)
    modifies timings, memDeltas
    ensures r == blocks(CallIndex(run, j))
    ensures r.Ok? ==> Recorded(clock, heap, run, j + 1, timings, memDeltas)
    ensures r.Err? ==> unchanged(timings, memDeltas)
  {
    var k := CallIndex(run, j);
    var before, t0, t1, after := heap(2 * k), clock(2 * k), clock(2 * k + 1), heap(2 * k + 1);
    TimingStep(clock, run, j, t0, t1);
    DeltaStep(heap, run, j, before, after);
    OrderStep(Timings(clock), run, j);
    OrderStep(Deltas(heap), run, j);
    r := Measure(STAGES[j], timings, memDeltas, before, t0, blocks(k), t1, after);
  }

  /** Every recorded memory delta is non-negative. */
  lemma {:induction false} DeltaSamplesNonNegative(heap: nat -> HeapReading, j: nat, runs: nat)
    ensures forall p :: 0 <= p < runs ==> StageSamples(Deltas(heap), j, runs)[p] >= 0
  {
    if runs > 0 {
      DeltaSamplesNonNegative(heap, j, runs - 1);
      assert Deltas(heap)(CallIndex(runs - 1, j)) == MemDelta(heap(2 * CallIndex(runs - 1, j)), heap(2 * CallIndex(runs - 1, j) + 1));
    }
  }

  /** The median memory delta that `main` reports for a stage is non-negative. */
  lemma MedianDeltaNonNegative(heap: nat -> HeapReading, j: nat)
    ensures UpperMedian(StageSamples(Deltas(heap), j, RUNS)) >= 0
  {
    var s := StageSamples(Deltas(heap), j, RUNS);
    DeltaSamplesNonNegative(heap, j, RUNS);
    UpperMedianIsSample(s);
    assert UpperMedian(s) in s;
  }

  /**
   * `main` without the engine calls and the printing. When a block throws,
   * the exception leaves `main` and no report is printed; otherwise the
   * rows of the median table.
   */
  method RunBenchmark<E>(clock: nat -> Long, heap: nat -> HeapReading, blocks: nat -> Result<(), E>)
    returns (r: Result<seq<StageRow>, E>)
    ensures r.Ok? <==> forall k :: 0 <= k < |STAGES| * RUNS ==> blocks(k).Ok?
    ensures r.Err? ==>
      exists k :: 0 <= k < |STAGES| * RUNS && blocks(k) == Err(r.error) && forall i :: 0 <= i < k ==> blocks(i).Ok?
    ensures r.Ok? ==>
      && |r.value| == |STAGES|
      && (forall j :: 0 <= j < |STAGES| ==>
            r.value[j] == StageRow(STAGES[j], UpperMedian(StageSamples(Timings(clock), j, RUNS)),
                                   UpperMedian(StageSamples(Deltas(heap), j, RUNS))))
      && forall j :: 0 <= j < |STAGES| ==> r.value[j].medianMb >= 0
  {
    var outcome, timings, memDeltas, failed := CollectSamples(clock, heap, blocks);
    if outcome.Err? {
      return Err(outcome.error);
    }
    var rows := Report(timings, memDeltas);
    forall j | 0 <= j < |STAGES|
      ensures UpperMedian(StageSamples(Deltas(heap), j, RUNS)) >= 0
    {
      MedianDeltaNonNegative(heap, j);
    }
    r := Ok(rows);
  }

  /** The read stage throws in the first repetition (its CSV file is missing, say): nothing is reported. */
  method ReadFailsFirst() returns (r: Result<seq<StageRow>, string>)
    ensures r == Err("file not found")
  {
    var blocks: nat -> Result<(), string> := k => if k == 0 then Err("file not found") else Ok(());
    r := RunBenchmark(k => 0, k => HeapReading(0, 0), blocks);
    assert blocks(0).Err?;
    ghost var k: nat :| k < |STAGES| * RUNS && blocks(k) == Err(r.error) && forall i: nat :: i < k ==> blocks(i).Ok?;
    assert k == 0;
  }
}
