# Measurement bookkeeping of a dataframe benchmark harness

The repository benchmarks dataframe engines (Polars in Rust, Tablesaw in
Java, datatable in Python). It also measures time and memory around each
engine call. This project models that measurement bookkeeping and proves
properties of it. The engines, the files and the operating system are
reduced to the values they hand back.

- **Trial runner** (`time_operation` in `updated.rs`). A fallible operation
  is called `trials` times in a row, with one duration recorded per call.
  The first failure aborts the run. Only the last result is kept. The
  average is the sum of the durations divided by `trials as u32`.
  `TrialRunner` models this: the operation is a function from call index to
  `Ok`/`Err`, and the clock is a function from call index to elapsed
  nanoseconds. A panic becomes an error value (`TrialError`).
- **Memory snapshot** (`get_memory_metrics`, `print_ram` in `updated.rs`).
  The optional counters record returned by the operating system is
  converted to whole megabytes, or to all zeros when the query fails.
  `Memory` models this as pure functions.
- **Per-stage samples and medians** (`measure`, `usedMB`, `median` and
  `main` in `Benchmark1.java`).
  - `Samples.SampleMap` is the `LinkedHashMap<String, List<Long>>`. It is a
    class holding a map from label to list and the labels in insertion
    order.
  - `Sorting` holds the in-place sort on an array behind `median`. It is
    proved against `SortedSeq`, a reference sort on sequences.
  - `Benchmark` covers the rest:
    - Java `long` arithmetic, with the wrap-around of `t1 - t0` written out.
    - The `>> 20` shift, proved to be floor division by 2^20.
    - `measure` itself, whose block either returns or throws.
    - The RUNS × five-stage loop of `main`, which the first exception
      leaves before anything is reported.
    - The report loop, which visits the labels in first-insertion order.
- `Wrappers` holds the `Option` and `Result` datatypes.
- `Arithmetic` holds the byte-to-megabyte constant and the lemma that two
  successive floor divisions are one, used by both `ToMb` and the shift.

## Model

| member | source | states |
|---|---|---|
| Arithmetic.DivideTwice | updated.rs:33-36 | dividing (rounding down) by a and then by b is dividing by a·b, for negative numbers too; both byte-to-megabyte conversions rest on it |
| Memory.ToMb | updated.rs:33-36 | `x / 1024 / 1024` equals floor(x / 2^20): the number of whole megabytes in the counter |
| Memory.GetMemoryMetrics | updated.rs:20-47 | on a successful query each of the four fields is the whole-megabyte count of its own counter in the one record; on a failed query all four are 0 and no error is surfaced |
| Memory.QuickSample | updated.rs:59-64 | the quick report shows working set and private usage, both floor(bytes / 2^20) from the same single sample, or (0, 0) when the query fails |
| TrialRunner.Sum | updated.rs:81 | definition: the total of the recorded durations, `durations.iter().sum()`, without overflow. Its bounds |ds|·Min ≤ Sum ≤ |ds|·Max are the contracts of SumAtLeast and SumAtMost |
| TrialRunner.AverageAsWritten | updated.rs:81 | `sum / trials as u32`: the division panics exactly when `trials` is a multiple of 2^32. Otherwise the result q is the floor of the sum over the truncated divisor d, q·d ≤ sum < (q+1)·d. AverageAsWrittenIsFloorMean and WrappedDivisorCounterexample compare it with the mean over all trials |
| TrialRunner.FloorMean | updated.rs:81 | the intended average `avg` satisfies avg·n ≤ sum < (avg+1)·n, the floor of the mean |
| TrialRunner.FloorMeanWithinRange | updated.rs:81 | the floor mean lies between the smallest and the largest recorded duration |
| TrialRunner.AverageAsWrittenIsFloorMean | updated.rs:81 | for 1 ≤ trials < 2^32 the source's average is exactly the floor mean of all durations |
| TrialRunner.WrappedDivisorCounterexample | updated.rs:81 | with 2^32 + 1 one-nanosecond trials the reported average is 2^32 + 1 ns, above every recorded duration |
| TrialRunner.TimeOperation | updated.rs:67-85 | at most `trials` calls, made in order. Duration i is the i-th call's elapsed time. The first error aborts the run at once and is reported with its call index. On success the result is the last call's value, the average is the one the source computes, and for trials < 2^32 it is the floor mean. The run succeeds iff every call succeeds and `trials as u32` ≠ 0 |
| TrialRunner.TenMillisecondsThreeTrials | updated.rs:74-84 | three successful 10 ms calls, each returning its call index, give the last call's value (2) and an average of exactly 10 ms |
| TrialRunner.FailureOnSecondCall | updated.rs:76 | a failure on the second call stops the run after two calls and surfaces that error |
| TrialRunner.ZeroTrials | updated.rs:74-84 | with zero trials the operation is never called and the division by zero is the outcome |
| Sorting.SortedSeq | Benchmark1.java:121 | what `Collections.sort` leaves: sorted, a permutation of the input, same length |
| Sorting.UpperMedian | Benchmark1.java:122 | definition: the element at index `size / 2` of the sorted list. That it is a sample, bounded by the two halves, is proved in UpperMedianIsSample |
| Sorting.SortedUnique | Benchmark1.java:121 | two sorted sequences with the same elements are equal, so the sorted result is unique |
| Sorting.SortedPermutationIsSortedSeq | Benchmark1.java:121 | every sorted permutation of a list is SortedSeq of it |
| Sorting.InsertLast | Benchmark1.java:121 | one insertion pass extends the sorted prefix by one element, keeps the element multiset and leaves the suffix alone |
| Sorting.SortInPlace | Benchmark1.java:121 | sorting the array in place leaves exactly SortedSeq of its old contents |
| Sorting.Median | Benchmark1.java:120-123 | the array ends up sorted (SortedSeq of its old contents) and the result is its element at `size / 2`, the upper median |
| Sorting.SortIdempotent | Benchmark1.java:120-123 | sorting a sorted list changes nothing, so a second `median` on the stored list returns the same value |
| Sorting.UpperMedianIsSample | Benchmark1.java:122 | the median is one of the samples, with the lower half of the sorted list no larger and the upper half no smaller |
| Sorting.UpperMedianOfPermutation | Benchmark1.java:120-123 | the median depends only on the samples, not on the order in which they were recorded |
| Samples.Appended | Benchmark1.java:110-111 | definition: `computeIfAbsent(label, k -> new ArrayList<>()).add(x)` on the abstract map, the stored list (or a new empty one) with x appended. Its effect is spelled out in AppendedChangesOneList |
| Samples.AppendedChangesOneList | Benchmark1.java:110-111 | `computeIfAbsent(...).add(x)` adds the label as a key if absent. The label's list keeps its old samples as a prefix and gains exactly one more, x, at the end. Every other list is unchanged |
| Samples.OrderAfter | Benchmark1.java:110-111 | definition: the key order of a LinkedHashMap after `computeIfAbsent(label, ...)`. A new label goes at the end and an existing label keeps its place. The report's `keySet()` traversal (Benchmark1.java:86) relies on it. SampleMap.Add's contract and Benchmark.OrderStep state it on the map and on the loop |
| Samples.SortEach | Benchmark1.java:86-88 | sorting stored lists never adds or removes a label |
| Samples.SortEachAt | Benchmark1.java:86-88 | after `median` has been called on a sequence of labels, a list whose label was visited (any number of times) is the sorted form of its original. A list whose label was not visited is untouched |
| Samples.SortEachNext | Benchmark1.java:86-88 | visiting one more label from a duplicate-free sequence sorts that label's list, which had not been touched before |
| Samples.SortEachFinished | Benchmark1.java:86-88 | once all labels have been visited, exactly the visited lists are sorted and the key set is unchanged |
| Samples.SampleMap.constructor | Benchmark1.java:26-27 | a new map has no labels and no lists |
| Samples.SampleMap.Add | Benchmark1.java:110-111 | appends the sample under the label (creating an empty list only if the label is absent). A new label goes at the end of the key order. Every list stays non-empty, and each label is listed exactly once |
| Samples.SampleMap.MedianOf | Benchmark1.java:120-123 | `median(map.get(label))` sorts the stored list in place, returns its upper median, and leaves the other lists and the key order as they were |
| Benchmark.WrapLong | Benchmark1.java:110 | Java `long` arithmetic: the result is congruent to the exact value modulo 2^64, and equal to it when it fits |
| Benchmark.ShiftRight | Benchmark1.java:117 | definition: `x >> n` as n halvings rounding toward negative infinity, the arithmetic shift on a long. ShiftRightIsFloorDivision relates it to division |
| Benchmark.ShiftRightIsFloorDivision | Benchmark1.java:117 | the arithmetic shift `x >> n` is floor division by 2^n, for negative x too |
| Benchmark.UsedMb | Benchmark1.java:116-118 | `(total - free) >> 20` lies within the range of long / 2^20, and when 0 ≤ free ≤ total it is the number of whole megabytes in use |
| Benchmark.ElapsedNs | Benchmark1.java:104-106 | `t1 - t0` is the exact difference of the two clock readings unless it overflows a long, and congruent to it modulo 2^64 always |
| Benchmark.MemDelta | Benchmark1.java:108 | the memory delta is never negative: it is the growth in megabytes in use, and 0 when the heap in use shrank |
| Benchmark.Measure | Benchmark1.java:95-114 | returns the block's outcome unchanged. When the block throws, neither map changes. When it returns, exactly one timing and one memory delta are appended under the label, with the key-order update of a LinkedHashMap. The case where both maps are the same object is handled too |
| Benchmark.ReportLine | Benchmark1.java:87-88 | one report line: the upper medians of the stage's timing list and memory list, each stored list left sorted |
| Benchmark.Report | Benchmark1.java:86-91 | one row per timing label, in first-insertion order, with the medians of the lists as they were before the report. Afterwards every visited list is sorted, other lists are unchanged, and the key sets and orders are unchanged |
| Benchmark.StageSamples | Benchmark1.java:29-81 | a stage has one sample per repetition of the loop |
| Benchmark.OrderStep | Benchmark1.java:29-81 | in the first repetition each `measure` call appends its new label to the key order; in later repetitions every label is already a key and the order stays the five stages |
| Benchmark.SampleListsAfterRuns | Benchmark1.java:29-81 | after RUNS repetitions the labels are exactly the five stages, and each list holds that stage's RUNS samples in call order |
| Benchmark.MeasureCall | Benchmark1.java:31-78 | one `measure` call of the loop body, at its own clock and heap readings. Its outcome is its block's outcome. When the block returns, the maps move from the state after the previous call to the state after this one; when it throws, they are unchanged |
| Benchmark.MeasureRun | Benchmark1.java:31-78 | the remaining calls of one repetition, in order. Either all of them return and the maps reach the state after the whole repetition, or the outcome is the exception of the first call that throws, every earlier call having returned |
| Benchmark.MeasureRuns | Benchmark1.java:29-81 | the RUNS repetitions. Either every block returns and the maps hold the state after RUNS repetitions, or the loop is left by the exception of the first block that throws |
| Benchmark.CollectSamples | Benchmark1.java:26-81 | the measuring loop with two fresh, distinct maps. Its outcome is the exception of the first block that throws, if any. When none throws, both maps list the labels read, write, group, sort, to_np in that order, and each label holds exactly the RUNS timings and RUNS memory deltas of its own calls |
| Benchmark.MedianDeltaNonNegative | Benchmark1.java:88 | the median memory delta reported for a stage is never negative |
| Benchmark.RunBenchmark | Benchmark1.java:24-92 | `main` produces a report exactly when no block throws. Otherwise its outcome is the exception of the earliest block that throws, and nothing is reported. A report has five rows, one per stage in the order read, write, group, sort, to_np, each holding the upper medians of that stage's RUNS samples; every memory median is non-negative |
| Benchmark.ReadFailsFirst | Benchmark1.java:24-36 | when the first read block throws (its CSV file missing, say), `main` ends with that exception and reports nothing |

## Left out

**The environment**
- The dataframe engine calls (Polars, Tablesaw, datatable) are foreign code.
  - In the trial runner each call is an input outcome per call index.
  - In `measure` each block is its outcome: the value it returns, or the exception it throws (`blocks(k)` for the k-th call of `main`). The block values are not used by the model, and which blocks can throw is left to that input. In the source the write block catches its own exceptions (Benchmark1.java:39-46).
- The operating system and the runtime are inputs:
  - the Win32 calls `GetCurrentProcess` and `K32GetProcessMemoryInfo` (the model receives their optional counters record);
  - `Instant::now` and `System.nanoTime` (the model receives elapsed nanoseconds or raw clock readings);
  - `Runtime.totalMemory` and `freeMemory` (the model receives the readings).
- `System.gc()` and `rt.gc()` only affect the memory readings, which are inputs, so they are not modelled.

**Behaviour not captured**
- Everything printed by `println!`, `printf` and `DecimalFormat` is left out, as are the `name` parameter (used only in the message) and the stage names printed by `print_ram` and `print_memory_detailed`.
  - `print_memory_detailed` is covered only as one GetMemoryMetrics sample; this is the "one sample per call" property.
- Floating point is left out:
  - `median` returning a `double`;
  - the `/ 1e9` seconds conversion;
  - the `to_np` NaN-filled array.
- The equivalence of forced and lazy query results is engine semantics over floating-point means, so it is left out.
- TrialRunner.TimeOperation: `Duration` is modelled as natural nanoseconds.
  - `Duration / u32` is modelled as floor division of the nanosecond total.
  - Overflow of the `Duration` sum is not modelled.
- Sorting.SortInPlace orders the array by insertion sort rather than by the merge sort of `Collections.sort`. Its contract (the unique sorted permutation) is what the caller observes.
- Benchmark.MeasureRun goes through the five stage labels one call at a time, recursing on the stage index. The source makes five separate calls. With the engine calls reduced to their outcomes, the calls differ only in the label.
- Benchmark.Report requires the two maps to be different objects, and every timing label to also be a memory label. In the source a label missing from the memory map would throw a `NullPointerException`, which is not modelled.
- Sorting.Median requires a non-empty list. In the source an empty list would throw `IndexOutOfBoundsException`; the report only calls `median` with labels that have samples.
- Samples.SampleMap represents `List<Long>` values as sequences held in the map. The only aliasing modelled is between the two maps themselves, in Benchmark.Measure.

**Files not modelled**
- CSV generation (`rand`, `BufWriter`) and the temporary-file writing in `Benchmark1.java` are I/O and randomness.
- `main.rs` repeats the floor(bytes / 2^20)-or-0 conversion on a single counter, which Memory.ToMb already covers. Its remaining content is engine calls and I/O.
- `you_TablesawBenchmark1.java` and `datatable_benchmark.py` are engine calls, file writing, random data and floating-point measurements.

## Findings

| source | as written | input that shows it | evidently intended | confidence | as-written member | corrected member |
|---|---|---|---|---|---|---|
| updated.rs:81 | `sum / trials as u32` divides by the trial count truncated to 32 bits | 2^32 + 1 trials of 1 ns each: the divisor is 1 and the average is 2^32 + 1 ns. With 2^32 trials the divisor is 0 and the division panics | the floor of the mean over all `trials` durations | not executed | TrialRunner.WrappedDivisorCounterexample | TrialRunner.FloorMeanWithinRange |
