/**
 * The memory telemetry of updated.rs: one query of the process memory
 * counters, converted from bytes to whole megabytes, with an all-zero
 * snapshot standing for "telemetry unavailable".
 */
module Memory {
  import opened Wrappers
  import opened Arithmetic

  /** Rust's `u64`; SIZE_T is 64 bits wide on the targets the program is built for. */
  newtype u64 = x: int | 0 <= x < 0x1_0000_0000_0000_0000

  /** The four counters of PROCESS_MEMORY_COUNTERS_EX that the program reads, in bytes. */
  datatype ProcessMemoryCounters = ProcessMemoryCounters(
    workingSetSize: u64,
    privateUsage: u64,
    pagefileUsage: u64,
    peakWorkingSetSize: u64)

  /** The snapshot the program reports, in megabytes. */
  datatype MemoryMetrics = MemoryMetrics(
    workingSetMb: u64,
    privateUsageMb: u64,
    pagefileUsageMb: u64,
    peakWorkingSetMb: u64)

  /** `mb` is the number of whole megabytes in `bytes`. */
  ghost predicate WholeMegabytes(mb: u64, bytes: u64)
  {
    mb as int * BYTES_PER_MB <= bytes as int < (mb as int + 1) * BYTES_PER_MB
  }

  /** `x / 1024 / 1024` on a counter: two truncating divisions, which amount to floor(x / 2^20). */
  function ToMb(bytes: u64): (mb: u64)
    ensures mb as int == bytes as int / BYTES_PER_MB
    ensures WholeMegabytes(mb, bytes)
  {
    DivideTwice(bytes as int, 1024, 1024);
    bytes / 1024 / 1024
  }

  /**
   * get_memory_metrics: `query` is the outcome of the single
   * K32GetProcessMemoryInfo call; None when the call reports failure.
   * All four fields come from that one record, and a failed query gives
   * an all-zero snapshot instead of an error.
   */
  function GetMemoryMetrics(query: Option<ProcessMemoryCounters>): (m: MemoryMetrics)
    ensures query.None? ==> m == MemoryMetrics(0, 0, 0, 0)
    ensures query.Some? ==>
      && WholeMegabytes(m.workingSetMb, query.value.workingSetSize)
      && WholeMegabytes(m.privateUsageMb, query.value.privateUsage)
      && WholeMegabytes(m.pagefileUsageMb, query.value.pagefileUsage)
      && WholeMegabytes(m.peakWorkingSetMb, query.value.peakWorkingSetSize)
  {
    match query
    case Some(c) =>
      MemoryMetrics(ToMb(c.workingSetSize), ToMb(c.privateUsage),
                    ToMb(c.pagefileUsage), ToMb(c.peakWorkingSetSize))
    case None =>
      MemoryMetrics(0, 0, 0, 0)
  }

  /**
   * print_ram: the reduced view (working set, private usage) that the
   * quick report prints, taken from one GetMemoryMetrics sample, so both
   * numbers come from the same counters record.
   */
  function QuickSample(query: Option<ProcessMemoryCounters>): (view: (u64, u64))
    ensures query.None? ==> view == (0, 0)
    ensures query.Some? ==>
      && view.0 as int == query.value.workingSetSize as int / BYTES_PER_MB
      && view.1 as int == query.value.privateUsage as int / BYTES_PER_MB
  {
    var metrics := GetMemoryMetrics(query);
    (metrics.workingSetMb, metrics.privateUsageMb)
  }
}
