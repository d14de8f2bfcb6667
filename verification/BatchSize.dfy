/** How many rows a chunk gets: the smallest of the configured and measured limits. */
module BatchSize {
  import opened Arithmetic
  import opened SqlText
  import opened Float64Cursor
  import opened Pipeline

  const MAX_CHUNK_BYTES: nat := 125 * 1024 * 1024
  const MIN_BATCH: nat := 1000
  const OVERHEAD_FACTOR: nat := 3
  const TWO64: nat := 0x1_0000_0000_0000_0000

  /** DATA_LENGTH and TABLE_ROWS, when information_schema had them. */
  datatype Stats = Stats(dataLength: nat, rowCount: nat)

  predicate IsUsable(stats: Option<Stats>) {
    stats.Some? && stats.value.dataLength > 0 && stats.value.rowCount > 0
  }

  /** The average row size, 256 where it is unknown or rounds to nothing. */
  function AverageRow(stats: Option<Stats>): (avg: nat)
    ensures avg > 0
  {
    if !IsUsable(stats) || stats.value.dataLength / stats.value.rowCount == 0 then 256
    else stats.value.dataLength / stats.value.rowCount
  }

  /** A quarter of the free RAM as the code computes it, through float64. */
  function ChunkMemLimit(freeRAM: nat): int {
    Float64(freeRAM) / 4
  }

  lemma OverheadIsNotZero(avg: nat)
    requires 0 < avg < TWO64
    ensures avg * OVERHEAD_FACTOR % TWO64 > 0
  {
    if avg * 3 < TWO64 {
      DivModUnique(avg * 3, 0, avg * 3, TWO64);
    } else if avg * 3 < 2 * TWO64 {
      DivModUnique(avg * 3, 1, avg * 3 - TWO64, TWO64);
    } else {
      DivModUnique(avg * 3, 2, avg * 3 - 2 * TWO64, TWO64);
    }
  }

  function MemSafeBatch(freeRAM: nat, avg: nat): (m: int)
    requires 0 < avg < TWO64
    ensures m >= MIN_BATCH
  {
    OverheadIsNotZero(avg);
    var safe := ChunkMemLimit(freeRAM) / (avg * OVERHEAD_FACTOR % TWO64);
    if safe < MIN_BATCH then MIN_BATCH else safe
  }

  predicate InWords(freeRAM: nat, stats: Option<Stats>) {
    freeRAM < TWO64 && (stats.Some? ==> stats.value.dataLength < TWO64 && stats.value.rowCount < TWO64)
  }

  lemma AverageInWords(freeRAM: nat, stats: Option<Stats>)
    requires InWords(freeRAM, stats)
    ensures AverageRow(stats) < TWO64
  {
    if IsUsable(stats) { QuotientBounds(stats.value.dataLength, stats.value.rowCount); }
  }

  /** Rows of average size in ten seconds of network; 0 when the size is unknown or one row takes longer. */
  function NetworkLimit(stats: Option<Stats>): int {
    if IsUsable(stats) then MAX_CHUNK_BYTES / AverageRow(stats) else 0
  }

  /** Rows of average size in the memory of one chunk; 0 when the free RAM is unknown. */
  function MemoryLimit(freeRAM: nat, stats: Option<Stats>): int
    requires InWords(freeRAM, stats)
  {
    AverageInWords(freeRAM, stats);
    if freeRAM == 0 then 0 else MemSafeBatch(freeRAM, AverageRow(stats))
  }

  /** The least of four limits, the last three only where they are positive. */
  predicate IsLeast(b: int, config: int, maxRows: int, network: int, memory: int) {
    && b <= config && (maxRows > 0 ==> b <= maxRows) && (network > 0 ==> b <= network) && (memory > 0 ==> b <= memory)
    && (b == config || (maxRows > 0 && b == maxRows) || (network > 0 && b == network) || (memory > 0 && b == memory))
  }

  predicate IsBatch(b: int, config: int, maxRows: int, freeRAM: nat, stats: Option<Stats>)
    requires InWords(freeRAM, stats)
  {
    IsLeast(b, config, maxRows, NetworkLimit(stats), MemoryLimit(freeRAM, stats))
  }

  method AverageFromStats(stats: Option<Stats>) returns (avg: int)
    ensures avg == if IsUsable(stats) then AverageRow(stats) else 0
  {
    avg := 0;
    if stats.Some? && stats.value.dataLength > 0 && stats.value.rowCount > 0 {
      avg := stats.value.dataLength / stats.value.rowCount;
      if avg == 0 { avg := 256; }
    }
  }

  method BatchSizeForTable(configBatch: int, maxChunkRows: int, freeRAM: nat, stats: Option<Stats>) returns (batch: int)
    requires InWords(freeRAM, stats)
    ensures IsBatch(batch, configBatch, maxChunkRows, freeRAM, stats)
  {
    batch := configBatch;
    if maxChunkRows > 0 && batch > maxChunkRows {
      batch := maxChunkRows;
    }
    var avgRowBytes := AverageFromStats(stats);
    if avgRowBytes > 0 {
      var networkBatch := MAX_CHUNK_BYTES / avgRowBytes;
      if networkBatch > 0 && networkBatch < batch {
        batch := networkBatch;
      }
    }
    if freeRAM == 0 {
      if maxChunkRows > 0 && batch > maxChunkRows {
        batch := maxChunkRows;
      }
      return;
    }
    if avgRowBytes == 0 {
      avgRowBytes := 256;
    }
    AverageInWords(freeRAM, stats);
    var memSafeBatch := MemSafeBatch(freeRAM, avgRowBytes);
    if memSafeBatch < batch {
      batch := memSafeBatch;
    }
    if maxChunkRows > 0 && batch > maxChunkRows {
      batch := maxChunkRows;
    }
  }

  lemma BatchIsPositiveAndCapped(batch: int, configBatch: int, maxChunkRows: int, freeRAM: nat, stats: Option<Stats>)
    requires InWords(freeRAM, stats) && configBatch > 0 && maxChunkRows > 0
    ensures IsBatch(batch, configBatch, maxChunkRows, freeRAM, stats) ==> 1 <= batch <= configBatch && batch <= maxChunkRows
  {}

  lemma QuotientPositive(a: nat, b: nat)
    requires 0 < b <= a
    ensures a / b > 0 && a / b * b <= a
  {
    QuotientBounds(a, b);
  }

  /** With statistics, a chunk of average rows takes at most ten seconds of 100 Mbit/s exactly when one row
      does: a wider average is not capped at all. */
  lemma ChunkFitsTheNetworkIffARowDoes(batch: int, configBatch: int, maxChunkRows: int, freeRAM: nat, stats: Option<Stats>)
    requires InWords(freeRAM, stats) && configBatch > 0 && IsUsable(stats)
    ensures IsBatch(batch, configBatch, maxChunkRows, freeRAM, stats) ==>
              (batch * AverageRow(stats) <= MAX_CHUNK_BYTES <==> AverageRow(stats) <= MAX_CHUNK_BYTES)
  {
    var avg := AverageRow(stats);
    if !IsBatch(batch, configBatch, maxChunkRows, freeRAM, stats) {
    } else if avg <= MAX_CHUNK_BYTES {
      QuotientPositive(MAX_CHUNK_BYTES, avg);
      MulMonotone(batch, MAX_CHUNK_BYTES / avg, avg);
    } else {
      MulMonotone(1, batch, avg);
    }
  }

  /** The floor of 1000 rows is not what decides. */
  predicate FloorInactive(freeRAM: nat, avg: nat)
    requires avg > 0
  {
    avg * OVERHEAD_FACTOR < TWO64 && ChunkMemLimit(freeRAM) / (avg * OVERHEAD_FACTOR) >= MIN_BATCH
  }

  lemma MemSafeBatchFits(freeRAM: nat, avg: nat)
    requires 0 < avg < TWO64 && FloorInactive(freeRAM, avg)
    ensures 12 * (MemSafeBatch(freeRAM, avg) * avg) <= Float64(freeRAM)
  {
    var unit := avg * OVERHEAD_FACTOR;
    DivModUnique(unit, 0, unit, TWO64);
    QuotientTimes(ChunkMemLimit(freeRAM), unit);
    var safe := MemSafeBatch(freeRAM, avg);
    assert safe == ChunkMemLimit(freeRAM) / unit;
    assert safe * unit == 3 * (safe * avg);
  }

  lemma QuotientTimes(a: int, b: int)
    requires b > 0
    ensures a / b * b <= a
  {}

  /** Where the floor does not decide, four chunks of average rows take at most a third of the free RAM as
      float64 reads it, which up to 2^53 bytes is the free RAM itself. */
  lemma FourChunksFitAThirdOfRam(batch: int, configBatch: int, maxChunkRows: int, freeRAM: nat, stats: Option<Stats>)
    requires InWords(freeRAM, stats) && freeRAM > 0
    requires FloorInactive(freeRAM, AverageRow(stats)) && IsBatch(batch, configBatch, maxChunkRows, freeRAM, stats)
    ensures 12 * (batch * AverageRow(stats)) <= Float64(freeRAM)
    ensures freeRAM < TWO53 ==> 12 * (batch * AverageRow(stats)) <= freeRAM
  {
    AverageInWords(freeRAM, stats);
    MemSafeBatchFits(freeRAM, AverageRow(stats));
    MulMonotone(batch, MemSafeBatch(freeRAM, AverageRow(stats)), AverageRow(stats));
    if freeRAM < TWO53 { ReloadedExact(freeRAM, 0); }
  }

  /** With the pipeline's bound on rows held: what a worker keeps in memory, in average rows, stays within a
      third of the free RAM but for the extra row that each of the four chunks keeps. */
  lemma WorkerStaysNearAThirdOfRam(cfg: Config, s: State, configBatch: int, maxChunkRows: int, freeRAM: nat,
                                   stats: Option<Stats>)
    requires ValidConfig(cfg) && InWords(freeRAM, stats) && 0 < freeRAM < TWO53
    requires Reachable(cfg, s) && s.proc.Up? && FloorInactive(freeRAM, AverageRow(stats))
    requires IsBatch(s.proc.w.batch, configBatch, maxChunkRows, freeRAM, stats)
    ensures 3 * (RowsInMemory(s.proc.w) * AverageRow(stats)) <= freeRAM + 12 * AverageRow(stats)
  {
    MemoryIsBounded(cfg, s);
    FourChunksFitAThirdOfRam(s.proc.w.batch, configBatch, maxChunkRows, freeRAM, stats);
    RowsFit(RowsInMemory(s.proc.w), s.proc.w.batch, AverageRow(stats), freeRAM);
  }

  lemma RowsFit(rows: int, batch: int, avg: nat, ram: int)
    requires rows <= 4 * (batch + 1) && 12 * (batch * avg) <= ram
    ensures 3 * (rows * avg) <= ram + 12 * avg
  {
    MulMonotone(rows, 4 * (batch + 1), avg);
    assert 4 * (batch + 1) * avg == 4 * (batch * avg) + 4 * avg;
  }
}
