/** Splitting a chunk so that every statement of the transactional write stays under the size limit. */
module Partition {
  import opened Arithmetic
  import opened Values
  import opened TableSchema
  import opened SqlText

  const MAX_TX_EXEC_BYTES := 40 * 1024 * 1024
  const FIELD_OVERHEAD := 16
  const STRING_OVERHEAD := 1.15

  function Cell(row: Cells, col: Column): Raw {
    if col.name in row then row[col.name] else RawNull
  }

  function CellSize(row: Cells, col: Column): nat {
    match Cell(row, col)
    case RawNull => FIELD_OVERHEAD + 1
    case RawBytes(s) => FIELD_OVERHEAD + |col.name| + Inflated(|s|)
    case RawStr(s) => FIELD_OVERHEAD + |col.name| + Inflated(|s|)
    case RawTime(_) => FIELD_OVERHEAD + |col.name| + 16
    case _ => FIELD_OVERHEAD + |col.name| + 8
  }

  function Inflated(n: nat): (m: nat)
    ensures n <= m
  {
    (n as real * STRING_OVERHEAD).Floor
  }

  function CellsSize(row: Cells, cols: seq<Column>): nat {
    if cols == [] then 0 else CellsSize(row, cols[..|cols| - 1]) + CellSize(row, cols[|cols| - 1])
  }

  function RowSize(row: Cells, cols: seq<Column>): nat {
    64 + CellsSize(row, cols)
  }

  method EstimateRowSizeBytes(row: Cells, cols: seq<Column>) returns (size: nat)
    ensures size == RowSize(row, cols)
  {
    size := 64;
    for i := 0 to |cols|
      invariant size == 64 + CellsSize(row, cols[..i])
    {
      assert cols[..i + 1][..i] == cols[..i];
      var v := Cell(row, cols[i]);
      if v.RawNull? {
        size := size + FIELD_OVERHEAD + 1;
        continue;
      }
      size := size + FIELD_OVERHEAD + |cols[i].name|;
      match v {
        case RawBytes(s) => size := size + Inflated(|s|);
        case RawStr(s) => size := size + Inflated(|s|);
        case RawTime(_) => size := size + 16;
        case _ => size := size + 8;
      }
    }
    assert cols[..|cols|] == cols;
  }

  /** The text and bytes a row carries. */
  function Payload(row: Cells, cols: seq<Column>): nat {
    if cols == [] then 0
    else
      Payload(row, cols[..|cols| - 1]) +
      match Cell(row, cols[|cols| - 1])
      case RawBytes(s) => |s|
      case RawStr(s) => |s|
      case _ => 0
  }

  /** The estimate never undercounts the payload: each cell is charged 16 bytes on top of it. */
  lemma {:induction false} EstimateCoversPayload(row: Cells, cols: seq<Column>)
    ensures Payload(row, cols) + FIELD_OVERHEAD * |cols| <= CellsSize(row, cols)
  {
    if cols == [] {
    } else {
      EstimateCoversPayload(row, cols[..|cols| - 1]);
    }
  }

  function Total(rows: seq<Cells>, cols: seq<Column>): nat {
    if rows == [] then 0 else Total(rows[..|rows| - 1], cols) + RowSize(rows[|rows| - 1], cols)
  }

  ghost predicate Fits(rows: seq<Cells>, cols: seq<Column>, max: nat) {
    forall i :: 0 <= i < |rows| ==> RowSize(rows[i], cols) <= max
  }

  lemma {:induction false} TotalSplits(rows: seq<Cells>, cols: seq<Column>, mid: nat)
    requires mid <= |rows|
    ensures Total(rows, cols) == Total(rows[..mid], cols) + Total(rows[mid..], cols)
  {
    if mid < |rows| {
      var init := rows[..|rows| - 1];
      TotalSplits(init, cols, mid);
      assert init[..mid] == rows[..mid];
      assert rows[mid..][..|rows| - mid - 1] == init[mid..];
    } else {
      assert rows[..mid] == rows;
    }
  }

  lemma {:induction false} TotalCovers(rows: seq<Cells>, cols: seq<Column>, i: nat)
    requires i < |rows|
    ensures RowSize(rows[i], cols) <= Total(rows, cols)
  {
    if i + 1 == |rows| {
    } else {
      TotalCovers(rows[..|rows| - 1], cols, i);
    }
  }

  /** The recursion of the source, cut off after `fuel` levels: None means it has not ended by then. */
  function PartitionWithin(fuel: nat, rows: seq<Cells>, cols: seq<Column>, max: nat): Option<seq<seq<Cells>>> {
    if rows == [] then Some([])
    else if Total(rows, cols) <= max then Some([rows])
    else if fuel == 0 then None
    else
      var mid := |rows| / 2;
      var left := PartitionWithin(fuel - 1, rows[..mid], cols, max);
      var right := PartitionWithin(fuel - 1, rows[mid..], cols, max);
      if left.None? || right.None? then None else Some(left.value + right.value)
  }

  lemma TotalOfOne(rows: seq<Cells>, cols: seq<Column>)
    ensures |rows| == 1 ==> Total(rows, cols) == RowSize(rows[0], cols)
  {
    if |rows| == 1 { assert Total(rows[..0], cols) == 0; }
  }

  lemma SplittableHasTwoRows(rows: seq<Cells>, cols: seq<Column>, max: nat)
    requires Fits(rows, cols, max) && Total(rows, cols) > max
    ensures |rows| >= 2
  {
    TotalOfOne(rows, cols);
  }

  /** The result for rows that fit. */
  function Partition(rows: seq<Cells>, cols: seq<Column>, max: nat): seq<seq<Cells>>
    requires Fits(rows, cols, max)
    decreases |rows|
  {
    if rows == [] then []
    else if Total(rows, cols) <= max then [rows]
    else
      var mid := |rows| / 2;
      SplittableHasTwoRows(rows, cols, max);
      Partition(rows[..mid], cols, max) + Partition(rows[mid..], cols, max)
  }

  method PartitionRowsBySize(rows: seq<Cells>, cols: seq<Column>, max: nat) returns (chunks: seq<seq<Cells>>)
    requires Fits(rows, cols, max)
    ensures chunks == Partition(rows, cols, max)
    decreases |rows|
  {
    if |rows| == 0 {
      return [];
    }
    var total := 0;
    for i := 0 to |rows|
      invariant total == Total(rows[..i], cols)
    {
      assert rows[..i + 1][..i] == rows[..i];
      var size := EstimateRowSizeBytes(rows[i], cols);
      total := total + size;
    }
    assert rows[..|rows|] == rows;
    if total <= max {
      return [rows];
    }
    var mid := |rows| / 2;
    SplittableHasTwoRows(rows, cols, max);
    var left := PartitionRowsBySize(rows[..mid], cols, max);
    var right := PartitionRowsBySize(rows[mid..], cols, max);
    chunks := left + right;
  }

  lemma {:induction false} FittingRowsPartition(rows: seq<Cells>, cols: seq<Column>, max: nat, fuel: nat)
    requires Fits(rows, cols, max) && fuel >= |rows|
    ensures PartitionWithin(fuel, rows, cols, max) == Some(Partition(rows, cols, max))
    decreases |rows|
  {
    if rows == [] || Total(rows, cols) <= max {
    } else {
      SplittableHasTwoRows(rows, cols, max);
      var left, right := rows[..|rows| / 2], rows[|rows| / 2..];
      FittingRowsPartition(left, cols, max, fuel - 1);
      FittingRowsPartition(right, cols, max, fuel - 1);
      assert Partition(rows, cols, max) == Partition(left, cols, max) + Partition(right, cols, max);
    }
  }

  lemma {:induction false} OversizedRowNeverEnds(rows: seq<Cells>, cols: seq<Column>, max: nat, fuel: nat, i: nat)
    requires i < |rows| && RowSize(rows[i], cols) > max
    ensures PartitionWithin(fuel, rows, cols, max).None?
    decreases fuel
  {
    TotalCovers(rows, cols, i);
    if fuel == 0 {
    } else {
      var left, right := rows[..|rows| / 2], rows[|rows| / 2..];
      if i < |left| {
        OversizedRowNeverEnds(left, cols, max, fuel - 1, i);
        assert PartitionWithin(fuel - 1, left, cols, max).None?;
      } else {
        assert right[i - |left|] == rows[i];
        OversizedRowNeverEnds(right, cols, max, fuel - 1, i - |left|);
        assert PartitionWithin(fuel - 1, right, cols, max).None?;
      }
    }
  }

  /** The recursion ends if and only if no single row exceeds the limit. */
  lemma PartitionEndsIffRowsFit(rows: seq<Cells>, cols: seq<Column>, max: nat)
    ensures (exists fuel :: PartitionWithin(fuel, rows, cols, max).Some?) <==> Fits(rows, cols, max)
  {
    if Fits(rows, cols, max) {
      FittingRowsPartition(rows, cols, max, |rows|);
    } else {
      var i :| 0 <= i < |rows| && RowSize(rows[i], cols) > max;
      forall fuel ensures PartitionWithin(fuel, rows, cols, max).None? {
        OversizedRowNeverEnds(rows, cols, max, fuel, i);
      }
    }
  }

  function Concat<T>(chunks: seq<seq<T>>): seq<T> {
    if chunks == [] then [] else chunks[0] + Concat(chunks[1..])
  }

  lemma {:induction false} ConcatSplits<T>(a: seq<seq<T>>, b: seq<seq<T>>)
    ensures Concat(a + b) == Concat(a) + Concat(b)
  {
    if a == [] {
      assert a + b == b;
    } else {
      assert (a + b)[1..] == a[1..] + b;
      ConcatSplits(a[1..], b);
    }
  }

  predicate AllWithin(parts: seq<seq<Cells>>, cols: seq<Column>, max: nat) {
    forall c :: c in parts ==> c != [] && Total(c, cols) <= max
  }

  lemma AllWithinBoth(a: seq<seq<Cells>>, b: seq<seq<Cells>>, cols: seq<Column>, max: nat)
    requires AllWithin(a, cols, max) && AllWithin(b, cols, max)
    ensures AllWithin(a + b, cols, max)
  {}

  /** The chunks are the rows in order, and every chunk is non-empty and within the limit. */
  lemma {:induction false} PartitionIsSound(rows: seq<Cells>, cols: seq<Column>, max: nat)
    requires Fits(rows, cols, max)
    ensures Concat(Partition(rows, cols, max)) == rows
    ensures AllWithin(Partition(rows, cols, max), cols, max)
    decreases |rows|
  {
    if rows == [] {
    } else {
      if Total(rows, cols) <= max {
        assert Concat([rows]) == rows + Concat([]) == rows;
      } else {
        SplittableHasTwoRows(rows, cols, max);
        var mid := |rows| / 2;
        PartitionIsSound(rows[..mid], cols, max);
        PartitionIsSound(rows[mid..], cols, max);
        var low, high := Partition(rows[..mid], cols, max), Partition(rows[mid..], cols, max);
        ConcatSplits(low, high);
        AllWithinBoth(low, high, cols, max);
        assert rows[..mid] + rows[mid..] == rows;
      }
    }
  }

  /** The number of halvings that bring n rows down to one. */
  function CeilLog2(n: nat): nat {
    if n <= 1 then 0 else 1 + CeilLog2((n + 1) / 2)
  }

  lemma {:induction false} CeilLog2Monotone(m: nat, n: nat)
    requires m <= n
    ensures CeilLog2(m) <= CeilLog2(n)
  {
    if m <= 1 {
    } else {
      CeilLog2Monotone((m + 1) / 2, (n + 1) / 2);
    }
  }

  ghost predicate Coarse(chunks: nat, max: nat, total: nat, levels: nat) {
    chunks >= 1 && (chunks - 1) * max <= total * levels
  }

  /** Few chunks: every split pays for itself, so beyond the first there is at most one chunk per `max`
      bytes and halving level. */
  lemma {:induction false} PartitionIsCoarse(rows: seq<Cells>, cols: seq<Column>, max: nat)
    requires Fits(rows, cols, max) && rows != []
    ensures Coarse(|Partition(rows, cols, max)|, max, Total(rows, cols), CeilLog2(|rows|))
    decreases |rows|
  {
    if Total(rows, cols) <= max {
      OneChunkIsCoarse(max, Total(rows, cols), CeilLog2(|rows|));
    } else {
      SplittableHasTwoRows(rows, cols, max);
      var left, right := rows[..|rows| / 2], rows[|rows| / 2..];
      PartitionIsCoarse(left, cols, max);
      PartitionIsCoarse(right, cols, max);
      SplitStaysCoarse(rows, cols, max, |Partition(left, cols, max)|, |Partition(right, cols, max)|);
    }
  }

  lemma OneChunkIsCoarse(max: nat, total: nat, levels: nat)
    ensures Coarse(1, max, total, levels)
  {
    MulMonotone(0, total, levels);
  }

  lemma SplitStaysCoarse(rows: seq<Cells>, cols: seq<Column>, max: nat, a: nat, b: nat)
    requires |rows| >= 2 && Total(rows, cols) > max
    requires Coarse(a, max, Total(rows[..|rows| / 2], cols), CeilLog2(|rows[..|rows| / 2]|))
    requires Coarse(b, max, Total(rows[|rows| / 2..], cols), CeilLog2(|rows[|rows| / 2..]|))
    ensures Coarse(a + b, max, Total(rows, cols), CeilLog2(|rows|))
  {
    var mid := |rows| / 2;
    TotalSplits(rows, cols, mid);
    HalvesAreALevelLower(|rows|);
    SplitPays(a, b, max, Total(rows[..mid], cols), Total(rows[mid..], cols), CeilLog2(mid), CeilLog2(|rows| - mid));
  }

  lemma HalvesAreALevelLower(n: nat)
    requires n >= 2
    ensures CeilLog2(n / 2) <= CeilLog2(n - n / 2) == CeilLog2(n) - 1
  {
    assert n - n / 2 == (n + 1) / 2;
    CeilLog2Monotone(n / 2, n - n / 2);
  }

  lemma SplitPays(a: nat, b: nat, max: nat, s: nat, t: nat, i: nat, j: nat)
    requires i <= j && s + t > max
    requires Coarse(a, max, s, i) && Coarse(b, max, t, j)
    ensures Coarse(a + b, max, s + t, j + 1)
  {
    MulMonotone(i, j, s);
    assert (a + b - 1) * max == (a - 1) * max + (b - 1) * max + max;
    assert (s + t) * (j + 1) == s * j + t * j + s + t;
    assert s * i == i * s && s * j == j * s;
  }
}
