/** Converting a chunk for the columns that a YDB table and its MySQL table share. */
module RowConversion {
  import opened Values
  import opened YdbTypes
  import opened TableSchema
  import opened Convert
  import opened Partition

  datatype IndexType = GlobalAsync | GlobalSync | GlobalUnique

  datatype YdbColumn = YdbColumn(name: string, yql: string)

  /** The answer of DescribeTable. */
  datatype Description = Description(primaryKey: seq<string>, columns: seq<YdbColumn>, indexes: seq<IndexType>)

  predicate HasSyncIndex(d: Description) {
    exists i :: 0 <= i < |d.indexes| && d.indexes[i] != GlobalAsync
  }

  /** The MySQL columns by lower-case name; of two that collide the later one stays. */
  function ByLower(rt: Runtime, cols: seq<Column>): map<string, Column> {
    if cols == [] then map[]
    else
      var last := cols[|cols| - 1];
      ByLower(rt, cols[..|cols| - 1])[rt.lower(last.name) := last]
  }

  method MetaByNameLower(rt: Runtime, cols: seq<Column>) returns (m: map<string, Column>)
    ensures m == ByLower(rt, cols)
  {
    m := map[];
    for i := 0 to |cols|
      invariant m == ByLower(rt, cols[..i])
    {
      assert cols[..i + 1][..i] == cols[..i];
      m := m[rt.lower(cols[i].name) := cols[i]];
    }
    assert cols[..|cols|] == cols;
  }

  /** A name is found exactly when some column has it up to case, and then with such a column. */
  lemma {:induction false} ByLowerFinds(rt: Runtime, cols: seq<Column>, name: string)
    ensures name in ByLower(rt, cols) <==> exists c :: c in cols && rt.lower(c.name) == name
    ensures name in ByLower(rt, cols) ==> ByLower(rt, cols)[name] in cols && rt.lower(ByLower(rt, cols)[name].name) == name
  {
    if cols == [] {
    } else {
      ByLowerFinds(rt, cols[..|cols| - 1], name);
      var last := cols[|cols| - 1];
      assert last in cols;
      assert forall c :: c in cols <==> c == last || c in cols[..|cols| - 1];
    }
  }

  /** The described columns that MySQL has too, in the order of the description. */
  function Shared(rt: Runtime, columns: seq<YdbColumn>, cols: seq<Column>): seq<string> {
    if columns == [] then []
    else
      var last := columns[|columns| - 1].name;
      Shared(rt, columns[..|columns| - 1], cols) + if rt.lower(last) in ByLower(rt, cols) then [last] else []
  }

  function SharedTypes(rt: Runtime, columns: seq<YdbColumn>, cols: seq<Column>): map<string, string> {
    if columns == [] then map[]
    else
      var last := columns[|columns| - 1];
      var rest := SharedTypes(rt, columns[..|columns| - 1], cols);
      if rt.lower(last.name) in ByLower(rt, cols) then rest[last.name := last.yql] else rest
  }

  lemma {:induction false} SharedMeans(rt: Runtime, columns: seq<YdbColumn>, cols: seq<Column>, name: string)
    ensures name in Shared(rt, columns, cols) <==>
            (exists c :: c in columns && c.name == name) && rt.lower(name) in ByLower(rt, cols)
    ensures name in Shared(rt, columns, cols) <==> name in SharedTypes(rt, columns, cols)
  {
    if columns == [] {
    } else {
      SharedMeans(rt, columns[..|columns| - 1], cols, name);
      var last := columns[|columns| - 1];
      assert last in columns;
      assert forall c :: c in columns <==> c == last || c in columns[..|columns| - 1];
    }
  }

  /** A shared column of a table without repeated names keeps its described type. */
  lemma {:induction false} SharedTypeIsDescribed(rt: Runtime, columns: seq<YdbColumn>, cols: seq<Column>, i: nat)
    requires i < |columns| && (forall j, k :: 0 <= j < k < |columns| ==> columns[j].name != columns[k].name)
    requires rt.lower(columns[i].name) in ByLower(rt, cols)
    ensures columns[i].name in SharedTypes(rt, columns, cols)
    ensures SharedTypes(rt, columns, cols)[columns[i].name] == columns[i].yql
  {
    if i + 1 == |columns| {
    } else {
      SharedTypeIsDescribed(rt, columns[..|columns| - 1], cols, i);
    }
  }

  method SharedColumns(rt: Runtime, d: Description, cols: seq<Column>)
    returns (names: seq<string>, types: map<string, string>)
    ensures names == Shared(rt, d.columns, cols) && types == SharedTypes(rt, d.columns, cols)
  {
    var byLower := MetaByNameLower(rt, cols);
    names, types := [], map[];
    for i := 0 to |d.columns|
      invariant names == Shared(rt, d.columns[..i], cols) && types == SharedTypes(rt, d.columns[..i], cols)
    {
      assert d.columns[..i + 1][..i] == d.columns[..i];
      var c := d.columns[i];
      if rt.lower(c.name) in byLower {
        names, types := names + [c.name], types[c.name := c.yql];
      }
    }
    assert d.columns[..|d.columns|] == d.columns;
  }

  // One row, and a chunk.

  datatype Layout = Layout(names: seq<string>, types: map<string, string>, byLower: map<string, Column>)

  function LayoutOf(rt: Runtime, d: Description, cols: seq<Column>): Layout {
    Layout(Shared(rt, d.columns, cols), SharedTypes(rt, d.columns, cols), ByLower(rt, cols))
  }

  function CellToYdb(rt: Runtime, row: Cells, name: string, l: Layout): Result<YValue>
    requires rt.lower(name) in l.byLower
  {
    var col := l.byLower[rt.lower(name)];
    MysqlValueToYdbForBulk(rt, Cell(row, col), col.dataType, col.nullable, if name in l.types then l.types[name] else "")
  }

  function RowToYdb(rt: Runtime, row: Cells, l: Layout, n: nat): Result<YCells>
    requires n <= |l.names|
  {
    if n == 0 then Success(map[])
    else
      var cells :- RowToYdb(rt, row, l, n - 1);
      var name := l.names[n - 1];
      if rt.lower(name) !in l.byLower then Success(cells)
      else
        var v :- CellToYdb(rt, row, name, l);
        Success(cells[name := v])
  }

  function RowsToYdb(rt: Runtime, rows: seq<Cells>, l: Layout): Result<seq<YCells>> {
    if rows == [] then Success([])
    else
      var init :- RowsToYdb(rt, rows[..|rows| - 1], l);
      var last :- RowToYdb(rt, rows[|rows| - 1], l, |l.names|);
      Success(init + [last])
  }

  method ConvertRows(rt: Runtime, rows: seq<Cells>, l: Layout) returns (r: Result<seq<YCells>>)
    ensures r == RowsToYdb(rt, rows, l)
  {
    var out: seq<YCells> := [];
    for i := 0 to |rows|
      invariant RowsToYdb(rt, rows[..i], l) == Success(out)
    {
      assert rows[..i + 1][..i] == rows[..i];
      var fields: YCells := map[];
      for n := 0 to |l.names|
        invariant RowToYdb(rt, rows[i], l, n) == Success(fields)
      {
        var name := l.names[n];
        if rt.lower(name) !in l.byLower {
          continue;
        }
        var v := CellToYdb(rt, rows[i], name, l);
        if v.Failure? {
          FailureSpreads(rt, rows, l, i, n);
          return Failure(v.error);
        }
        fields := fields[name := v.value];
      }
      out := out + [fields];
    }
    assert rows[..|rows|] == rows;
    return Success(out);
  }

  lemma {:induction false} RowFailureSpreads(rt: Runtime, row: Cells, l: Layout, n: nat, m: nat)
    requires n <= m <= |l.names| && RowToYdb(rt, row, l, n).Failure?
    ensures RowToYdb(rt, row, l, m) == RowToYdb(rt, row, l, n)
  {
    if n == m {
    } else {
      RowFailureSpreads(rt, row, l, n, m - 1);
    }
  }

  lemma {:induction false} RowsFailureSpreads(rt: Runtime, rows: seq<Cells>, l: Layout, i: nat)
    requires i <= |rows| && RowsToYdb(rt, rows[..i], l).Failure?
    ensures RowsToYdb(rt, rows, l) == RowsToYdb(rt, rows[..i], l)
  {
    if i == |rows| {
      assert rows[..i] == rows;
    } else {
      assert rows[..|rows| - 1][..i] == rows[..i];
      RowsFailureSpreads(rt, rows[..|rows| - 1], l, i);
    }
  }

  lemma FailureSpreads(rt: Runtime, rows: seq<Cells>, l: Layout, i: nat, n: nat)
    requires i < |rows| && n < |l.names|
    requires RowsToYdb(rt, rows[..i], l).Success?
    requires RowToYdb(rt, rows[i], l, n).Success? && RowToYdb(rt, rows[i], l, n + 1).Failure?
    ensures RowsToYdb(rt, rows, l) == Failure(RowToYdb(rt, rows[i], l, n + 1).error)
  {
    RowFailureSpreads(rt, rows[i], l, n + 1, |l.names|);
    assert rows[..i + 1][..i] == rows[..i];
    RowsFailureSpreads(rt, rows, l, i + 1);
  }

  /** Converting a chunk in parts and converting it whole agree, error and all. */
  lemma {:induction false} RowsConcat(rt: Runtime, a: seq<Cells>, b: seq<Cells>, l: Layout)
    ensures RowsToYdb(rt, a + b, l) ==
            match (RowsToYdb(rt, a, l), RowsToYdb(rt, b, l))
            case (Success(x), Success(y)) => Success(x + y)
            case (Failure(e), _) => Failure(e)
            case (_, Failure(e)) => Failure(e)
  {
    if b == [] {
      assert a + b == a;
      if RowsToYdb(rt, a, l).Success? { assert RowsToYdb(rt, a, l).value + [] == RowsToYdb(rt, a, l).value; }
    } else {
      assert (a + b)[..|a + b| - 1] == a + b[..|b| - 1];
      RowsConcat(rt, a, b[..|b| - 1], l);
      if RowsToYdb(rt, a, l).Success? && RowsToYdb(rt, b, l).Success? {
        var x, y := RowsToYdb(rt, a, l).value, RowsToYdb(rt, b[..|b| - 1], l).value;
        var z := [RowToYdb(rt, b[|b| - 1], l, |l.names|).value];
        assert (x + y) + z == x + (y + z);
      }
    }
  }

  /** A converted row has a value for every shared column: its own cell, converted. */
  lemma {:induction false} RowHasColumns(rt: Runtime, row: Cells, l: Layout, n: nat, i: nat)
    requires i < n <= |l.names| && RowToYdb(rt, row, l, n).Success? && rt.lower(l.names[i]) in l.byLower
    ensures l.names[i] in RowToYdb(rt, row, l, n).value
    ensures CellToYdb(rt, row, l.names[i], l) == Success(RowToYdb(rt, row, l, n).value[l.names[i]])
  {
    if i == n - 1 {
    } else {
      RowHasColumns(rt, row, l, n - 1, i);
    }
  }

  lemma {:induction false} RowsAre(rt: Runtime, rows: seq<Cells>, l: Layout, i: nat)
    requires RowsToYdb(rt, rows, l).Success? && i < |rows|
    ensures |RowsToYdb(rt, rows, l).value| == |rows|
    ensures RowToYdb(rt, rows[i], l, |l.names|) == Success(RowsToYdb(rt, rows, l).value[i])
  {
    if |rows| <= 1 {
    } else {
      RowsAre(rt, rows[..|rows| - 1], l, if i < |rows| - 1 then i else 0);
    }
  }

  lemma OneRow(rt: Runtime, row: Cells, l: Layout)
    ensures RowsToYdb(rt, [row], l).Success? <==> RowToYdb(rt, row, l, |l.names|).Success?
    ensures RowsToYdb(rt, [row], l).Success? ==> RowsToYdb(rt, [row], l).value == [RowToYdb(rt, row, l, |l.names|).value]
  {
    var none: seq<YCells> := [];
    assert [row][..0] == [];
    assert RowsToYdb(rt, [row][..0], l) == Success(none);
    if RowToYdb(rt, row, l, |l.names|).Success? {
      assert none + [RowToYdb(rt, row, l, |l.names|).value] == [RowToYdb(rt, row, l, |l.names|).value];
    }
  }

  // Keys.

  function KeyOf(pk: seq<string>, cells: YCells): YKey {
    seq(|pk|, i requires 0 <= i < |pk| => if pk[i] in cells then cells[pk[i]] else Null(Utf8))
  }

  predicate HasKey(pk: seq<string>, cells: YCells) {
    forall i :: 0 <= i < |pk| ==> pk[i] in cells
  }

  function Keyed(pk: seq<string>, data: seq<YCells>): seq<YRow> {
    seq(|data|, i requires 0 <= i < |data| => YRow(KeyOf(pk, data[i]), data[i]))
  }

  /** Every cell has the described type of its column. */
  predicate RowFits(d: Description, cells: YCells) {
    forall i :: 0 <= i < |d.columns| && d.columns[i].name in cells ==> FitsType(cells[d.columns[i].name], d.columns[i].yql)
  }

  predicate AllFit(d: Description, data: seq<YCells>) {
    forall i :: 0 <= i < |data| ==> RowFits(d, data[i])
  }

  lemma AllFitConcat(d: Description, a: seq<YCells>, b: seq<YCells>)
    ensures AllFit(d, a + b) <==> AllFit(d, a) && AllFit(d, b)
  {
    if AllFit(d, a + b) {
      forall i | 0 <= i < |a| ensures RowFits(d, a[i]) { assert (a + b)[i] == a[i]; }
      forall i | 0 <= i < |b| ensures RowFits(d, b[i]) { assert (a + b)[|a| + i] == b[i]; }
    }
  }

  const ILL_TYPED := "Invalid value representation for type"

  /** The YDB rows of a chunk, unless the conversion refuses it or YDB does for a value of another type. */
  function AcceptedRows(rt: Runtime, rows: seq<Cells>, d: Description, cols: seq<Column>): Result<seq<YRow>> {
    var data :- RowsToYdb(rt, rows, LayoutOf(rt, d, cols));
    if AllFit(d, data) then Success(Keyed(d.primaryKey, data)) else Failure(ILL_TYPED)
  }

  /** YDB takes two chunks together exactly if it takes each. */
  lemma AcceptedConcat(rt: Runtime, a: seq<Cells>, b: seq<Cells>, d: Description, cols: seq<Column>)
    ensures AcceptedRows(rt, a + b, d, cols).Success? <==>
              AcceptedRows(rt, a, d, cols).Success? && AcceptedRows(rt, b, d, cols).Success?
    ensures AcceptedRows(rt, a, d, cols).Success? ==>
              AcceptedRows(rt, a + b, d, cols) ==
              match AcceptedRows(rt, b, d, cols)
              case Success(y) => Success(AcceptedRows(rt, a, d, cols).value + y)
              case Failure(e) => Failure(e)
  {
    var l := LayoutOf(rt, d, cols);
    RowsConcat(rt, a, b, l);
    if RowsToYdb(rt, a, l).Success? && RowsToYdb(rt, b, l).Success? {
      var x, y := RowsToYdb(rt, a, l).value, RowsToYdb(rt, b, l).value;
      AllFitConcat(d, x, y);
      assert Keyed(d.primaryKey, x + y) == Keyed(d.primaryKey, x) + Keyed(d.primaryKey, y);
    }
  }

  /** YDB describes every key column among the columns. */
  ghost predicate WellDescribed(d: Description) {
    forall k :: k in d.primaryKey ==> exists c :: c in d.columns && c.name == k
  }

  /** The key columns are described columns that MySQL has. */
  ghost predicate KeysShared(rt: Runtime, d: Description, cols: seq<Column>) {
    forall k :: k in d.primaryKey ==> k in Shared(rt, d.columns, cols)
  }

  /** The key columns of a description that MySQL lacks. */
  function MissingKeys(rt: Runtime, pk: seq<string>, cols: seq<Column>): seq<string> {
    if pk == [] then []
    else
      var last := pk[|pk| - 1];
      MissingKeys(rt, pk[..|pk| - 1], cols) + if rt.lower(last) in ByLower(rt, cols) then [] else [last]
  }

  lemma {:induction false} NoMissingKeys(rt: Runtime, pk: seq<string>, cols: seq<Column>)
    ensures MissingKeys(rt, pk, cols) == [] <==> forall k :: k in pk ==> rt.lower(k) in ByLower(rt, cols)
  {
    if pk == [] {
    } else {
      NoMissingKeys(rt, pk[..|pk| - 1], cols);
      assert forall k :: k in pk <==> k == pk[|pk| - 1] || k in pk[..|pk| - 1];
    }
  }

  lemma CheckedKeysAreShared(rt: Runtime, d: Description, cols: seq<Column>)
    requires WellDescribed(d) && MissingKeys(rt, d.primaryKey, cols) == []
    ensures KeysShared(rt, d, cols)
  {
    NoMissingKeys(rt, d.primaryKey, cols);
    forall k | k in d.primaryKey ensures k in Shared(rt, d.columns, cols) {
      SharedMeans(rt, d.columns, cols, k);
    }
  }

  /** No write lacks a key column. */
  lemma ConvertedRowsHaveKeys(rt: Runtime, d: Description, cols: seq<Column>, rows: seq<Cells>)
    requires KeysShared(rt, d, cols) && RowsToYdb(rt, rows, LayoutOf(rt, d, cols)).Success?
    ensures forall c :: c in RowsToYdb(rt, rows, LayoutOf(rt, d, cols)).value ==> HasKey(d.primaryKey, c)
  {
    var l := LayoutOf(rt, d, cols);
    var data := RowsToYdb(rt, rows, l).value;
    if rows != [] { RowsAre(rt, rows, l, 0); }
    forall i, j | 0 <= i < |data| && 0 <= j < |d.primaryKey| ensures d.primaryKey[j] in data[i] {
      RowsAre(rt, rows, l, i);
      var k := d.primaryKey[j];
      SharedMeans(rt, d.columns, cols, k);
      var n :| 0 <= n < |l.names| && l.names[n] == k;
      RowHasColumns(rt, rows[i], l, |l.names|, n);
    }
  }
}
