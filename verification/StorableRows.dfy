/** Which rows can be stored at all: YDB takes no value of another type than its column's, so a chunk is written if and
    only if every cell reaches its column in that column's type. */
module StorableRows {
  import opened Values
  import opened YdbTypes
  import opened TableSchema
  import opened Convert
  import opened TypeSoundness
  import opened Partition
  import opened Upsert
  import opened RowConversion
  import opened TxWrite

  /** The described type of a column is one that the type of its MySQL column may be written to. */
  ghost predicate IsTyped(c: Column, yql: string) {
    if c.autoIncrement then !c.nullable && yql == Yql(PrimName(Int64), false)
    else exists name: string, ty: YType :: yql == Yql(name, ty.optional) && Setting(c.dataType, c.nullable, name, ty)
  }

  /** The cell can be stored in its column. */
  predicate Storable(rt: Runtime, raw: Raw, c: Column) {
    if raw.RawNull? then c.nullable
    else if c.autoIncrement then raw.RawInt? && c.dataType != "bool" && InRange(Int64, raw.n)
    else KeepsType(rt, raw, c.dataType)
  }

  function CellValue(rt: Runtime, raw: Raw, c: Column, yql: string): Result<YValue> {
    MysqlValueToYdbForBulk(rt, raw, c.dataType, c.nullable, yql)
  }

  lemma SerialIsTakenIff(rt: Runtime, raw: Raw, c: Column)
    requires c.autoIncrement && !c.nullable && (raw.RawNull? || FromDriver(raw, c.dataType))
    ensures var r := CellValue(rt, raw, c, Yql(PrimName(Int64), false));
            r.Success? && HasType(r.value, SERIAL) <==> Storable(rt, raw, c)
  {
    OptionalSeen("Int64", Int64, false);
    if !raw.RawNull? { SerialIsTypeSound(rt, raw, c.dataType); }
  }

  /** One cell: it is converted to a value that YDB takes for the column if and only if it is storable. */
  lemma CellIsTakenIff(rt: Runtime, raw: Raw, c: Column, yql: string)
    requires IsTyped(c, yql) && (raw.RawNull? || FromDriver(raw, c.dataType))
    ensures var r := CellValue(rt, raw, c, yql); r.Success? && FitsType(r.value, yql) <==> Storable(rt, raw, c)
  {
    var r := CellValue(rt, raw, c, yql);
    if c.autoIncrement {
      SerialIsTakenIff(rt, raw, c);
      if r.Success? { FitsTypeMeans(r.value, "Int64", SERIAL); }
    } else {
      var name: string, ty: YType :| yql == Yql(name, ty.optional) && Setting(c.dataType, c.nullable, name, ty);
      ConversionIsTypeSound(rt, raw, c.dataType, c.nullable, name, ty);
      if r.Success? { FitsTypeMeans(r.value, name, ty); }
    }
  }

  // Tables.

  ghost predicate DistinctNames(columns: seq<YdbColumn>) {
    forall i, j :: 0 <= i < j < |columns| ==> columns[i].name != columns[j].name
  }

  /** The MySQL column that a described column is filled from. */
  function SourceColumn(rt: Runtime, cols: seq<Column>, name: string): Column
    requires rt.lower(name) in ByLower(rt, cols)
  {
    ByLower(rt, cols)[rt.lower(name)]
  }

  predicate IsShared(rt: Runtime, cols: seq<Column>, name: string) {
    rt.lower(name) in ByLower(rt, cols)
  }

  /** Every described column that MySQL has is typed for it. */
  ghost predicate IsTypedTable(rt: Runtime, d: Description, cols: seq<Column>) {
    && DistinctNames(d.columns)
    && forall i :: 0 <= i < |d.columns| && IsShared(rt, cols, d.columns[i].name) ==>
         IsTyped(SourceColumn(rt, cols, d.columns[i].name), d.columns[i].yql)
  }

  ghost predicate IsDriverRow(rt: Runtime, row: Cells, d: Description, cols: seq<Column>) {
    forall i :: 0 <= i < |d.columns| && IsShared(rt, cols, d.columns[i].name) ==>
      var c := SourceColumn(rt, cols, d.columns[i].name);
      Cell(row, c).RawNull? || FromDriver(Cell(row, c), c.dataType)
  }

  /** Every cell of the row can be stored. */
  ghost predicate IsStorableRow(rt: Runtime, row: Cells, d: Description, cols: seq<Column>) {
    forall i :: 0 <= i < |d.columns| && IsShared(rt, cols, d.columns[i].name) ==>
      var c := SourceColumn(rt, cols, d.columns[i].name);
      Storable(rt, Cell(row, c), c)
  }

  ghost predicate RowIsTaken(rt: Runtime, row: Cells, d: Description, cols: seq<Column>) {
    var l := LayoutOf(rt, d, cols);
    RowToYdb(rt, row, l, |l.names|).Success? && RowFits(d, RowToYdb(rt, row, l, |l.names|).value)
  }

  /** The conversion of a shared column's cell is that of its source column to its described type. */
  lemma CellOfColumn(rt: Runtime, row: Cells, d: Description, cols: seq<Column>, i: nat)
    requires DistinctNames(d.columns) && i < |d.columns| && IsShared(rt, cols, d.columns[i].name)
    ensures var l := LayoutOf(rt, d, cols); var c := SourceColumn(rt, cols, d.columns[i].name);
            && d.columns[i].name in l.names
            && CellToYdb(rt, row, d.columns[i].name, l) == CellValue(rt, Cell(row, c), c, d.columns[i].yql)
  {
    SharedTypeIsDescribed(rt, d.columns, cols, i);
    SharedMeans(rt, d.columns, cols, d.columns[i].name);
  }

  lemma NameIsDescribed(rt: Runtime, d: Description, cols: seq<Column>, name: string) returns (i: nat)
    requires name in LayoutOf(rt, d, cols).names
    ensures i < |d.columns| && d.columns[i].name == name && IsShared(rt, cols, name)
  {
    SharedMeans(rt, d.columns, cols, name);
    var c :| c in d.columns && c.name == name;
    i :| 0 <= i < |d.columns| && d.columns[i] == c;
  }

  lemma {:induction false} CellsConvert(rt: Runtime, row: Cells, l: Layout, n: nat)
    requires n <= |l.names|
    requires forall i :: 0 <= i < n && rt.lower(l.names[i]) in l.byLower ==> CellToYdb(rt, row, l.names[i], l).Success?
    ensures RowToYdb(rt, row, l, n).Success?
  {
    if n == 0 {
    } else {
      CellsConvert(rt, row, l, n - 1);
    }
  }

  lemma {:induction false} OnlyNames(rt: Runtime, row: Cells, l: Layout, n: nat, name: string)
    requires n <= |l.names| && RowToYdb(rt, row, l, n).Success? && name in RowToYdb(rt, row, l, n).value
    ensures name in l.names && rt.lower(name) in l.byLower
  {
    if n == 0 {
    } else if name != l.names[n - 1] || rt.lower(name) !in l.byLower {
      OnlyNames(rt, row, l, n - 1, name);
    }
  }

  lemma StorableIsTaken(rt: Runtime, row: Cells, d: Description, cols: seq<Column>)
    requires IsTypedTable(rt, d, cols) && IsDriverRow(rt, row, d, cols) && IsStorableRow(rt, row, d, cols)
    ensures RowIsTaken(rt, row, d, cols)
  {
    var l := LayoutOf(rt, d, cols);
    forall n | 0 <= n < |l.names| && rt.lower(l.names[n]) in l.byLower ensures CellToYdb(rt, row, l.names[n], l).Success? {
      var i := NameIsDescribed(rt, d, cols, l.names[n]);
      var c := SourceColumn(rt, cols, l.names[n]);
      CellOfColumn(rt, row, d, cols, i);
      CellIsTakenIff(rt, Cell(row, c), c, d.columns[i].yql);
    }
    CellsConvert(rt, row, l, |l.names|);
    var cells := RowToYdb(rt, row, l, |l.names|).value;
    forall i | 0 <= i < |d.columns| && d.columns[i].name in cells
      ensures FitsType(cells[d.columns[i].name], d.columns[i].yql)
    {
      ColumnIsItsCell(rt, row, d, cols, i);
      var c := SourceColumn(rt, cols, d.columns[i].name);
      CellIsTakenIff(rt, Cell(row, c), c, d.columns[i].yql);
    }
  }

  /** What a converted row holds for a described column. */
  lemma ColumnIsItsCell(rt: Runtime, row: Cells, d: Description, cols: seq<Column>, i: nat)
    requires DistinctNames(d.columns) && i < |d.columns|
    requires RowToYdb(rt, row, LayoutOf(rt, d, cols), |LayoutOf(rt, d, cols).names|).Success?
    ensures var l := LayoutOf(rt, d, cols); var cells := RowToYdb(rt, row, l, |l.names|).value;
            && (d.columns[i].name in cells <==> IsShared(rt, cols, d.columns[i].name))
            && (IsShared(rt, cols, d.columns[i].name) ==>
                  var c := SourceColumn(rt, cols, d.columns[i].name);
                  CellValue(rt, Cell(row, c), c, d.columns[i].yql) == Success(cells[d.columns[i].name]))
  {
    var l := LayoutOf(rt, d, cols);
    var name := d.columns[i].name;
    if IsShared(rt, cols, name) {
      CellOfColumn(rt, row, d, cols, i);
      var n :| 0 <= n < |l.names| && l.names[n] == name;
      RowHasColumns(rt, row, l, |l.names|, n);
    } else if name in RowToYdb(rt, row, l, |l.names|).value {
      OnlyNames(rt, row, l, |l.names|, name);
    }
  }

  lemma TakenIsStorable(rt: Runtime, row: Cells, d: Description, cols: seq<Column>)
    requires IsTypedTable(rt, d, cols) && IsDriverRow(rt, row, d, cols) && RowIsTaken(rt, row, d, cols)
    ensures IsStorableRow(rt, row, d, cols)
  {
    forall i | 0 <= i < |d.columns| && IsShared(rt, cols, d.columns[i].name)
      ensures var c := SourceColumn(rt, cols, d.columns[i].name); Storable(rt, Cell(row, c), c)
    {
      var c := SourceColumn(rt, cols, d.columns[i].name);
      ColumnIsItsCell(rt, row, d, cols, i);
      CellIsTakenIff(rt, Cell(row, c), c, d.columns[i].yql);
    }
  }

  lemma RowIsTakenIff(rt: Runtime, row: Cells, d: Description, cols: seq<Column>)
    requires IsTypedTable(rt, d, cols) && IsDriverRow(rt, row, d, cols)
    ensures RowIsTaken(rt, row, d, cols) <==> IsStorableRow(rt, row, d, cols)
  {
    if IsStorableRow(rt, row, d, cols) {
      StorableIsTaken(rt, row, d, cols);
    } else if RowIsTaken(rt, row, d, cols) {
      TakenIsStorable(rt, row, d, cols);
    }
  }

  lemma {:induction false} RowsAreTaken(rt: Runtime, rows: seq<Cells>, d: Description, cols: seq<Column>)
    ensures AcceptedRows(rt, rows, d, cols).Success? <==> forall i :: 0 <= i < |rows| ==> RowIsTaken(rt, rows[i], d, cols)
  {
    if rows == [] {
    } else {
      var init, last := rows[..|rows| - 1], rows[|rows| - 1];
      RowsAreTaken(rt, init, d, cols);
      assert rows == init + [last];
      AcceptedConcat(rt, init, [last], d, cols);
      OneRowIsTaken(rt, last, d, cols);
    }
  }

  lemma OneRowIsTaken(rt: Runtime, row: Cells, d: Description, cols: seq<Column>)
    ensures AcceptedRows(rt, [row], d, cols).Success? <==> RowIsTaken(rt, row, d, cols)
  {
    var l := LayoutOf(rt, d, cols);
    OneRow(rt, row, l);
    if RowsToYdb(rt, [row], l).Success? {
      var data := RowsToYdb(rt, [row], l).value;
      assert AllFit(d, data) <==> RowFits(d, data[0]);
    }
  }

  /** A chunk as the driver delivers it can be written if and only if every cell of every row is storable. */
  lemma ChunkIsWrittenIff(rt: Runtime, t: Table, rows: seq<Cells>, d: Description, cols: seq<Column>)
    requires IsTypedTable(rt, d, cols) && forall i :: 0 <= i < |rows| ==> IsDriverRow(rt, rows[i], d, cols)
    ensures Written(rt, t, rows, d, cols).Success? <==>
              forall i :: 0 <= i < |rows| ==> IsStorableRow(rt, rows[i], d, cols)
  {
    RowsAreTaken(rt, rows, d, cols);
    forall i | 0 <= i < |rows| ensures RowIsTaken(rt, rows[i], d, cols) <==> IsStorableRow(rt, rows[i], d, cols) {
      RowIsTakenIff(rt, rows[i], d, cols);
    }
  }

  // Tables that the tool has created.

  /** How YDB describes a column of the printed CREATE TABLE: Int64 for BigSerial NOT NULL, otherwise the printed type
      under either of its names.  The DDL prints no NOT NULL there, so the type may be optional for any column. */
  ghost predicate IsCreatedAs(c: Column, yql: string) {
    if c.autoIncrement then yql == Yql(PrimName(Int64), false)
    else exists name: string, optional: bool ::
      yql == Yql(name, optional) && IsNameOf(name, CreatedPrim(c.dataType)) && (c.nullable ==> optional)
  }

  ghost predicate IsCreatedFor(columns: seq<YdbColumn>, cols: seq<Column>) {
    && |columns| == |cols|
    && forall i :: 0 <= i < |cols| ==> columns[i].name == cols[i].name && IsCreatedAs(cols[i], columns[i].yql)
  }

  /** MySQL compares column names without case, and AUTO_INCREMENT columns are NOT NULL. */
  ghost predicate IsMySqlTable(rt: Runtime, cols: seq<Column>) {
    && (forall i, j :: 0 <= i < j < |cols| ==> rt.lower(cols[i].name) != rt.lower(cols[j].name))
    && (forall i :: 0 <= i < |cols| && cols[i].autoIncrement ==> !cols[i].nullable)
  }

  lemma CreatedIsTyped(c: Column, yql: string)
    requires (c.autoIncrement ==> !c.nullable) && IsCreatedAs(c, yql)
    ensures IsTyped(c, yql)
  {
    if !c.autoIncrement {
      var name: string, optional: bool :|
        yql == Yql(name, optional) && IsNameOf(name, CreatedPrim(c.dataType)) && (c.nullable ==> optional);
      var ty := YType(CreatedPrim(c.dataType), optional);
      Kinds(c.dataType);
      assert yql == Yql(name, ty.optional) && Setting(c.dataType, c.nullable, name, ty);
    }
  }

  lemma CreatedNamesDiffer(rt: Runtime, columns: seq<YdbColumn>, cols: seq<Column>)
    requires IsMySqlTable(rt, cols) && IsCreatedFor(columns, cols)
    ensures DistinctNames(columns)
  {
    forall i, j | 0 <= i < j < |cols| ensures columns[i].name != columns[j].name {
      assert rt.lower(cols[i].name) != rt.lower(cols[j].name);
    }
  }

  lemma SourceOfCreated(rt: Runtime, cols: seq<Column>, i: nat)
    requires IsMySqlTable(rt, cols) && i < |cols|
    ensures IsShared(rt, cols, cols[i].name) && SourceColumn(rt, cols, cols[i].name) == cols[i]
  {
    assert cols[i] in cols;
    ByLowerFinds(rt, cols, rt.lower(cols[i].name));
    var j :| 0 <= j < |cols| && cols[j] == SourceColumn(rt, cols, cols[i].name);
  }

  /** In a table that the tool has created every column has a type that its MySQL column may be written to. */
  lemma CreatedTablesAreTyped(rt: Runtime, d: Description, cols: seq<Column>)
    requires IsMySqlTable(rt, cols) && IsCreatedFor(d.columns, cols)
    ensures IsTypedTable(rt, d, cols)
  {
    CreatedNamesDiffer(rt, d.columns, cols);
    forall i | 0 <= i < |d.columns| && IsShared(rt, cols, d.columns[i].name)
      ensures IsTyped(SourceColumn(rt, cols, d.columns[i].name), d.columns[i].yql)
    {
      SourceOfCreated(rt, cols, i);
      CreatedIsTyped(cols[i], d.columns[i].yql);
    }
  }
}
