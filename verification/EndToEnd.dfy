/** The writer is the pipeline's write step, and tables with integer and string keys are copied exactly: the results on
    conversion, cursors and the pipeline put together. */
module EndToEnd {
  import opened Values
  import opened TableSchema
  import opened KeyOrder
  import opened Source
  import opened Upsert
  import opened Convert
  import opened YdbTypes
  import opened TypeSoundness
  import IF = IntegerFidelity
  import opened Partition
  import opened RowConversion
  import opened StorableRows
  import BulkWriter
  import TxWrite
  import opened Pipeline
  import opened Resume
  import opened Completion
  import opened SingleProcess
  import opened CrashLoss
  import opened Float64Cursor

  /** What the writer makes of one source row, unless the conversion or YDB refuses it. */
  function ConvertRow(rt: Runtime, r: Row, d: Description, cols: seq<Column>): Result<YRow> {
    var l := LayoutOf(rt, d, cols);
    var cells :- RowToYdb(rt, r.cells, l, |l.names|);
    if RowFits(d, cells) then Success(YRow(KeyOf(d.primaryKey, cells), cells)) else Failure(ILL_TYPED)
  }

  ghost predicate UsesWriter(cfg: Config, rt: Runtime, d: Description, cols: seq<Column>) {
    forall r :: cfg.convert(r) == ConvertRow(rt, r, d, cols)
  }

  function CellsOf(rows: seq<Row>): seq<Cells> {
    seq(|rows|, i requires 0 <= i < |rows| => rows[i].cells)
  }

  lemma OneAccepted(rt: Runtime, r: Row, d: Description, cols: seq<Column>)
    ensures AcceptedRows(rt, [r.cells], d, cols).Success? <==> ConvertRow(rt, r, d, cols).Success?
    ensures ConvertRow(rt, r, d, cols).Success? ==>
              AcceptedRows(rt, [r.cells], d, cols).value == [ConvertRow(rt, r, d, cols).value]
  {
    var l := LayoutOf(rt, d, cols);
    OneRow(rt, r.cells, l);
    if RowsToYdb(rt, [r.cells], l).Success? {
      var data := RowsToYdb(rt, [r.cells], l).value;
      assert AllFit(d, data) <==> RowFits(d, data[0]);
    }
  }

  lemma {:induction false} ConvertAllIsAccepted(cfg: Config, rt: Runtime, d: Description, cols: seq<Column>, rows: seq<Row>)
    requires UsesWriter(cfg, rt, d, cols)
    ensures var accepted := AcceptedRows(rt, CellsOf(rows), d, cols);
            && (accepted.Success? <==> ConvertAll(cfg, rows).Success?)
            && (accepted.Success? ==> accepted.value == ConvertAll(cfg, rows).value)
  {
    if rows == [] {
    } else {
      ConvertAllIsAccepted(cfg, rt, d, cols, rows[1..]);
      assert CellsOf(rows) == [rows[0].cells] + CellsOf(rows[1..]);
      AcceptedConcat(rt, [rows[0].cells], CellsOf(rows[1..]), d, cols);
      OneAccepted(rt, rows[0], d, cols);
      assert cfg.convert(rows[0]) == ConvertRow(rt, rows[0], d, cols);
    }
  }

  /** A chunk that the writer reports as written has made exactly the pipeline's Write step. */
  lemma WriterRefinesWrite(cfg: Config, rt: Runtime, d: Description, cols: seq<Column>, t: Table, rows: seq<Row>)
    requires UsesWriter(cfg, rt, d, cols)
    ensures var w := TxWrite.Written(rt, t, CellsOf(rows), d, cols);
            && (w.Success? <==> ConvertAll(cfg, rows).Success?)
            && (w.Success? ==> w.value == UpsertAll(t, Sent(cfg, rows)))
  {
    ConvertAllIsAccepted(cfg, rt, d, cols, rows);
  }

  /** What a call of the writer has done to one table, by its contract. */
  ghost predicate WriterOutcome(rt: Runtime, d: Description, cols: seq<Column>, path: string, rows: seq<Row>,
                                before: map<string, Table>, after: map<string, Table>, r: Result<nat>, viaTx: bool) {
    && path in before
    && BulkWriter.Outcome(r, viaTx, path, |rows|, before, after,
                          TxWrite.Written(rt, before[path], CellsOf(rows), d, cols))
    && (r.Failure? && !viaTx ==> BulkWriter.PartlyWritten(rt, before, after, path, CellsOf(rows), d, cols))
  }

  /** A failed call leaves a part of the chunk, in the sense of the pipeline, and no other table touched. */
  lemma FailedWriteLeavesAPart(cfg: Config, rt: Runtime, d: Description, cols: seq<Column>, path: string, rows: seq<Row>,
                               before: map<string, Table>, after: map<string, Table>, r: Result<nat>, viaTx: bool)
    requires UsesWriter(cfg, rt, d, cols) && WriterOutcome(rt, d, cols, path, rows, before, after, r, viaTx) && r.Failure?
    ensures path in after && after == before[path := after[path]]
    ensures Partial(before[path], Sent(cfg, rows), after[path])
  {
    ConvertAllIsAccepted(cfg, rt, d, cols, rows);
    WriterRefinesWrite(cfg, rt, d, cols, before[path], rows);
    WholeIsPartial(before[path], Sent(cfg, rows));
    if after == before { assert before == before[path := before[path]]; }
  }

  /** A call of the writer for the consumer's chunk is the pipeline's Write if it succeeds and its WriteFail if it
      does not. */
  lemma WriterMakesAPipelineStep(cfg: Config, rt: Runtime, d: Description, cols: seq<Column>, path: string, s: State,
                                 before: map<string, Table>, after: map<string, Table>, r: Result<nat>, viaTx: bool)
    requires UsesWriter(cfg, rt, d, cols) && s.proc.Up? && s.proc.w.batch >= 1 && s.proc.w.cons.Writing?
    requires WriterOutcome(rt, d, cols, path, s.proc.w.cons.msg.rows, before, after, r, viaTx) && s.table == before[path]
    ensures path in after
    ensures var w := s.proc.w;
            var step := if r.Success? then Write else WriteFail(after[path]);
            var cons := if r.Success? then Saving(w.cons.msg) else Broken(w.cons.msg);
            var total := if r.Success? then w.total + r.value else w.total;
            Next(cfg, s, step, s.(table := after[path], proc := Up(w.(cons := cons, total := total))))
  {
    var rows := s.proc.w.cons.msg.rows;
    WriterRefinesWrite(cfg, rt, d, cols, before[path], rows);
    if r.Failure? { FailedWriteLeavesAPart(cfg, rt, d, cols, path, rows, before, after, r, viaTx); }
  }

  // Tables whose key columns are integers and strings.

  /** A key column: of a MySQL integer type, shown with a display width or not, or a string column with the YDB type it
      is described with.  YDB describes a key column as optional unless it was created NOT NULL. */
  datatype KeyKind =
    | IntegerKey(t: IF.IntType, width: bool, optional: bool)
    | TextKey(name: string, prim: Prim, optional: bool)

  /** The column pair under types that the DDL relates; an AUTO_INCREMENT key is Int64 in YDB. */
  ghost predicate IsKeyColumn(c: Column, yql: string, kind: KeyKind) {
    && !c.nullable
    && match kind
       case IntegerKey(t, width, optional) =>
         && c.dataType == IF.ColumnKey(t, width) && (c.autoIncrement ==> !optional)
         && yql == Yql(PrimName(KeyPrim(c, kind)), optional)
       case TextKey(name, p, optional) =>
         IsStringOrBinary(c.dataType) && p in {Utf8, Bytes} && IsNameOf(name, p) && yql == Yql(name, optional)
  }

  function KeyPrim(c: Column, kind: KeyKind): Prim {
    match kind
    case IntegerKey(t, width, _) => if c.autoIncrement then Int64 else CreatedPrim(IF.ColumnKey(t, width))
    case TextKey(_, p, _) => p
  }

  /** The cell holds the key value v, as the driver delivers it. */
  predicate HoldsKey(raw: Raw, v: KeyValue, kind: KeyKind) {
    match kind
    case IntegerKey(t, _, _) => raw.RawInt? && v == IntKey(raw.n) && IF.CanHold(t, raw.n) && IsDriverInt(raw.kind, raw.n)
    case TextKey(_, _, _) => (raw.RawBytes? || raw.RawStr?) && v == StrKey(raw.text)
  }

  /** The YDB value of a key value; Int32 keeps the low 32 bits, which only changes values of an unsigned column with a
      width. */
  function Image(rt: Runtime, p: Prim, optional: bool, v: KeyValue): YValue {
    match v
    case IntKey(n) => Wrap(IntValue(p, if p == Int32 then Signed32(n) else n), optional)
    case StrKey(s) => Wrap(if p == Utf8 then TextValue(rt.repair(s)) else BytesValue(s), optional)
  }

  lemma SerialKeyArrives(rt: Runtime, raw: Raw, c: Column)
    requires c.autoIncrement && !c.nullable && c.dataType != "bool" && raw.RawInt? && IsDriverInt(raw.kind, raw.n)
    ensures var yql := Yql(PrimName(Int64), false); var r := CellValue(rt, raw, c, yql);
            r.Success? && (FitsType(r.value, yql) ==> r.value == IntValue(Int64, raw.n))
  {
    SerialIntegers(raw.kind, raw.n, c.dataType);
    OptionalSeen("Int64", Int64, false);
    FitsTypeMeans(CellValue(rt, raw, c, Yql(PrimName(Int64), false)).value, "Int64", SERIAL);
  }

  lemma PlainIntegerKeyArrives(rt: Runtime, raw: Raw, c: Column, t: IF.IntType, optional: bool)
    requires c.dataType == IF.TypeKey(t) && raw.RawInt? && IF.CanHold(t, raw.n) && IsDriverInt(raw.kind, raw.n)
    ensures var p := CreatedPrim(IF.TypeKey(t));
            CellValue(rt, raw, c, Yql(PrimName(p), optional)) == Success(Image(rt, p, optional, IntKey(raw.n)))
  {
    var p := CreatedPrim(IF.TypeKey(t));
    IF.CreatedHolds(t, raw.n);
    IntegersSound(raw.kind, raw.n, c.dataType, p, optional);
    OptionalSeen(PrimName(p), p, optional);
  }

  lemma WideIntegerKeyArrives(rt: Runtime, raw: Raw, c: Column, size: IF.Size, optional: bool)
    requires c.dataType == IF.SignedKey(size)
    requires raw.RawInt? && IF.CanHold(IF.IntType(size, true), raw.n) && IsDriverInt(raw.kind, raw.n)
    ensures var p := CreatedPrim(IF.SignedKey(size)); var yql := Yql(PrimName(p), optional);
            var r := CellValue(rt, raw, c, yql);
            r.Success? && (FitsType(r.value, yql) ==> r.value == Image(rt, p, optional, IntKey(raw.n)))
  {
    var p := IF.SignedPrim(size);
    assert p == CreatedPrim(IF.SignedKey(size));
    OptionalSeen(PrimName(p), p, optional);
    IF.WidthsKeepTheBits(raw.kind, raw.n, size, optional);
    FitsTypeMeans(CellValue(rt, raw, c, Yql(PrimName(p), optional)).value, PrimName(p), YType(p, optional));
  }

  lemma TextKeyArrives(rt: Runtime, raw: Raw, c: Column, name: string, p: Prim, optional: bool)
    requires IsStringOrBinary(c.dataType) && p in {Utf8, Bytes} && IsNameOf(name, p) && (raw.RawBytes? || raw.RawStr?)
    ensures CellValue(rt, raw, c, Yql(name, optional)) == Success(Image(rt, p, optional, StrKey(raw.text)))
  {
    StringsSound(rt, raw.text, c.dataType, c.nullable, name, p, optional);
    OptionalSeen(name, p, optional);
  }

  /** A key cell is converted, and if YDB takes it, it holds the key value. */
  lemma KeyCellArrives(rt: Runtime, raw: Raw, v: KeyValue, c: Column, yql: string, kind: KeyKind)
    requires IsKeyColumn(c, yql, kind) && HoldsKey(raw, v, kind)
    ensures var r := CellValue(rt, raw, c, yql);
            r.Success? && (FitsType(r.value, yql) ==> r.value == Image(rt, KeyPrim(c, kind), kind.optional, v))
  {
    match kind
    case IntegerKey(t, width, optional) =>
      if c.autoIncrement {
        SerialKeyArrives(rt, raw, c);
      } else if width && t.unsigned {
        WideIntegerKeyArrives(rt, raw, c, t.size, optional);
      } else {
        PlainIntegerKeyArrives(rt, raw, c, t, optional);
      }
    case TextKey(name, p, optional) => TextKeyArrives(rt, raw, c, name, p, optional);
  }

  ghost predicate IsKeyAt(rt: Runtime, d: Description, cols: seq<Column>, kind: KeyKind, k: string, i: nat) {
    && i < |d.columns| && d.columns[i].name == k && IsShared(rt, cols, k)
    && IsKeyColumn(SourceColumn(rt, cols, k), d.columns[i].yql, kind)
  }

  ghost predicate HasKeyColumn(rt: Runtime, d: Description, cols: seq<Column>, kind: KeyKind, k: string) {
    exists i: nat :: IsKeyAt(rt, d, cols, kind, k, i)
  }

  /** The key columns of both sides, one kind each. */
  ghost predicate KeyColumns(rt: Runtime, d: Description, cols: seq<Column>, kinds: seq<KeyKind>) {
    && DistinctNames(d.columns) && |kinds| == |d.primaryKey|
    && forall j :: 0 <= j < |kinds| ==> HasKeyColumn(rt, d, cols, kinds[j], d.primaryKey[j])
  }

  /** A MySQL key column that can have a kind: NOT NULL, and an integer or a string column. */
  ghost predicate CanBeKey(c: Column) {
    !c.nullable && ((exists t, width :: c.dataType == IF.ColumnKey(t, width)) ||
                    (!c.autoIncrement && IsStringOrBinary(c.dataType)))
  }

  lemma CreatedKeyColumn(c: Column, yql: string) returns (kind: KeyKind)
    requires CanBeKey(c) && IsCreatedAs(c, yql)
    ensures IsKeyColumn(c, yql, kind)
  {
    if t, width :| c.dataType == IF.ColumnKey(t, width) {
      if c.autoIncrement {
        kind := IntegerKey(t, width, false);
      } else {
        var name: string, optional: bool :| yql == Yql(name, optional) && IsNameOf(name, CreatedPrim(c.dataType));
        kind := IntegerKey(t, width, optional);
      }
    } else {
      var name: string, optional: bool :| yql == Yql(name, optional) && IsNameOf(name, CreatedPrim(c.dataType));
      StringPrims(c.dataType);
      kind := TextKey(name, CreatedPrim(c.dataType), optional);
    }
  }

  lemma StringPrims(dt: string)
    requires IsStringOrBinary(dt)
    ensures CreatedPrim(dt) in {Utf8, Bytes}
  {
    Kinds(dt);
  }

  ghost predicate IsMySqlKey(cols: seq<Column>, k: string) {
    exists m: nat :: m < |cols| && cols[m].name == k && CanBeKey(cols[m])
  }

  /** Integer and string keys have key columns in a table that the tool has created, each of some kind. */
  lemma {:induction false} CreatedTablesHaveKeyColumns(rt: Runtime, d: Description, cols: seq<Column>)
    returns (kinds: seq<KeyKind>)
    requires IsMySqlTable(rt, cols) && IsCreatedFor(d.columns, cols)
    requires forall k :: k in d.primaryKey ==> IsMySqlKey(cols, k)
    ensures KeyColumns(rt, d, cols, kinds)
    decreases |d.primaryKey|
  {
    CreatedNamesDiffer(rt, d.columns, cols);
    if d.primaryKey == [] {
      kinds := [];
    } else {
      var n := |d.primaryKey| - 1;
      var init := d.(primaryKey := d.primaryKey[..n]);
      var rest := CreatedTablesHaveKeyColumns(rt, init, cols);
      assert IsMySqlKey(cols, d.primaryKey[n]);
      var m: nat :| m < |cols| && cols[m].name == d.primaryKey[n] && CanBeKey(cols[m]);
      var last := CreatedKeyColumn(cols[m], d.columns[m].yql);
      kinds := rest + [last];
      SourceOfCreated(rt, cols, m);
      assert IsKeyAt(rt, d, cols, last, d.primaryKey[n], m);
      forall j | 0 <= j < n ensures HasKeyColumn(rt, d, cols, kinds[j], d.primaryKey[j]) {
        assert HasKeyColumn(rt, init, cols, rest[j], init.primaryKey[j]);
        var i: nat :| IsKeyAt(rt, init, cols, rest[j], init.primaryKey[j], i);
        assert IsKeyAt(rt, d, cols, kinds[j], d.primaryKey[j], i);
      }
    }
  }

  function KeyImage(rt: Runtime, d: Description, cols: seq<Column>, kinds: seq<KeyKind>, key: Key): YKey
    requires |kinds| == |d.primaryKey| == |key|
    requires forall j :: 0 <= j < |kinds| ==> IsShared(rt, cols, d.primaryKey[j])
  {
    seq(|key|, j requires 0 <= j < |key| && IsShared(rt, cols, d.primaryKey[j]) =>
      Image(rt, KeyPrim(SourceColumn(rt, cols, d.primaryKey[j]), kinds[j]), kinds[j].optional, key[j]))
  }

  /** The cells of the key columns hold the row's key. */
  ghost predicate HoldsItsKey(rt: Runtime, d: Description, cols: seq<Column>, kinds: seq<KeyKind>, r: Row) {
    && |kinds| == |d.primaryKey| == |r.key|
    && forall j :: 0 <= j < |kinds| && IsShared(rt, cols, d.primaryKey[j]) ==>
         HoldsKey(Cell(r.cells, SourceColumn(rt, cols, d.primaryKey[j])), r.key[j], kinds[j])
  }

  /** Repairing invalid UTF-8 makes no two key texts alike; it does not if all of them are valid. */
  ghost predicate TextsStayApart(rt: Runtime, src: seq<Row>) {
    forall a, b, j ::
      && 0 <= a < |src| && 0 <= b < |src| && 0 <= j < |src[a].key| && j < |src[b].key|
      && src[a].key[j].StrKey? && src[b].key[j].StrKey?
      && rt.repair(src[a].key[j].s) == rt.repair(src[b].key[j].s)
      ==> src[a].key[j] == src[b].key[j]
  }

  /** A table that the writer writes, with such a key. */
  ghost predicate KeyedTable(cfg: Config, rt: Runtime, d: Description, cols: seq<Column>, kinds: seq<KeyKind>) {
    && ValidConfig(cfg) && UsesWriter(cfg, rt, d, cols) && KeyColumns(rt, d, cols, kinds)
    && (forall r :: r in cfg.src ==> HoldsItsKey(rt, d, cols, kinds, r))
    && TextsStayApart(rt, cfg.src)
  }

  /** The YDB key of a stored row is the image of its MySQL key. */
  lemma KeyArrives(rt: Runtime, d: Description, cols: seq<Column>, kinds: seq<KeyKind>, r: Row)
    requires KeyColumns(rt, d, cols, kinds) && HoldsItsKey(rt, d, cols, kinds, r)
    requires ConvertRow(rt, r, d, cols).Success?
    ensures forall j :: 0 <= j < |kinds| ==> IsShared(rt, cols, d.primaryKey[j])
    ensures ConvertRow(rt, r, d, cols).value.key == KeyImage(rt, d, cols, kinds, r.key)
  {
    var l := LayoutOf(rt, d, cols);
    var cells := RowToYdb(rt, r.cells, l, |l.names|).value;
    forall j | 0 <= j < |kinds|
      ensures IsShared(rt, cols, d.primaryKey[j]) && d.primaryKey[j] in cells
      ensures cells[d.primaryKey[j]] ==
              Image(rt, KeyPrim(SourceColumn(rt, cols, d.primaryKey[j]), kinds[j]), kinds[j].optional, r.key[j])
    {
      var i: nat :| IsKeyAt(rt, d, cols, kinds[j], d.primaryKey[j], i);
      var c := SourceColumn(rt, cols, d.primaryKey[j]);
      ColumnIsItsCell(rt, r.cells, d, cols, i);
      KeyCellArrives(rt, Cell(r.cells, c), r.key[j], c, d.columns[i].yql, kinds[j]);
    }
  }

  lemma LowBitsDiffer(t: IF.IntType, m: int, n: int)
    requires t.size != IF.Big && IF.CanHold(t, m) && IF.CanHold(t, n) && Signed32(m) == Signed32(n)
    ensures m == n
  {}

  /** Values of one key column with equal images are equal. */
  lemma ImageIsInjective(rt: Runtime, c: Column, yql: string, kind: KeyKind, x: Raw, y: Raw, v: KeyValue, w: KeyValue)
    requires IsKeyColumn(c, yql, kind) && HoldsKey(x, v, kind) && HoldsKey(y, w, kind)
    requires Image(rt, KeyPrim(c, kind), kind.optional, v) == Image(rt, KeyPrim(c, kind), kind.optional, w)
    requires v.StrKey? && w.StrKey? && rt.repair(v.s) == rt.repair(w.s) ==> v == w
    ensures v == w
  {
    if v.IntKey? && KeyPrim(c, kind) == Int32 { LowBitsDiffer(kind.t, v.n, w.n); }
  }

  lemma KeysStayDistinct(cfg: Config, rt: Runtime, d: Description, cols: seq<Column>, kinds: seq<KeyKind>)
    requires KeyedTable(cfg, rt, d, cols, kinds)
    ensures InjectiveKeys(cfg)
  {
    forall a, b | 0 <= a < b < |cfg.src| && cfg.convert(cfg.src[a]).Success? && cfg.convert(cfg.src[b]).Success?
      ensures cfg.convert(cfg.src[a]).value.key != cfg.convert(cfg.src[b]).value.key
    {
      var x, y := cfg.src[a], cfg.src[b];
      KeyArrives(rt, d, cols, kinds, x);
      KeyArrives(rt, d, cols, kinds, y);
      if KeyImage(rt, d, cols, kinds, x.key) == KeyImage(rt, d, cols, kinds, y.key) {
        EqualImagesEqualKeys(cfg, rt, d, cols, kinds, a, b);
        KeyLessTotal(x.key, y.key);
        assert false;
      }
    }
  }

  lemma EqualImagesEqualKeys(cfg: Config, rt: Runtime, d: Description, cols: seq<Column>, kinds: seq<KeyKind>,
                             a: nat, b: nat)
    requires KeyedTable(cfg, rt, d, cols, kinds) && a < |cfg.src| && b < |cfg.src|
    requires forall j :: 0 <= j < |kinds| ==> IsShared(rt, cols, d.primaryKey[j])
    requires HoldsItsKey(rt, d, cols, kinds, cfg.src[a]) && HoldsItsKey(rt, d, cols, kinds, cfg.src[b])
    requires KeyImage(rt, d, cols, kinds, cfg.src[a].key) == KeyImage(rt, d, cols, kinds, cfg.src[b].key)
    ensures cfg.src[a].key == cfg.src[b].key
  {
    var x, y := cfg.src[a], cfg.src[b];
    forall j | 0 <= j < |kinds| ensures x.key[j] == y.key[j] {
      var c := SourceColumn(rt, cols, d.primaryKey[j]);
      assert HasKeyColumn(rt, d, cols, kinds[j], d.primaryKey[j]);
      var i: nat :| IsKeyAt(rt, d, cols, kinds[j], d.primaryKey[j], i);
      assert KeyImage(rt, d, cols, kinds, x.key)[j] == KeyImage(rt, d, cols, kinds, y.key)[j];
      ImageIsInjective(rt, c, d.columns[i].yql, kinds[j], Cell(x.cells, c), Cell(y.cells, c), x.key[j], y.key[j]);
    }
  }

  // Completed copies.

  /** Every completed run leaves exactly what writing the whole table at once leaves. */
  ghost predicate AlwaysCopied(cfg: Config, rt: Runtime, d: Description, cols: seq<Column>) {
    forall s :: Reachable(cfg, s) && s.ckpt.Completed? ==>
      TxWrite.Written(rt, map[], CellsOf(cfg.src), d, cols) == Success(s.table)
  }

  lemma AlwaysCopiedMeansConverted(cfg: Config, rt: Runtime, d: Description, cols: seq<Column>)
    requires UsesWriter(cfg, rt, d, cols) && AllConvertible(cfg)
    ensures AlwaysCopied(cfg, rt, d, cols) <==>
              forall s :: Reachable(cfg, s) && s.ckpt.Completed? ==> s.table == Converted(cfg)
  {
    assert forall i :: 0 <= i < |cfg.src| ==> cfg.src[i] in cfg.src;
    WriterRefinesWrite(cfg, rt, d, cols, map[], cfg.src);
  }

  lemma CopiedIffNoSkip(cfg: Config, rt: Runtime, d: Description, cols: seq<Column>, kinds: seq<KeyKind>)
    requires KeyedTable(cfg, rt, d, cols, kinds) && cfg.choice.KeptLast? && CanBind(cfg) && AllConvertible(cfg)
    ensures AlwaysCopied(cfg, rt, d, cols) <==> NoSkip(cfg)
  {
    KeysStayDistinct(cfg, rt, d, cols, kinds);
    CompleteExactlyWhenNoSkip(cfg);
    AlwaysCopiedMeansConverted(cfg, rt, d, cols);
  }

  /** End to end: with the cursor of the last kept row, a table keyed by any number of integer and string columns is an
      exact copy in every completed run, after any crashes, restarts, failed writes and batch sizes, if and only if
      the state table brings no key back at or above its successor. */
  lemma TablesAreCopiedIffNoKeySkips(cfg: Config, rt: Runtime, d: Description, cols: seq<Column>, kinds: seq<KeyKind>,
                                     overflow: int, text: string -> string)
    requires KeyedTable(cfg, rt, d, cols, kinds) && cfg.choice.KeptLast? && cfg.codec == KeyCodec(overflow, text)
    requires CanBind(cfg) && AllConvertible(cfg)
    ensures AlwaysCopied(cfg, rt, d, cols) <==>
              forall i :: 0 <= i && i + 1 < |cfg.src| ==>
                KeyLess(KeyCodec(overflow, text)(cfg.src[i].key), cfg.src[i + 1].key)
  {
    CopiedIffNoSkip(cfg, rt, d, cols, kinds);
  }

  lemma IntegerKeysAreIntKeyed(cfg: Config, rt: Runtime, d: Description, cols: seq<Column>, kind: KeyKind)
    requires KeyedTable(cfg, rt, d, cols, [kind]) && kind.IntegerKey?
    ensures IntKeyed(cfg.src)
  {
    forall i | 0 <= i < |cfg.src| ensures |cfg.src[i].key| == 1 && cfg.src[i].key[0].IntKey? {
      assert HoldsItsKey(rt, d, cols, [kind], cfg.src[i]);
      assert HasKeyColumn(rt, d, cols, [kind][0], d.primaryKey[0]);
    }
  }

  /** For one integer column of any MySQL type, AUTO_INCREMENT or not, with or without display width: if and only if no
      key is rounded to or past its successor. */
  lemma IntegerTablesAreCopiedIffKeysKeepApart(cfg: Config, rt: Runtime, d: Description, cols: seq<Column>, kind: KeyKind,
                                               overflow: int, text: string -> string)
    requires KeyedTable(cfg, rt, d, cols, [kind]) && kind.IntegerKey? && cfg.choice.KeptLast?
    requires cfg.codec == KeyCodec(overflow, text) && CanBind(cfg) && AllConvertible(cfg)
    ensures IntKeyed(cfg.src)
    ensures AlwaysCopied(cfg, rt, d, cols) <==>
              forall i :: 0 <= i && i + 1 < |cfg.src| ==>
                Reloaded(IntKeyOf(cfg.src[i]), overflow) < IntKeyOf(cfg.src[i + 1])
  {
    IntegerKeysAreIntKeyed(cfg, rt, d, cols, kind);
    CopiedIffNoSkip(cfg, rt, d, cols, [kind]);
    NoSkipOfIntegers(cfg, overflow, text);
  }

  /** Keys that come back as they were, integers within ±2^53 and text that JSON carries unchanged: such a table is an
      exact copy whenever it is marked completed. */
  lemma TablesAreCopiedExactly(cfg: Config, rt: Runtime, d: Description, cols: seq<Column>, kinds: seq<KeyKind>,
                               overflow: int, text: string -> string, s: State)
    requires KeyedTable(cfg, rt, d, cols, kinds) && cfg.choice.KeptLast? && cfg.codec == KeyCodec(overflow, text)
    requires KeysReloadExactly(cfg.src, text)
    requires Reachable(cfg, s) && s.ckpt.Completed?
    ensures TxWrite.Written(rt, map[], CellsOf(cfg.src), d, cols) == Success(s.table)
  {
    KeysStayDistinct(cfg, rt, d, cols, kinds);
    ReloadedKeysResume(cfg, overflow, text);
    CompletedIsExact(cfg, s);
    WriterRefinesWrite(cfg, rt, d, cols, map[], cfg.src);
  }

  /** The cursor of the code with one batch size B and such keys: however often the process died, a completed table is
      exactly what writing the rows i with (i+1) mod (B+1) != 0 at once leaves. */
  lemma CodeCopiesTheSurvivors(cfg: Config, rt: Runtime, d: Description, cols: seq<Column>, kinds: seq<KeyKind>,
                               overflow: int, text: string -> string, tr: seq<State>, acts: seq<Action>, batch: nat, n: nat)
    requires KeyedTable(cfg, rt, d, cols, kinds) && cfg.choice.FetchedExtra? && cfg.codec == KeyCodec(overflow, text)
    requires KeysReloadExactly(cfg.src, text) && batch >= 1
    requires RunWithBatch(cfg, tr, acts, batch) && n <= |acts| && tr[n].ckpt.Completed?
    ensures TxWrite.Written(rt, map[], CellsOf(Survivors(cfg.src, 0, batch)), d, cols) == Success(tr[n].table)
  {
    KeysStayDistinct(cfg, rt, d, cols, kinds);
    ReloadedKeysResume(cfg, overflow, text);
    forall i | 0 <= i < |cfg.src| ensures Pos(cfg.src, After(cfg.codec(cfg.src[i].key))) == i + 1 {
      PosOfRow(cfg.src, i);
    }
    CrashesLoseExactly(cfg, tr, acts, batch, n);
    WriterRefinesWrite(cfg, rt, d, cols, map[], Survivors(cfg.src, 0, batch));
  }

  // Which tables can be completed at all.

  lemma ConvertibleIffStorable(cfg: Config, rt: Runtime, d: Description, cols: seq<Column>, r: Row)
    requires UsesWriter(cfg, rt, d, cols) && IsTypedTable(rt, d, cols) && IsDriverRow(rt, r.cells, d, cols)
    ensures cfg.convert(r).Success? <==> IsStorableRow(rt, r.cells, d, cols)
  {
    RowIsTakenIff(rt, r.cells, d, cols);
  }

  /** A table that skips no key can be completed if and only if every cell of every row is storable: one bit, one
      decimal or one unread date keeps it incomplete for ever. */
  lemma CompletableIffStorable(cfg: Config, rt: Runtime, d: Description, cols: seq<Column>, kinds: seq<KeyKind>)
    requires KeyedTable(cfg, rt, d, cols, kinds) && cfg.choice.KeptLast? && NoSkip(cfg) && CanBind(cfg)
    requires IsTypedTable(rt, d, cols) && forall r :: r in cfg.src ==> IsDriverRow(rt, r.cells, d, cols)
    ensures (exists s :: Reachable(cfg, s) && s.ckpt.Completed?) <==>
              forall r :: r in cfg.src ==> IsStorableRow(rt, r.cells, d, cols)
  {
    forall r | r in cfg.src ensures cfg.convert(r).Success? <==> IsStorableRow(rt, r.cells, d, cols) {
      ConvertibleIffStorable(cfg, rt, d, cols, r);
    }
    if s :| Reachable(cfg, s) && s.ckpt.Completed? {
      KeysStayDistinct(cfg, rt, d, cols, kinds);
      CompletedIsExact(cfg, s);
    } else if forall r :: r in cfg.src ==> IsStorableRow(rt, r.cells, d, cols) {
      SomeRunCompletes(cfg);
    }
  }
}
