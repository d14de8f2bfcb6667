/** The CREATE TABLE statement: how it is printed, and that parsing it recovers the table. */
module Ddl {
  import opened SqlText
  import opened TableSchema
  import opened ColumnTypes

  datatype ColType = Serial | Typed(base: string, nullable: bool)

  datatype Item =
    | ColumnItem(name: string, ty: ColType)
    | IndexItem(name: string, unique: bool, cols: seq<string>)
    | KeyItem(cols: seq<string>)

  // The items of a table, in print order.

  function ColumnItems(cols: seq<Column>): seq<Item> {
    if cols == [] then []
    else
      var c := cols[|cols| - 1];
      ColumnItems(cols[..|cols| - 1]) +
      [ColumnItem(c.name, if c.autoIncrement then Serial else Typed(YqlBase(c.dataType), c.nullable))]
  }

  function IndexItems(indexes: seq<IndexInfo>, pk: seq<string>): seq<Item> {
    if indexes == [] then []
    else
      var i := indexes[|indexes| - 1];
      IndexItems(indexes[..|indexes| - 1], pk) + if i.columns == pk then [] else [IndexItem(i.name, i.unique, i.columns)]
  }

  function Items(meta: TableMeta): seq<Item> {
    ColumnItems(meta.columns) + IndexItems(meta.indexes, meta.pkCols) + [KeyItem(meta.pkCols)]
  }

  // The printed text.

  function Quoted(names: seq<string>): seq<string> {
    seq(|names|, i requires 0 <= i < |names| => Quote(names[i]))
  }

  function TypeText(ty: ColType): string {
    match ty
    case Serial => "BigSerial NOT NULL"
    case Typed(b, true) => "Optional<" + b + ">"
    case Typed(b, false) => b
  }

  function IndexKind(unique: bool): string {
    if unique then "UNIQUE SYNC" else "ASYNC"
  }

  function ItemText(i: Item): string {
    match i
    case ColumnItem(n, ty) => Quote(n) + " " + TypeText(ty)
    case IndexItem(n, u, cols) =>
      "INDEX " + Quote(n) + " GLOBAL " + IndexKind(u) + " ON (" + Join(Quoted(cols), ", ") + ")"
    case KeyItem(cols) => "PRIMARY KEY (" + Join(Quoted(cols), ", ") + ")"
  }

  function ItemTexts(items: seq<Item>): seq<string> {
    seq(|items|, i requires 0 <= i < |items| => ItemText(items[i]))
  }

  const TAIL := "\n)\n" + "WITH " + "(\n\t" + "AUTO_PARTITIONING_BY_LOAD = ENABLED" + "\n)"

  function DdlText(path: string, items: seq<Item>): string {
    "CREATE TABLE IF NOT EXISTS " + Quote(path) + " (\n\t" + Join(ItemTexts(items), ",\n\t") +
    TAIL
  }

  method IndexEqualsPK(cols: seq<string>, pk: seq<string>) returns (equal: bool)
    ensures equal == (cols == pk)
  {
    if |cols| != |pk| { return false; }
    for i := 0 to |cols|
      invariant cols[..i] == pk[..i]
    {
      if cols[i] != pk[i] { return false; }
    }
    return true;
  }

  method QuoteAll(names: seq<string>) returns (quoted: seq<string>)
    ensures quoted == Quoted(names)
  {
    quoted := [];
    for i := 0 to |names|
      invariant quoted == Quoted(names)[..i]
    {
      quoted := quoted + [Quote(names[i])];
    }
  }

  lemma TextsConcat(a: seq<Item>, b: seq<Item>)
    ensures ItemTexts(a + b) == ItemTexts(a) + ItemTexts(b)
  {}

  method ColumnLines(cols: seq<Column>) returns (parts: seq<string>)
    ensures parts == ItemTexts(ColumnItems(cols))
  {
    parts := [];
    for i := 0 to |cols|
      invariant parts == ItemTexts(ColumnItems(cols[..i]))
    {
      assert cols[..i + 1][..i] == cols[..i];
      var line;
      if cols[i].autoIncrement {
        line := Quote(cols[i].name) + " " + "BigSerial NOT NULL";
      } else {
        line := Quote(cols[i].name) + " " + MysqlDataTypeToYql(cols[i].dataType, cols[i].nullable);
      }
      parts := parts + [line];
    }
    assert cols[..|cols|] == cols;
  }

  method IndexLines(indexes: seq<IndexInfo>, pk: seq<string>) returns (parts: seq<string>)
    ensures parts == ItemTexts(IndexItems(indexes, pk))
  {
    parts := [];
    for i := 0 to |indexes|
      invariant parts == ItemTexts(IndexItems(indexes[..i], pk))
    {
      assert indexes[..i + 1][..i] == indexes[..i];
      var idx := indexes[i];
      var skip := IndexEqualsPK(idx.columns, pk);
      if skip { continue; }
      var quotedCols := QuoteAll(idx.columns);
      TextsConcat(IndexItems(indexes[..i], pk), [IndexItem(idx.name, idx.unique, idx.columns)]);
      parts := parts +
        ["INDEX " + Quote(idx.name) + " GLOBAL " + IndexKind(idx.unique) + " ON (" + Join(quotedCols, ", ") + ")"];
    }
    assert indexes[..|indexes|] == indexes;
  }

  method BuildCreateTableDDL(path: string, meta: TableMeta) returns (ddl: string)
    ensures ddl == DdlText(path, Items(meta))
  {
    var columns := ColumnLines(meta.columns);
    var indexes := IndexLines(meta.indexes, meta.pkCols);
    var pkList := QuoteAll(meta.pkCols);
    var parts := columns + indexes + ["PRIMARY KEY (" + Join(pkList, ", ") + ")"];
    TextsConcat(ColumnItems(meta.columns), IndexItems(meta.indexes, meta.pkCols));
    TextsConcat(ColumnItems(meta.columns) + IndexItems(meta.indexes, meta.pkCols), [KeyItem(meta.pkCols)]);
    assert parts == ItemTexts(Items(meta));
    ddl := "CREATE TABLE IF NOT EXISTS " + Quote(path) + " (\n\t" + Join(parts, ",\n\t") + TAIL;
  }

  // The text as lexemes.

  function NamesLex(names: seq<string>): seq<Lexeme> {
    if names == [] then []
    else if |names| == 1 then [Id(names[0])]
    else [Id(names[0]), Punct(','), Gap(' ')] + NamesLex(names[1..])
  }

  const DECIMAL_LEX: seq<Lexeme> := [Kw("Decimal"), Punct('('), Kw("22"), Punct(','), Gap(' '), Kw("9"), Punct(')')]

  function BaseLex(b: string): seq<Lexeme> {
    if b == "Decimal(22, 9)" then DECIMAL_LEX else [Kw(b)]
  }

  function TypeLex(ty: ColType): seq<Lexeme> {
    match ty
    case Serial => [Kw("BigSerial"), Gap(' '), Kw("NOT"), Gap(' '), Kw("NULL")]
    case Typed(b, true) => [Kw("Optional"), Punct('<')] + BaseLex(b) + [Punct('>')]
    case Typed(b, false) => BaseLex(b)
  }

  const INDEX_LEX: seq<Lexeme> := [Kw("INDEX"), Gap(' ')]
  const GLOBAL_LEX: seq<Lexeme> := [Gap(' '), Kw("GLOBAL"), Gap(' ')]
  const ON_LEX: seq<Lexeme> := [Gap(' '), Kw("ON"), Gap(' '), Punct('(')]
  const KEY_LEX: seq<Lexeme> := [Kw("PRIMARY"), Gap(' '), Kw("KEY"), Gap(' '), Punct('(')]
  const CLOSE_LEX: seq<Lexeme> := [Punct(')')]

  function KindLex(unique: bool): seq<Lexeme> {
    if unique then [Kw("UNIQUE"), Gap(' '), Kw("SYNC")] else [Kw("ASYNC")]
  }

  function ItemLex(i: Item): seq<Lexeme> {
    match i
    case ColumnItem(n, ty) => [Id(n), Gap(' ')] + TypeLex(ty)
    case IndexItem(n, u, cols) =>
      INDEX_LEX + [Id(n)] + GLOBAL_LEX + KindLex(u) + ON_LEX + NamesLex(cols) + CLOSE_LEX
    case KeyItem(cols) => KEY_LEX + NamesLex(cols) + CLOSE_LEX
  }

  const COMMA_LEX: seq<Lexeme> := [Punct(','), Gap('\n'), Gap('\t')]

  function ItemsLex(items: seq<Item>): seq<Lexeme> {
    if items == [] then []
    else if |items| == 1 then ItemLex(items[0])
    else ItemLex(items[0]) + COMMA_LEX + ItemsLex(items[1..])
  }

  function Spaced(w: string): seq<Lexeme> { [Kw(w), Gap(' ')] }

  const HEAD_LEX := Spaced("CREATE") + Spaced("TABLE") + Spaced("IF") + Spaced("NOT") + Spaced("EXISTS")
  const OPEN_LEX: seq<Lexeme> := [Gap(' '), Punct('('), Gap('\n'), Gap('\t')]
  const LINE_LEX: seq<Lexeme> := [Gap('\n'), Punct(')'), Gap('\n')]
  const INDENT_LEX: seq<Lexeme> := [Punct('('), Gap('\n'), Gap('\t')]
  const ENABLED_LEX := Spaced("AUTO_PARTITIONING_BY_LOAD") + [Punct('='), Gap(' ')] + [Kw("ENABLED")]
  const END_LEX: seq<Lexeme> := [Gap('\n'), Punct(')')]
  const TAIL_LEX := LINE_LEX + Spaced("WITH") + INDENT_LEX + ENABLED_LEX + END_LEX

  function DdlLex(path: string, items: seq<Item>): seq<Lexeme> {
    HEAD_LEX + [Id(path)] + OPEN_LEX + ItemsLex(items) + TAIL_LEX
  }

  // The lexemes render to the text.

  lemma RenderSpaced(w: string)
    ensures Render(Spaced(w)) == w + " "
  {
    assert Render([Gap(' ')]) == " ";
  }

  lemma RenderFive(a: seq<Lexeme>, b: seq<Lexeme>, c: seq<Lexeme>, d: seq<Lexeme>, e: seq<Lexeme>)
    ensures Render(a + b + c + d + e) == Render(a) + Render(b) + Render(c) + Render(d) + Render(e)
  {
    RenderThree(a + b + c, d, e);
    RenderThree(a, b, c);
  }

  lemma HeadText()
    ensures Render(HEAD_LEX) == "CREATE TABLE IF NOT EXISTS "
  {
    RenderSpaced("CREATE");
    RenderSpaced("TABLE");
    RenderSpaced("IF");
    RenderSpaced("NOT");
    RenderSpaced("EXISTS");
    RenderFive(Spaced("CREATE"), Spaced("TABLE"), Spaced("IF"), Spaced("NOT"), Spaced("EXISTS"));
  }

  lemma RenderPair(a: Lexeme, b: Lexeme)
    ensures Render([a, b]) == LexemeText(a) + LexemeText(b)
  {
    assert Render([b]) == LexemeText(b);
  }

  lemma RenderTriple(a: Lexeme, b: Lexeme, c: Lexeme)
    ensures Render([a, b, c]) == LexemeText(a) + (LexemeText(b) + LexemeText(c))
  {
    RenderPair(b, c);
    assert [a, b, c][1..] == [b, c];
  }

  lemma OpenText()
    ensures Render(OPEN_LEX) == " (\n\t"
  {
    RenderTriple(Punct('('), Gap('\n'), Gap('\t'));
    assert OPEN_LEX[1..] == INDENT_LEX;
  }

  lemma EnabledText()
    ensures Render(ENABLED_LEX) == "AUTO_PARTITIONING_BY_LOAD = ENABLED"
  {
    RenderSpaced("AUTO_PARTITIONING_BY_LOAD");
    RenderPair(Punct('='), Gap(' '));
    RenderThree(Spaced("AUTO_PARTITIONING_BY_LOAD"), [Punct('='), Gap(' ')], [Kw("ENABLED")]);
  }

  lemma TailText()
    ensures Render(TAIL_LEX) == TAIL
  {
    assert Render(LINE_LEX) == "\n)\n" by { RenderTriple(Gap('\n'), Punct(')'), Gap('\n')); }
    assert Render(Spaced("WITH")) == "WITH " by { RenderSpaced("WITH"); }
    assert Render(INDENT_LEX) == "(\n\t" by { RenderTriple(Punct('('), Gap('\n'), Gap('\t')); }
    EnabledText();
    assert Render(END_LEX) == "\n)" by { RenderPair(Gap('\n'), Punct(')')); }
    RenderFive(LINE_LEX, Spaced("WITH"), INDENT_LEX, ENABLED_LEX, END_LEX);
  }

  lemma {:induction false} RenderNames(names: seq<string>)
    ensures Render(NamesLex(names)) == Join(Quoted(names), ", ")
  {
    if |names| == 1 {
      assert Render([Id(names[0])]) == Quote(names[0]);
    } else if |names| > 1 {
      RenderNames(names[1..]);
      assert Quoted(names)[1..] == Quoted(names[1..]);
      RenderTriple(Id(names[0]), Punct(','), Gap(' '));
      RenderConcat([Id(names[0]), Punct(','), Gap(' ')], NamesLex(names[1..]));
      assert Quote(names[0]) + ([','] + [' ']) == Quote(names[0]) + ", ";
    }
  }

  /** The type names the DDL writes. */
  predicate IsBase(b: string) {
    b == "Decimal(22, 9)" || (IsWord(b) && b != "BigSerial" && b != "Optional")
  }

  predicate WellTyped(i: Item) {
    i.ColumnItem? && i.ty.Typed? ==> IsBase(i.ty.base)
  }

  lemma DecimalText()
    ensures Render(DECIMAL_LEX) == "Decimal(22, 9)"
  {
    RenderTriple(Kw("Decimal"), Punct('('), Kw("22"));
    RenderTriple(Gap(' '), Kw("9"), Punct(')'));
    RenderThree([Kw("Decimal"), Punct('('), Kw("22")], [Punct(',')], [Gap(' '), Kw("9"), Punct(')')]);
    assert Render([Punct(',')]) == ",";
  }

  lemma RenderBase(b: string)
    ensures Render(BaseLex(b)) == b
  {
    if b == "Decimal(22, 9)" { DecimalText(); } else { assert Render([Kw(b)]) == b; }
  }

  lemma RenderType(ty: ColType)
    ensures Render(TypeLex(ty)) == TypeText(ty)
  {
    match ty
    case Serial =>
      RenderTriple(Kw("BigSerial"), Gap(' '), Kw("NOT"));
      RenderPair(Gap(' '), Kw("NULL"));
      RenderConcat([Kw("BigSerial"), Gap(' '), Kw("NOT")], [Gap(' '), Kw("NULL")]);
      assert TypeLex(ty) == [Kw("BigSerial"), Gap(' '), Kw("NOT")] + [Gap(' '), Kw("NULL")];
    case Typed(b, true) =>
      RenderPair(Kw("Optional"), Punct('<'));
      RenderBase(b);
      assert Render([Punct('>')]) == ">";
      RenderThree([Kw("Optional"), Punct('<')], BaseLex(b), [Punct('>')]);
    case Typed(b, false) => RenderBase(b);
  }

  lemma RenderKind(unique: bool)
    ensures Render(KindLex(unique)) == IndexKind(unique)
  {
    if unique { RenderTriple(Kw("UNIQUE"), Gap(' '), Kw("SYNC")); } else { assert Render([Kw("ASYNC")]) == "ASYNC"; }
  }

  lemma PieceTexts(n: string)
    ensures Render(INDEX_LEX) == "INDEX " && Render([Id(n)]) == Quote(n) && Render(GLOBAL_LEX) == " GLOBAL "
    ensures Render(CLOSE_LEX) == ")"
  {
    RenderPair(Kw("INDEX"), Gap(' '));
    RenderTriple(Gap(' '), Kw("GLOBAL"), Gap(' '));
  }

  lemma OnText()
    ensures Render(ON_LEX) == " ON ("
    ensures Render(KEY_LEX) == "PRIMARY KEY ("
  {
    RenderPair(Gap(' '), Kw("ON"));
    RenderPair(Gap(' '), Punct('('));
    RenderConcat([Gap(' '), Kw("ON")], [Gap(' '), Punct('(')]);
    assert ON_LEX == [Gap(' '), Kw("ON")] + [Gap(' '), Punct('(')];
    RenderTriple(Kw("PRIMARY"), Gap(' '), Kw("KEY"));
    RenderConcat([Kw("PRIMARY"), Gap(' '), Kw("KEY")], [Gap(' '), Punct('(')]);
    assert KEY_LEX == [Kw("PRIMARY"), Gap(' '), Kw("KEY")] + [Gap(' '), Punct('(')];
  }

  lemma RenderIndex(n: string, u: bool, cols: seq<string>)
    ensures Render(ItemLex(IndexItem(n, u, cols))) == ItemText(IndexItem(n, u, cols))
  {
    PieceTexts(n);
    OnText();
    RenderKind(u);
    RenderNames(cols);
    var front := INDEX_LEX + [Id(n)] + GLOBAL_LEX + KindLex(u) + ON_LEX;
    RenderFive(INDEX_LEX, [Id(n)], GLOBAL_LEX, KindLex(u), ON_LEX);
    RenderThree(front, NamesLex(cols), CLOSE_LEX);
  }

  lemma RenderItem(i: Item)
    ensures Render(ItemLex(i)) == ItemText(i)
  {
    match i
    case ColumnItem(n, ty) =>
      RenderPair(Id(n), Gap(' '));
      RenderType(ty);
      RenderConcat([Id(n), Gap(' ')], TypeLex(ty));
    case IndexItem(n, u, cols) => RenderIndex(n, u, cols);
    case KeyItem(cols) =>
      OnText();
      PieceTexts("");
      RenderNames(cols);
      RenderThree(KEY_LEX, NamesLex(cols), CLOSE_LEX);
  }

  lemma {:induction false} RenderItems(items: seq<Item>)
    ensures Render(ItemsLex(items)) == Join(ItemTexts(items), ",\n\t")
  {
    if |items| == 1 {
      RenderItem(items[0]);
    } else if |items| > 1 {
      RenderItem(items[0]);
      RenderItems(items[1..]);
      assert ItemTexts(items)[1..] == ItemTexts(items[1..]);
      assert Render(COMMA_LEX) == ",\n\t" by { RenderTriple(Punct(','), Gap('\n'), Gap('\t')); }
      RenderThree(ItemLex(items[0]), COMMA_LEX, ItemsLex(items[1..]));
    }
  }

  lemma RenderDdl(path: string, items: seq<Item>)
    ensures Render(DdlLex(path, items)) == DdlText(path, items)
  {
    HeadText();
    PieceTexts(path);
    OpenText();
    RenderItems(items);
    TailText();
    RenderFive(HEAD_LEX, [Id(path)], OPEN_LEX, ItemsLex(items), TAIL_LEX);
  }
}
