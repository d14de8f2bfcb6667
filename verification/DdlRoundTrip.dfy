/** Tokenizing and parsing the CREATE TABLE text gives back the table, whatever the identifiers are. */
module DdlRoundTrip {
  import opened SqlText
  import opened TableSchema
  import opened ColumnTypes
  import opened Ddl

  // The lexemes never run together.

  predicate Meet(a: seq<Lexeme>, b: seq<Lexeme>) {
    a == [] || b == [] || !((a[|a| - 1].Id? && b[0].Id?) || (a[|a| - 1].Kw? && b[0].Kw?))
  }

  lemma JoinSpaced(a: seq<Lexeme>, b: seq<Lexeme>)
    requires WellSpaced(a) && WellSpaced(b) && Meet(a, b)
    ensures WellSpaced(a + b)
  {}

  /** Separators that fit between anything. */
  predicate IsSeparator(s: seq<Lexeme>) {
    WellSpaced(s) && s != [] && (s[0].Gap? || s[0].Punct?) && (s[|s| - 1].Gap? || s[|s| - 1].Punct?)
  }

  lemma SeparatedSpaced(a: seq<Lexeme>, sep: seq<Lexeme>, b: seq<Lexeme>)
    requires WellSpaced(a) && IsSeparator(sep) && WellSpaced(b)
    ensures WellSpaced(a + sep + b)
  {
    JoinSpaced(a, sep);
    JoinSpaced(a + sep, b);
  }

  lemma KeywordsAreWords()
    ensures IsWord("CREATE") && IsWord("TABLE") && IsWord("IF") && IsWord("NOT") && IsWord("EXISTS") && IsWord("WITH")
    ensures IsWord("AUTO_PARTITIONING_BY_LOAD") && IsWord("ENABLED")
  {}

  lemma ItemWordsAreWords()
    ensures IsWord("INDEX") && IsWord("GLOBAL") && IsWord("ON") && IsWord("PRIMARY") && IsWord("KEY")
    ensures IsWord("UNIQUE") && IsWord("SYNC") && IsWord("ASYNC")
  {}

  lemma TypeWordsAreWords()
    ensures IsWord("BigSerial") && IsWord("NOT") && IsWord("NULL") && IsWord("Optional")
    ensures IsWord("Decimal") && IsWord("22") && IsWord("9")
  {}

  lemma {:induction false} NamesSpaced(names: seq<string>)
    ensures WellSpaced(NamesLex(names))
    ensures names != [] ==> NamesLex(names) != [] && NamesLex(names)[0].Id?
  {
    if |names| <= 1 {
    } else {
      NamesSpaced(names[1..]);
      JoinSpaced([Id(names[0]), Punct(','), Gap(' ')], NamesLex(names[1..]));
    }
  }

  lemma BaseSpaced(b: string)
    requires IsBase(b)
    ensures WellSpaced(BaseLex(b))
  {
    TypeWordsAreWords();
  }

  lemma SerialSpaced()
    ensures WellSpaced(TypeLex(Serial))
  {
    TypeWordsAreWords();
  }

  lemma TypeSpaced(ty: ColType)
    requires ty.Typed? ==> IsBase(ty.base)
    ensures WellSpaced(TypeLex(ty))
  {
    if ty.Serial? {
      SerialSpaced();
    } else {
      BaseSpaced(ty.base);
      if ty.nullable { SeparatedSpacedAround(BaseLex(ty.base)); }
    }
  }

  lemma SeparatedSpacedAround(base: seq<Lexeme>)
    requires WellSpaced(base)
    ensures WellSpaced([Kw("Optional"), Punct('<')] + base + [Punct('>')])
  {
    TypeWordsAreWords();
    JoinSpaced([Kw("Optional"), Punct('<')], base);
    JoinSpaced([Kw("Optional"), Punct('<')] + base, [Punct('>')]);
  }

  lemma IndexSpaced(n: string, u: bool, cols: seq<string>)
    ensures WellSpaced(ItemLex(IndexItem(n, u, cols)))
  {
    ItemWordsAreWords();
    NamesSpaced(cols);
    var head := INDEX_LEX + [Id(n)] + GLOBAL_LEX;
    assert WellSpaced(head);
    JoinSpaced(head, KindLex(u));
    JoinSpaced(head + KindLex(u), ON_LEX);
    JoinSpaced(head + KindLex(u) + ON_LEX, NamesLex(cols));
    JoinSpaced(head + KindLex(u) + ON_LEX + NamesLex(cols), CLOSE_LEX);
  }

  lemma ItemSpaced(i: Item)
    requires WellTyped(i)
    ensures WellSpaced(ItemLex(i))
  {
    match i
    case ColumnItem(n, ty) =>
      TypeSpaced(ty);
      JoinSpaced([Id(n), Gap(' ')], TypeLex(ty));
    case IndexItem(n, u, cols) => IndexSpaced(n, u, cols);
    case KeyItem(cols) =>
      ItemWordsAreWords();
      NamesSpaced(cols);
      JoinSpaced(KEY_LEX, NamesLex(cols));
      JoinSpaced(KEY_LEX + NamesLex(cols), CLOSE_LEX);
  }

  ghost predicate AllTyped(items: seq<Item>) {
    forall i :: 0 <= i < |items| ==> WellTyped(items[i])
  }

  lemma {:induction false} ItemsSpaced(items: seq<Item>)
    requires AllTyped(items)
    ensures WellSpaced(ItemsLex(items))
  {
    if items == [] {
    } else {
      ItemSpaced(items[0]);
      if |items| > 1 {
        ItemsSpaced(items[1..]);
        SeparatedSpaced(ItemLex(items[0]), COMMA_LEX, ItemsLex(items[1..]));
      }
    }
  }

  lemma HeadSpaced(path: string)
    ensures WellSpaced(HEAD_LEX + [Id(path)] + OPEN_LEX)
  {
    KeywordsAreWords();
    assert WellSpaced(HEAD_LEX);
    JoinSpaced(HEAD_LEX, [Id(path)]);
    JoinSpaced(HEAD_LEX + [Id(path)], OPEN_LEX);
  }

  lemma TailSpaced()
    ensures WellSpaced(TAIL_LEX)
  {
    KeywordsAreWords();
    JoinSpaced(LINE_LEX, Spaced("WITH"));
    JoinSpaced(LINE_LEX + Spaced("WITH"), INDENT_LEX);
    JoinSpaced(LINE_LEX + Spaced("WITH") + INDENT_LEX, ENABLED_LEX);
    JoinSpaced(LINE_LEX + Spaced("WITH") + INDENT_LEX + ENABLED_LEX, END_LEX);
  }

  lemma DdlSpaced(path: string, items: seq<Item>)
    requires AllTyped(items)
    ensures WellSpaced(DdlLex(path, items))
  {
    var head := HEAD_LEX + [Id(path)] + OPEN_LEX;
    HeadSpaced(path);
    ItemsSpaced(items);
    TailSpaced();
    JoinSpaced(head, ItemsLex(items));
    JoinSpaced(head + ItemsLex(items), TAIL_LEX);
  }

  // The parser.

  type Rest = seq<Token>

  function ParseNames(ts: seq<Token>): (p: Option<(seq<string>, Rest)>)
    ensures p.Some? ==> |p.value.1| < |ts|
  {
    if ts == [] || !ts[0].Name? then None
    else if |ts| > 1 && ts[1] == Sym(',') then
      match ParseNames(ts[2..])
      case None => None
      case Some((ns, rest)) => Some(([ts[0].n] + ns, rest))
    else Some(([ts[0].n], ts[1..]))
  }

  /** "(" names ")" */
  function ParseColumnList(ts: seq<Token>): (p: Option<(seq<string>, Rest)>)
    ensures p.Some? ==> |p.value.1| < |ts|
  {
    if ts == [] || ts[0] != Sym('(') then None
    else
      match ParseNames(ts[1..])
      case None => None
      case Some((ns, rest)) => if rest != [] && rest[0] == Sym(')') then Some((ns, rest[1..])) else None
  }

  function ParseBase(ts: seq<Token>): (p: Option<(string, Rest)>)
    ensures p.Some? ==> |p.value.1| < |ts|
  {
    if ts == [] || !ts[0].Word? then None
    else if |ts| >= 6 && ts[1] == Sym('(') && ts[2].Word? && ts[3] == Sym(',') && ts[4].Word? && ts[5] == Sym(')') then
      Some((ts[0].w + "(" + ts[2].w + ", " + ts[4].w + ")", ts[6..]))
    else Some((ts[0].w, ts[1..]))
  }

  function ParseType(ts: seq<Token>): (p: Option<(ColType, Rest)>)
    ensures p.Some? ==> |p.value.1| < |ts|
  {
    if |ts| >= 3 && ts[0] == Word("BigSerial") && ts[1] == Word("NOT") && ts[2] == Word("NULL") then Some((Serial, ts[3..]))
    else if |ts| >= 2 && ts[0] == Word("Optional") && ts[1] == Sym('<') then
      match ParseBase(ts[2..])
      case None => None
      case Some((b, rest)) => if rest != [] && rest[0] == Sym('>') then Some((Typed(b, true), rest[1..])) else None
    else
      match ParseBase(ts)
      case None => None
      case Some((b, rest)) => Some((Typed(b, false), rest))
  }

  function ParseIndex(ts: seq<Token>): (p: Option<(Item, Rest)>)
    ensures p.Some? ==> |p.value.1| < |ts|
  {
    if |ts| < 5 || !ts[0].Name? || ts[1] != Word("GLOBAL") then None
    else
      var u := ts[2] == Word("UNIQUE") && ts[3] == Word("SYNC") && ts[4] == Word("ON");
      if !u && !(ts[2] == Word("ASYNC") && ts[3] == Word("ON")) then None
      else
        match ParseColumnList(ts[if u then 5 else 4..])
        case None => None
        case Some((cols, rest)) => Some((IndexItem(ts[0].n, u, cols), rest))
  }

  function ParseItem(ts: seq<Token>): (p: Option<(Item, Rest)>)
    ensures p.Some? ==> |p.value.1| < |ts|
  {
    if ts == [] then None
    else if ts[0].Name? then
      match ParseType(ts[1..])
      case None => None
      case Some((ty, rest)) => Some((ColumnItem(ts[0].n, ty), rest))
    else if ts[0] == Word("INDEX") then ParseIndex(ts[1..])
    else if |ts| >= 2 && ts[0] == Word("PRIMARY") && ts[1] == Word("KEY") then
      match ParseColumnList(ts[2..])
      case None => None
      case Some((cols, rest)) => Some((KeyItem(cols), rest))
    else None
  }

  function ParseItems(ts: seq<Token>): Option<(seq<Item>, Rest)>
    decreases |ts|
  {
    match ParseItem(ts)
    case None => None
    case Some((i, rest)) =>
      if rest != [] && rest[0] == Sym(',') then
        match ParseItems(rest[1..])
        case None => None
        case Some((items, rest')) => Some(([i] + items, rest'))
      else Some(([i], rest))
  }

  const HEAD_TOKENS := [Word("CREATE"), Word("TABLE"), Word("IF"), Word("NOT"), Word("EXISTS")]
  const TAIL_TOKENS :=
    [Sym(')'), Word("WITH"), Sym('('), Word("AUTO_PARTITIONING_BY_LOAD"), Sym('='), Word("ENABLED"), Sym(')')]

  function ParseDdl(s: string): Option<(string, seq<Item>)> {
    match Tokenize(s)
    case None => None
    case Some(ts) =>
      if |ts| < 7 || ts[..5] != HEAD_TOKENS || !ts[5].Name? || ts[6] != Sym('(') then None
      else
        match ParseItems(ts[7..])
        case None => None
        case Some((items, rest)) => if rest == TAIL_TOKENS then Some((ts[5].n, items)) else None
  }

  // Parsing the tokens of the printed lexemes.

  lemma {:induction false} NamesParse(names: seq<string>, rest: Rest)
    requires names != [] && (rest == [] || rest[0] != Sym(','))
    ensures ParseNames(Tokens(NamesLex(names)) + rest) == Some((names, rest))
  {
    var ts := Tokens(NamesLex(names)) + rest;
    if |names| == 1 {
      TokensCons(Id(names[0]), []);
      assert ts == [Name(names[0])] + rest;
      assert ts[1..] == rest && names == [names[0]];
    } else {
      NamesParse(names[1..], rest);
      var inner := Tokens(NamesLex(names[1..])) + rest;
      NameCommaTokens(names[0], NamesLex(names[1..]));
      assert ts == [Name(names[0]), Sym(',')] + inner;
      assert ts[2..] == inner && names == [names[0]] + names[1..];
    }
  }

  lemma NameCommaTokens(n: string, ls: seq<Lexeme>)
    ensures Tokens([Id(n), Punct(','), Gap(' ')] + ls) == [Name(n), Sym(',')] + Tokens(ls)
  {
    TokensConcat([Id(n), Punct(','), Gap(' ')], ls);
    assert Tokens([Id(n), Punct(','), Gap(' ')]) == [Name(n), Sym(',')] by {
      assert Tokens([Gap(' ')]) == [];
      assert Tokens([Punct(','), Gap(' ')]) == [Sym(',')];
    }
  }

  lemma ColumnListParses(names: seq<string>, rest: Rest)
    requires names != []
    ensures ParseColumnList([Sym('(')] + Tokens(NamesLex(names)) + [Sym(')')] + rest) == Some((names, rest))
  {
    var ts := [Sym('(')] + Tokens(NamesLex(names)) + [Sym(')')] + rest;
    NamesParse(names, [Sym(')')] + rest);
    assert ts[1..] == Tokens(NamesLex(names)) + ([Sym(')')] + rest);
    assert ([Sym(')')] + rest)[1..] == rest;
  }

  /** An empty column list, as in PRIMARY KEY (), does not parse. */
  lemma EmptyColumnListFails(rest: Rest)
    ensures ParseColumnList([Sym('(')] + Tokens(NamesLex([])) + [Sym(')')] + rest).None?
  {
    var ts := [Sym('(')] + Tokens(NamesLex([])) + [Sym(')')] + rest;
    assert ts[1..] == [Sym(')')] + rest;
  }

  lemma DecimalTokens()
    ensures Tokens(DECIMAL_LEX) == [Word("Decimal"), Sym('('), Word("22"), Sym(','), Word("9"), Sym(')')]
  {
    TokensConcat([Kw("Decimal"), Punct('('), Kw("22")], [Punct(','), Gap(' '), Kw("9"), Punct(')')]);
    assert DECIMAL_LEX == [Kw("Decimal"), Punct('('), Kw("22")] + [Punct(','), Gap(' '), Kw("9"), Punct(')')];
    TokensTriple(Kw("Decimal"), Punct('('), Kw("22"));
    TokensConcat([Punct(','), Gap(' '), Kw("9")], [Punct(')')]);
    assert [Punct(','), Gap(' '), Kw("9"), Punct(')')] == [Punct(','), Gap(' '), Kw("9")] + [Punct(')')];
    TokensTriple(Punct(','), Gap(' '), Kw("9"));
    assert Tokens([Punct(')')]) == [Sym(')')];
  }

  lemma TokensPair(a: Lexeme, b: Lexeme)
    ensures Tokens([a, b]) == LexemeTokens(a) + LexemeTokens(b)
  {
    assert Tokens([b]) == LexemeTokens(b);
  }

  lemma TokensThenGap(l: Lexeme, c: char)
    ensures Tokens([l, Gap(c)]) == LexemeTokens(l)
  {
    TokensPair(l, Gap(c));
    assert LexemeTokens(l) + [] == LexemeTokens(l);
  }

  lemma TokensFive(a: seq<Lexeme>, b: seq<Lexeme>, c: seq<Lexeme>, d: seq<Lexeme>, e: seq<Lexeme>)
    ensures Tokens(a + b + c + d + e) == Tokens(a) + Tokens(b) + Tokens(c) + Tokens(d) + Tokens(e)
  {
    TokensThree(a + b + c, d, e);
    TokensThree(a, b, c);
  }

  lemma TokensTriple(a: Lexeme, b: Lexeme, c: Lexeme)
    ensures Tokens([a, b, c]) == LexemeTokens(a) + (LexemeTokens(b) + LexemeTokens(c))
  {
    TokensPair(b, c);
    assert [a, b, c][1..] == [b, c];
  }

  lemma BaseParses(b: string, rest: Rest)
    requires IsBase(b) && (rest == [] || rest[0] != Sym('('))
    ensures ParseBase(Tokens(BaseLex(b)) + rest) == Some((b, rest))
  {
    var ts := Tokens(BaseLex(b)) + rest;
    if b == "Decimal(22, 9)" {
      DecimalTokens();
      assert ts[6..] == rest;
      assert "Decimal" + "(" + "22" + ", " + "9" + ")" == "Decimal(22, 9)";
    } else {
      assert Tokens([Kw(b)]) == [Word(b)];
      assert ts == [Word(b)] + rest && ts[1..] == rest;
    }
  }

  /** What may follow an item: a comma or the closing parenthesis. */
  predicate Follows(rest: Rest) {
    rest != [] && (rest[0] == Sym(',') || rest[0] == Sym(')'))
  }

  lemma BaseIsNoKeyword(b: string)
    requires IsBase(b)
    ensures Tokens(BaseLex(b)) != [] && Tokens(BaseLex(b))[0].Word?
    ensures Tokens(BaseLex(b))[0] != Word("BigSerial") && Tokens(BaseLex(b))[0] != Word("Optional")
  {
    if b == "Decimal(22, 9)" { DecimalTokens(); } else { assert Tokens([Kw(b)]) == [Word(b)]; }
  }

  lemma OptionalTokens(b: string)
    ensures Tokens(TypeLex(Typed(b, true))) == [Word("Optional"), Sym('<')] + Tokens(BaseLex(b)) + [Sym('>')]
  {
    TokensThree([Kw("Optional"), Punct('<')], BaseLex(b), [Punct('>')]);
    TokensPair(Kw("Optional"), Punct('<'));
    assert Tokens([Punct('>')]) == [Sym('>')];
  }

  lemma OptionalParses(b: string, rest: Rest)
    requires IsBase(b)
    ensures ParseType(Tokens(TypeLex(Typed(b, true))) + rest) == Some((Typed(b, true), rest))
  {
    OptionalTokens(b);
    FourParts([Word("Optional"), Sym('<')], Tokens(BaseLex(b)), [Sym('>')], rest);
    BaseParses(b, [Sym('>')] + rest);
    assert ([Sym('>')] + rest)[1..] == rest;
  }

  lemma SerialParses(rest: Rest)
    ensures ParseType(Tokens(TypeLex(Serial)) + rest) == Some((Serial, rest))
  {
    TokensTriple(Kw("BigSerial"), Gap(' '), Kw("NOT"));
    TokensPair(Gap(' '), Kw("NULL"));
    TokensConcat([Kw("BigSerial"), Gap(' '), Kw("NOT")], [Gap(' '), Kw("NULL")]);
    assert TypeLex(Serial) == [Kw("BigSerial"), Gap(' '), Kw("NOT")] + [Gap(' '), Kw("NULL")];
    var ts := Tokens(TypeLex(Serial)) + rest;
    assert ts == [Word("BigSerial"), Word("NOT"), Word("NULL")] + rest && ts[3..] == rest;
  }

  lemma TypeParses(ty: ColType, rest: Rest)
    requires (ty.Typed? ==> IsBase(ty.base)) && Follows(rest)
    ensures ParseType(Tokens(TypeLex(ty)) + rest) == Some((ty, rest))
  {
    match ty
    case Serial => SerialParses(rest);
    case Typed(b, true) => OptionalParses(b, rest);
    case Typed(b, false) =>
      BaseParses(b, rest);
      BaseIsNoKeyword(b);
      assert (Tokens(BaseLex(b)) + rest)[0] == Tokens(BaseLex(b))[0];
  }

  function KindTokensOf(u: bool): seq<Token> {
    if u then [Word("UNIQUE"), Word("SYNC")] else [Word("ASYNC")]
  }

  /** The tokens of an index up to its column list. */
  function IndexFront(n: string, u: bool): seq<Token> {
    [Word("INDEX"), Name(n), Word("GLOBAL")] + KindTokensOf(u) + [Word("ON")]
  }

  function ListTokens(cols: seq<string>): seq<Token> {
    [Sym('(')] + Tokens(NamesLex(cols)) + [Sym(')')]
  }

  lemma FrontTokens(n: string)
    ensures Tokens(INDEX_LEX + [Id(n)] + GLOBAL_LEX) == [Word("INDEX"), Name(n), Word("GLOBAL")]
  {
    assert Tokens(INDEX_LEX) == [Word("INDEX")] by { TokensPair(Kw("INDEX"), Gap(' ')); }
    assert Tokens([Id(n)]) == [Name(n)];
    assert Tokens(GLOBAL_LEX) == [Word("GLOBAL")] by { TokensTriple(Gap(' '), Kw("GLOBAL"), Gap(' ')); }
    TokensThree(INDEX_LEX, [Id(n)], GLOBAL_LEX);
  }

  lemma Rebracket(f: seq<Token>, on: Token, open: Token, names: seq<Token>, close: seq<Token>)
    ensures f + [on, open] + names + close == (f + [on]) + ([open] + names + close)
  {
    assert f + [on, open] == (f + [on]) + [open];
    Regroup(f + [on], [open], names, close);
  }

  lemma IndexTokens(n: string, u: bool, cols: seq<string>)
    ensures Tokens(ItemLex(IndexItem(n, u, cols))) == IndexFront(n, u) + ListTokens(cols)
  {
    var front := INDEX_LEX + [Id(n)] + GLOBAL_LEX;
    FrontTokens(n);
    KindTokens(u);
    OnTokens();
    TokensThree(front, KindLex(u), ON_LEX);
    TokensThree(front + KindLex(u) + ON_LEX, NamesLex(cols), CLOSE_LEX);
    assert Tokens(CLOSE_LEX) == [Sym(')')];
    Rebracket(Tokens(front) + KindTokensOf(u), Word("ON"), Sym('('), Tokens(NamesLex(cols)), [Sym(')')]);
  }

  lemma KindTokens(u: bool)
    ensures Tokens(KindLex(u)) == KindTokensOf(u)
  {
    if u { TokensTriple(Kw("UNIQUE"), Gap(' '), Kw("SYNC")); } else { assert Tokens([Kw("ASYNC")]) == [Word("ASYNC")]; }
  }

  lemma OnTokens()
    ensures Tokens(ON_LEX) == [Word("ON"), Sym('(')]
    ensures Tokens(KEY_LEX) == [Word("PRIMARY"), Word("KEY"), Sym('(')]
  {
    TokensPair(Gap(' '), Kw("ON"));
    TokensPair(Gap(' '), Punct('('));
    TokensConcat([Gap(' '), Kw("ON")], [Gap(' '), Punct('(')]);
    assert ON_LEX == [Gap(' '), Kw("ON")] + [Gap(' '), Punct('(')];
    TokensTriple(Kw("PRIMARY"), Gap(' '), Kw("KEY"));
    TokensConcat([Kw("PRIMARY"), Gap(' '), Kw("KEY")], [Gap(' '), Punct('(')]);
    assert KEY_LEX == [Kw("PRIMARY"), Gap(' '), Kw("KEY")] + [Gap(' '), Punct('(')];
  }

  /** Items whose column list is not empty. */
  predicate HasColumns(i: Item) {
    i.ColumnItem? || i.cols != []
  }

  lemma ColumnListOutcome(cols: seq<string>, rest: Rest)
    ensures ParseColumnList(ListTokens(cols) + rest) == if cols == [] then None else Some((cols, rest))
  {
    if cols == [] { EmptyColumnListFails(rest); } else { ColumnListParses(cols, rest); }
  }

  lemma DropFront<T>(a: seq<T>, b: seq<T>, c: seq<T>)
    ensures ((a + b) + c)[|a|..] == b + c
  {}

  lemma IndexParses(n: string, u: bool, cols: seq<string>, rest: Rest)
    ensures ParseItem(Tokens(ItemLex(IndexItem(n, u, cols))) + rest) ==
            if cols == [] then None else Some((IndexItem(n, u, cols), rest))
  {
    var ts := IndexFront(n, u) + ListTokens(cols) + rest;
    IndexTokens(n, u, cols);
    DropFront(IndexFront(n, u), ListTokens(cols), rest);
    var k := if u then 5 else 4;
    assert ts[1..][k..] == ts[1 + k..];
    ColumnListOutcome(cols, rest);
  }

  lemma KeyTokens(cols: seq<string>)
    ensures Tokens(ItemLex(KeyItem(cols))) == [Word("PRIMARY"), Word("KEY")] + ListTokens(cols)
  {
    TokensThree(KEY_LEX, NamesLex(cols), CLOSE_LEX);
    OnTokens();
    assert Tokens(CLOSE_LEX) == [Sym(')')];
    Rebracket([Word("PRIMARY")], Word("KEY"), Sym('('), Tokens(NamesLex(cols)), [Sym(')')]);
  }

  lemma KeyParses(cols: seq<string>, rest: Rest)
    ensures ParseItem(Tokens(ItemLex(KeyItem(cols))) + rest) == if cols == [] then None else Some((KeyItem(cols), rest))
  {
    KeyTokens(cols);
    DropFront([Word("PRIMARY"), Word("KEY")], ListTokens(cols), rest);
    ColumnListOutcome(cols, rest);
  }

  lemma ColumnTokens(n: string, ty: ColType)
    ensures Tokens(ItemLex(ColumnItem(n, ty))) == [Name(n)] + Tokens(TypeLex(ty))
  {
    TokensConcat([Id(n), Gap(' ')], TypeLex(ty));
    TokensThenGap(Id(n), ' ');
  }

  lemma ColumnParses(n: string, ty: ColType, rest: Rest)
    requires (ty.Typed? ==> IsBase(ty.base)) && Follows(rest)
    ensures ParseItem(Tokens(ItemLex(ColumnItem(n, ty))) + rest) == Some((ColumnItem(n, ty), rest))
  {
    ColumnTokens(n, ty);
    DropFront([Name(n)], Tokens(TypeLex(ty)), rest);
    TypeParses(ty, rest);
  }

  lemma ItemParses(i: Item, rest: Rest)
    requires WellTyped(i) && Follows(rest)
    ensures ParseItem(Tokens(ItemLex(i)) + rest) == if HasColumns(i) then Some((i, rest)) else None
  {
    match i
    case ColumnItem(n, ty) => ColumnParses(n, ty, rest);
    case IndexItem(n, u, cols) => IndexParses(n, u, cols, rest);
    case KeyItem(cols) => KeyParses(cols, rest);
  }

  ghost predicate AllHaveColumns(items: seq<Item>) {
    forall i :: 0 <= i < |items| ==> HasColumns(items[i])
  }

  lemma CommaTokens()
    ensures Tokens(COMMA_LEX) == [Sym(',')]
  {
    assert Tokens([Gap('\n'), Gap('\t')]) == [] by { TokensThenGap(Gap('\n'), '\t'); }
    assert COMMA_LEX[1..] == [Gap('\n'), Gap('\t')];
  }

  lemma FourParts<T>(a: seq<T>, b: seq<T>, c: seq<T>, d: seq<T>)
    ensures a + b + c + d == a + (b + (c + d))
  {
    Regroup(a, b, c, d);
  }

  lemma ItemsTokens(items: seq<Item>, rest: Rest)
    requires |items| > 1
    ensures Tokens(ItemsLex(items)) + rest ==
            Tokens(ItemLex(items[0])) + ([Sym(',')] + (Tokens(ItemsLex(items[1..])) + rest))
  {
    TokensThree(ItemLex(items[0]), COMMA_LEX, ItemsLex(items[1..]));
    CommaTokens();
    FourParts(Tokens(ItemLex(items[0])), [Sym(',')], Tokens(ItemsLex(items[1..])), rest);
  }

  lemma ParseMore(ts: seq<Token>, i: Item, rest: Rest)
    requires ParseItem(ts) == Some((i, [Sym(',')] + rest))
    ensures ParseItems(ts) ==
            if ParseItems(rest).None? then None
            else Some(([i] + ParseItems(rest).value.0, ParseItems(rest).value.1))
  {
    assert ([Sym(',')] + rest)[1..] == rest;
  }

  lemma ParseLast(ts: seq<Token>, i: Item, rest: Rest)
    requires ParseItem(ts) == Some((i, rest)) && rest != [] && rest[0] == Sym(')')
    ensures ParseItems(ts) == Some(([i], rest))
  {}

  lemma ColumnsOfAll(items: seq<Item>)
    requires items != []
    ensures AllHaveColumns(items) <==> HasColumns(items[0]) && AllHaveColumns(items[1..])
    ensures AllTyped(items) ==> WellTyped(items[0]) && AllTyped(items[1..])
    ensures items == [items[0]] + items[1..]
    ensures |items| == 1 ==> items == [items[0]]
  {
    assert forall k :: 0 < k < |items| ==> items[k] == items[1..][k - 1];
  }

  lemma {:induction false} ItemsParse(items: seq<Item>, rest: Rest)
    requires items != [] && AllTyped(items) && rest != [] && rest[0] == Sym(')')
    ensures ParseItems(Tokens(ItemsLex(items)) + rest) == if AllHaveColumns(items) then Some((items, rest)) else None
  {
    ColumnsOfAll(items);
    var ts := Tokens(ItemsLex(items)) + rest;
    if |items| == 1 {
      ItemParses(items[0], rest);
      if HasColumns(items[0]) { ParseLast(ts, items[0], rest); }
    } else {
      var tail := Tokens(ItemsLex(items[1..])) + rest;
      ItemsTokens(items, rest);
      ItemParses(items[0], [Sym(',')] + tail);
      ItemsParse(items[1..], rest);
      if HasColumns(items[0]) { ParseMore(ts, items[0], tail); }
    }
  }

  lemma HeadTokens()
    ensures Tokens(HEAD_LEX) == HEAD_TOKENS
  {
    TokensThenGap(Kw("CREATE"), ' ');
    TokensThenGap(Kw("TABLE"), ' ');
    TokensThenGap(Kw("IF"), ' ');
    TokensThenGap(Kw("NOT"), ' ');
    TokensThenGap(Kw("EXISTS"), ' ');
    TokensFive(Spaced("CREATE"), Spaced("TABLE"), Spaced("IF"), Spaced("NOT"), Spaced("EXISTS"));
  }

  lemma OpenTokens()
    ensures Tokens(OPEN_LEX) == [Sym('(')] && Tokens(INDENT_LEX) == [Sym('(')]
  {
    assert Tokens([Gap('\n'), Gap('\t')]) == [] by { TokensThenGap(Gap('\n'), '\t'); }
    assert INDENT_LEX[1..] == [Gap('\n'), Gap('\t')];
    assert OPEN_LEX[1..] == INDENT_LEX;
  }

  lemma WithTokens()
    ensures Tokens(Spaced("WITH")) == [Word("WITH")]
  {
    TokensThenGap(Kw("WITH"), ' ');
  }

  const ENABLED_TOKENS := [Word("AUTO_PARTITIONING_BY_LOAD"), Sym('='), Word("ENABLED")]

  lemma EnabledTokens()
    ensures Tokens(ENABLED_LEX) == ENABLED_TOKENS
  {
    TokensThenGap(Kw("AUTO_PARTITIONING_BY_LOAD"), ' ');
    TokensThenGap(Punct('='), ' ');
    assert Tokens([Kw("ENABLED")]) == [Word("ENABLED")];
    TokensThree(Spaced("AUTO_PARTITIONING_BY_LOAD"), [Punct('='), Gap(' ')], [Kw("ENABLED")]);
  }

  lemma LineTokens()
    ensures Tokens(LINE_LEX) == [Sym(')')] && Tokens(END_LEX) == [Sym(')')]
  {
    assert Tokens([Punct(')'), Gap('\n')]) == [Sym(')')] by { TokensThenGap(Punct(')'), '\n'); }
    assert LINE_LEX[1..] == [Punct(')'), Gap('\n')];
    assert Tokens([Punct(')')]) == [Sym(')')];
    assert END_LEX[1..] == [Punct(')')];
  }

  lemma TailTokens()
    ensures Tokens(TAIL_LEX) == TAIL_TOKENS
  {
    assert Tokens(TAIL_LEX) == [Sym(')')] + [Word("WITH")] + [Sym('(')] + ENABLED_TOKENS + [Sym(')')] by {
      LineTokens();
      WithTokens();
      OpenTokens();
      EnabledTokens();
      TokensFive(LINE_LEX, Spaced("WITH"), INDENT_LEX, ENABLED_LEX, END_LEX);
    }
  }

  function Front(path: string): seq<Token> {
    HEAD_TOKENS + [Name(path)] + [Sym('(')]
  }

  lemma FrontHolds(path: string, rest: seq<Token>)
    ensures var ts := Front(path) + rest;
            |ts| >= 7 && ts[..5] == HEAD_TOKENS && ts[5] == Name(path) && ts[6] == Sym('(') && ts[7..] == rest
  {
    assert |Front(path)| == 7 && Front(path)[..5] == HEAD_TOKENS;
    assert (Front(path) + rest)[..5] == Front(path)[..5];
  }

  lemma FiveParts<T>(a: seq<T>, b: seq<T>, c: seq<T>, d: seq<T>, e: seq<T>)
    ensures a + b + c + d + e == (a + b + c) + (d + e)
  {}

  lemma DdlTokens(path: string, items: seq<Item>)
    ensures Tokens(DdlLex(path, items)) == Front(path) + (Tokens(ItemsLex(items)) + TAIL_TOKENS)
  {
    HeadTokens();
    assert Tokens([Id(path)]) == [Name(path)];
    OpenTokens();
    TailTokens();
    TokensFive(HEAD_LEX, [Id(path)], OPEN_LEX, ItemsLex(items), TAIL_LEX);
    FiveParts(HEAD_TOKENS, [Name(path)], [Sym('(')], Tokens(ItemsLex(items)), TAIL_TOKENS);
  }

  // The round trip.

  lemma BaseOfType(dt: string)
    ensures IsBase(YqlBase(dt))
  {
    TypeNamesAreWords();
  }

  lemma TypeNamesAreWords()
    ensures IsWord("Bool") && IsWord("Int32") && IsWord("Int64") && IsWord("Uint16") && IsWord("Uint32") && IsWord("Uint64")
    ensures IsWord("Float") && IsWord("Double") && IsWord("Date") && IsWord("Timestamp")
    ensures IsWord("Text") && IsWord("String")
  {}

  lemma {:induction false} ColumnItemsTyped(cols: seq<Column>)
    ensures AllTyped(ColumnItems(cols)) && AllHaveColumns(ColumnItems(cols))
  {
    if cols == [] {
    } else {
      ColumnItemsTyped(cols[..|cols| - 1]);
      BaseOfType(cols[|cols| - 1].dataType);
    }
  }

  ghost predicate IndexesHaveColumns(indexes: seq<IndexInfo>) {
    forall i :: 0 <= i < |indexes| ==> indexes[i].columns != []
  }

  lemma {:induction false} IndexItemsTyped(indexes: seq<IndexInfo>, pk: seq<string>)
    ensures AllTyped(IndexItems(indexes, pk))
    ensures pk != [] ==> (AllHaveColumns(IndexItems(indexes, pk)) <==> IndexesHaveColumns(indexes))
  {
    if indexes == [] {
    } else {
      var init, last := indexes[..|indexes| - 1], indexes[|indexes| - 1];
      IndexItemsTyped(init, pk);
      assert IndexesHaveColumns(indexes) <==> IndexesHaveColumns(init) && last.columns != [] by {
        assert indexes == init + [last];
      }
      if last.columns == pk {
        assert IndexItems(indexes, pk) == IndexItems(init, pk);
      } else {
        var item := IndexItem(last.name, last.unique, last.columns);
        AllHaveColumnsBoth(IndexItems(init, pk), [item]);
        assert AllHaveColumns([item]) <==> HasColumns([item][0]);
      }
    }
  }

  lemma AllHaveColumnsBoth(a: seq<Item>, b: seq<Item>)
    ensures AllHaveColumns(a + b) <==> AllHaveColumns(a) && AllHaveColumns(b)
  {
    if AllHaveColumns(a + b) {
      forall i | 0 <= i < |a| ensures HasColumns(a[i]) { assert (a + b)[i] == a[i]; }
      forall i | 0 <= i < |b| ensures HasColumns(b[i]) { assert (a + b)[|a| + i] == b[i]; }
    }
  }

  lemma ItemsHaveColumns(meta: TableMeta)
    ensures AllTyped(Items(meta))
    ensures AllHaveColumns(Items(meta)) <==> meta.pkCols != [] && IndexesHaveColumns(meta.indexes)
  {
    var columns, indexes, key := ColumnItems(meta.columns), IndexItems(meta.indexes, meta.pkCols), [KeyItem(meta.pkCols)];
    ColumnItemsTyped(meta.columns);
    IndexItemsTyped(meta.indexes, meta.pkCols);
    AllHaveColumnsBoth(columns + indexes, key);
    AllHaveColumnsBoth(columns, indexes);
    assert AllHaveColumns(key) <==> HasColumns(key[0]);
  }

  /** The statement parses back to the table path and to its columns, indexes and key in order if the table
      has a primary key and no index without columns, and does not parse at all otherwise. */
  lemma DdlRoundTrip(path: string, meta: TableMeta)
    ensures ParseDdl(DdlText(path, Items(meta))) ==
            if meta.pkCols != [] && IndexesHaveColumns(meta.indexes) then Some((path, Items(meta))) else None
  {
    ItemsHaveColumns(meta);
    DdlParses(path, Items(meta));
  }

  lemma DdlParses(path: string, items: seq<Item>)
    requires items != [] && AllTyped(items)
    ensures ParseDdl(DdlText(path, items)) == if AllHaveColumns(items) then Some((path, items)) else None
  {
    DdlSpaced(path, items);
    RenderDdl(path, items);
    TokenizeRender(DdlLex(path, items));
    DdlTokens(path, items);
    FrontHolds(path, Tokens(ItemsLex(items)) + TAIL_TOKENS);
    ItemsParse(items, TAIL_TOKENS);
  }

  // What the recovered items say.

  /** One item a column, in order, with the column's name and type. */
  lemma {:induction false} ColumnsInOrder(cols: seq<Column>, i: nat)
    requires i < |cols|
    ensures |ColumnItems(cols)| == |cols|
    ensures ColumnItems(cols)[i] ==
            ColumnItem(cols[i].name,
                       if cols[i].autoIncrement then Serial else Typed(YqlBase(cols[i].dataType), cols[i].nullable))
  {
    if |cols| <= 1 {
    } else {
      ColumnsInOrder(cols[..|cols| - 1], if i < |cols| - 1 then i else 0);
    }
  }

  /** Of the indexes, all but those on exactly the key columns, and no others. */
  lemma {:induction false} IndexesButTheKey(indexes: seq<IndexInfo>, pk: seq<string>, n: string, u: bool, cols: seq<string>)
    ensures IndexItem(n, u, cols) in IndexItems(indexes, pk) <==> IndexInfo(n, cols, u) in indexes && cols != pk
  {
    if indexes == [] {
    } else {
      var init := indexes[..|indexes| - 1];
      IndexesButTheKey(init, pk, n, u, cols);
      assert indexes == init + [indexes[|indexes| - 1]];
    }
  }
}
