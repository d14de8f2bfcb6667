/** Parsing and evaluating the cursor condition the way SQL does: AND binds tighter than OR. */
module ConditionMeaning {
  import opened KeyOrder
  import opened SqlText
  import opened CursorCondition

  datatype Cond =
    | Gt(col: string)
    | Eq(col: string)
    | And(l: Cond, r: Cond)
    | Or(l: Cond, r: Cond)

  type Parsed = Option<(Cond, seq<Token>)>

  function ParseCmp(ts: seq<Token>): (p: Parsed)
    ensures p.Some? ==> |p.value.1| < |ts|
  {
    if |ts| < 3 || !ts[0].Name? || ts[2] != Sym('?') then None
    else if ts[1] == Sym('>') then Some((Gt(ts[0].n), ts[3..]))
    else if ts[1] == Sym('=') then Some((Eq(ts[0].n), ts[3..]))
    else None
  }

  function ParsePrimary(ts: seq<Token>): (p: Parsed)
    ensures p.Some? ==> |p.value.1| < |ts|
    decreases |ts|, 0
  {
    if ts != [] && ts[0] == Sym('(') then
      match ParseOr(ts[1..])
      case None => None
      case Some((c, rest)) => if rest != [] && rest[0] == Sym(')') then Some((c, rest[1..])) else None
    else ParseCmp(ts)
  }

  function ParseAnd(ts: seq<Token>): (p: Parsed)
    ensures p.Some? ==> |p.value.1| < |ts|
    decreases |ts|, 1
  {
    match ParsePrimary(ts)
    case None => None
    case Some((l, rest)) =>
      if rest != [] && rest[0] == Word("AND") then
        match ParseAnd(rest[1..])
        case None => None
        case Some((r, rest')) => Some((And(l, r), rest'))
      else Some((l, rest))
  }

  function ParseOr(ts: seq<Token>): (p: Parsed)
    ensures p.Some? ==> |p.value.1| < |ts|
    decreases |ts|, 2
  {
    match ParseAnd(ts)
    case None => None
    case Some((l, rest)) =>
      if rest != [] && rest[0] == Word("OR") then
        match ParseOr(rest[1..])
        case None => None
        case Some((r, rest')) => Some((Or(l, r), rest'))
      else Some((l, rest))
  }

  function ParseCondition(s: string): Option<Cond> {
    match Tokenize(s)
    case None => None
    case Some(ts) =>
      match ParseOr(ts)
      case None => None
      case Some((c, rest)) => if rest == [] then Some(c) else None
  }

  type Columns = map<string, KeyValue>

  /** Each placeholder takes the cursor value of the column on its left. */
  predicate Eval(c: Cond, row: Columns, cur: Columns) {
    match c
    case Gt(col) => col in row && col in cur && ValueLess(cur[col], row[col])
    case Eq(col) => col in row && col in cur && row[col] == cur[col]
    case And(l, r) => Eval(l, row, cur) && Eval(r, row, cur)
    case Or(l, r) => Eval(l, row, cur) || Eval(r, row, cur)
  }

  function Placeholders(c: Cond): nat {
    match c
    case Gt(_) => 1
    case Eq(_) => 1
    case And(l, r) => Placeholders(l) + Placeholders(r)
    case Or(l, r) => Placeholders(l) + Placeholders(r)
  }

  /** The columns the placeholders stand next to, left to right. */
  function PlaceholderColumns(c: Cond): seq<string> {
    match c
    case Gt(col) => [col]
    case Eq(col) => [col]
    case And(l, r) => PlaceholderColumns(l) + PlaceholderColumns(r)
    case Or(l, r) => PlaceholderColumns(l) + PlaceholderColumns(r)
  }

  // The condition the printer means.

  function EqsCond(pk: seq<string>, i: nat, j: nat): Cond
    requires j <= i < |pk|
    decreases i - j
  {
    if j == i then Gt(pk[i]) else And(Eq(pk[j]), EqsCond(pk, i, j + 1))
  }

  function PartsCond(pk: seq<string>, i: nat): Cond
    requires i < |pk|
    decreases |pk| - i
  {
    if i + 1 == |pk| then EqsCond(pk, i, 0) else Or(EqsCond(pk, i, 0), PartsCond(pk, i + 1))
  }

  /** Tokens after which an AND or OR chain ends. */
  predicate EndsChain(rest: seq<Token>) {
    rest == [] || (rest[0] != Word("AND") && rest[0] != Word("OR"))
  }

  function CmpTokens(col: string, op: char): seq<Token> {
    [Name(col), Sym(op), Sym('?')]
  }

  lemma CmpLexTokens(col: string, op: char)
    ensures Tokens(CmpLex(col, op)) == CmpTokens(col, op)
  {
    var mark := [Gap(' '), Punct('?')];
    assert mark == [Gap(' ')] + ([Punct('?')] + []);
    TokensCons(Punct('?'), []);
    TokensCons(Gap(' '), [Punct('?')] + []);
    assert CmpLex(col, op) == [Id(col)] + ([Gap(' ')] + ([Punct(op)] + mark));
    TokensCons(Punct(op), mark);
    TokensCons(Gap(' '), [Punct(op)] + mark);
    TokensCons(Id(col), [Gap(' ')] + ([Punct(op)] + mark));
  }

  lemma SeparatorTokens()
    ensures Tokens(AND_LEX) == [Word("AND")] && Tokens(OR_LEX) == [Word("OR")]
    ensures Tokens([Punct('(')]) == [Sym('(')] && Tokens([Punct(')')]) == [Sym(')')]
  {
    assert Tokens([Gap(' ')]) == [];
    assert Tokens([Kw("AND"), Gap(' ')]) == [Word("AND")];
    assert Tokens([Kw("OR"), Gap(' ')]) == [Word("OR")];
  }

  lemma ParseCmpTokens(col: string, op: char, rest: seq<Token>)
    requires op == '>' || op == '='
    ensures ParsePrimary(CmpTokens(col, op) + rest) == Some((if op == '>' then Gt(col) else Eq(col), rest))
  {
    assert (CmpTokens(col, op) + rest)[3..] == rest;
  }

  lemma ParseAndStep(first: seq<Token>, l: Cond, more: seq<Token>)
    requires ParsePrimary(first + ([Word("AND")] + more)) == Some((l, [Word("AND")] + more)) && ParseAnd(more).Some?
    ensures ParseAnd(first + ([Word("AND")] + more)) == Some((And(l, ParseAnd(more).value.0), ParseAnd(more).value.1))
  {
    assert ([Word("AND")] + more)[1..] == more;
  }

  lemma EqsTokens(pk: seq<string>, i: nat, j: nat, rest: seq<Token>)
    requires j < i < |pk|
    ensures Tokens(EqsLex(pk, i, j)) + rest ==
            CmpTokens(pk[j], '=') + ([Word("AND")] + (Tokens(EqsLex(pk, i, j + 1)) + rest))
  {
    CmpLexTokens(pk[j], '=');
    SeparatorTokens();
    TokensThree(CmpLex(pk[j], '='), AND_LEX, EqsLex(pk, i, j + 1));
    Regroup(CmpTokens(pk[j], '='), [Word("AND")], Tokens(EqsLex(pk, i, j + 1)), rest);
  }

  lemma ParseLastCmp(col: string, rest: seq<Token>)
    requires EndsChain(rest)
    ensures ParseAnd(Tokens(CmpLex(col, '>')) + rest) == Some((Gt(col), rest))
  {
    CmpLexTokens(col, '>');
    ParseCmpTokens(col, '>', rest);
  }

  lemma {:induction false} ParseEqs(pk: seq<string>, i: nat, j: nat, rest: seq<Token>)
    requires j <= i < |pk| && EndsChain(rest)
    ensures ParseAnd(Tokens(EqsLex(pk, i, j)) + rest) == Some((EqsCond(pk, i, j), rest))
    decreases i - j
  {
    if j == i {
      ParseLastCmp(pk[i], rest);
    } else {
      var more := Tokens(EqsLex(pk, i, j + 1)) + rest;
      EqsTokens(pk, i, j, rest);
      ParseEqs(pk, i, j + 1, rest);
      ParseCmpTokens(pk[j], '=', [Word("AND")] + more);
      ParseAndStep(CmpTokens(pk[j], '='), Eq(pk[j]), more);
    }
  }

  lemma ParseParens(inner: seq<Token>, c: Cond, rest: seq<Token>)
    requires ParseOr(inner + ([Sym(')')] + rest)) == Some((c, [Sym(')')] + rest))
    ensures ParsePrimary([Sym('(')] + (inner + ([Sym(')')] + rest))) == Some((c, rest))
  {
    assert ([Sym('(')] + (inner + ([Sym(')')] + rest)))[1..] == inner + ([Sym(')')] + rest);
    assert ([Sym(')')] + rest)[1..] == rest;
  }

  lemma ParsePart(pk: seq<string>, i: nat, rest: seq<Token>)
    requires i < |pk| && (rest == [] || rest[0] != Word("AND"))
    ensures ParseAnd(Tokens(PartLex(pk, i)) + rest) == Some((EqsCond(pk, i, 0), rest))
  {
    if i == 0 {
      CmpLexTokens(pk[0], '>');
      ParseCmpTokens(pk[0], '>', rest);
    } else {
      SeparatorTokens();
      TokensThree([Punct('(')], EqsLex(pk, i, 0), [Punct(')')]);
      var inner := Tokens(EqsLex(pk, i, 0));
      ParseEqs(pk, i, 0, [Sym(')')] + rest);
      ParseParens(inner, EqsCond(pk, i, 0), rest);
      Regroup([Sym('(')], inner, [Sym(')')], rest);
    }
  }

  lemma ParseOrStep(first: seq<Token>, l: Cond, more: seq<Token>)
    requires ParseAnd(first + ([Word("OR")] + more)) == Some((l, [Word("OR")] + more)) && ParseOr(more).Some?
    ensures ParseOr(first + ([Word("OR")] + more)) == Some((Or(l, ParseOr(more).value.0), ParseOr(more).value.1))
  {
    assert ([Word("OR")] + more)[1..] == more;
  }

  lemma {:induction false} ParseParts(pk: seq<string>, i: nat, rest: seq<Token>)
    requires i < |pk| && EndsChain(rest)
    ensures ParseOr(Tokens(PartsLex(pk, i)) + rest) == Some((PartsCond(pk, i), rest))
    decreases |pk| - i
  {
    if i + 1 == |pk| {
      ParsePart(pk, i, rest);
    } else {
      SeparatorTokens();
      TokensThree(PartLex(pk, i), OR_LEX, PartsLex(pk, i + 1));
      var more := Tokens(PartsLex(pk, i + 1)) + rest;
      ParsePart(pk, i, [Word("OR")] + more);
      ParseParts(pk, i + 1, rest);
      ParseOrStep(Tokens(PartLex(pk, i)), EqsCond(pk, i, 0), more);
      Regroup(Tokens(PartLex(pk, i)), [Word("OR")], Tokens(PartsLex(pk, i + 1)), rest);
    }
  }

  /** SQL parses the printed condition to the chain of parts. */
  lemma ParsePrinted(pk: seq<string>)
    requires pk != [] && NoBackticks(pk)
    ensures ParseCondition(ConditionText(pk)) == Some(PartsCond(pk, 0))
  {
    TokenizesIffNoBackticks(pk);
    SeparatorTokens();
    TokensThree([Punct('(')], PartsLex(pk, 0), [Punct(')')]);
    var inner := Tokens(PartsLex(pk, 0));
    ParseParts(pk, 0, [Sym(')')] + []);
    ParseParens(inner, PartsCond(pk, 0), []);
    Regroup([Sym('(')], inner, [Sym(')')], []);
    var ts := Tokens(ConditionLex(pk));
    assert ts + [] == ts;
    assert ParseAnd(ts) == Some((PartsCond(pk, 0), []));
    assert ParseOr(ts) == Some((PartsCond(pk, 0), []));
  }

  // Its meaning.

  ghost predicate Distinct(pk: seq<string>) {
    forall i, j :: 0 <= i < j < |pk| ==> pk[i] != pk[j]
  }

  /** The key columns of a row, or the values of a cursor, by column name. */
  function ByName(pk: seq<string>, key: Key): (m: Columns)
    requires |pk| == |key|
    ensures Distinct(pk) ==> forall i :: 0 <= i < |pk| ==> pk[i] in m && m[pk[i]] == key[i]
    decreases |pk|
  {
    if pk == [] then map[]
    else
      var n := |pk| - 1;
      ByName(pk[..n], key[..n])[pk[n] := key[n]]
  }

  /** The keys agree before column i, and the row is above the cursor in column i. */
  ghost predicate AboveAt(cur: Key, key: Key, i: nat)
    requires |cur| == |key| && i < |key|
  {
    cur[..i] == key[..i] && ValueLess(cur[i], key[i])
  }

  lemma AgreeFrom(cur: Key, key: Key, j: nat, i: nat)
    requires |cur| == |key| && j < i <= |key|
    ensures cur[j..i] == key[j..i] <==> cur[j] == key[j] && cur[j + 1..i] == key[j + 1..i]
  {
    assert cur[j..i] == [cur[j]] + cur[j + 1..i] && key[j..i] == [key[j]] + key[j + 1..i];
    assert cur[j..i][1..] == cur[j + 1..i] && key[j..i][1..] == key[j + 1..i];
  }

  lemma {:induction false} EqsMeaning(pk: seq<string>, i: nat, j: nat, cur: Key, key: Key)
    requires Distinct(pk) && |pk| == |cur| == |key| && j <= i < |pk|
    ensures Eval(EqsCond(pk, i, j), ByName(pk, key), ByName(pk, cur)) <==>
              cur[j..i] == key[j..i] && ValueLess(cur[i], key[i])
    decreases i - j
  {
    if j == i {
    } else {
      EqsMeaning(pk, i, j + 1, cur, key);
      AgreeFrom(cur, key, j, i);
    }
  }

  lemma {:induction false} PartsMeaning(pk: seq<string>, i: nat, cur: Key, key: Key)
    requires Distinct(pk) && |pk| == |cur| == |key| && i < |pk|
    ensures Eval(PartsCond(pk, i), ByName(pk, key), ByName(pk, cur)) <==>
              exists n :: i <= n < |pk| && AboveAt(cur, key, n)
    decreases |pk| - i
  {
    EqsMeaning(pk, i, 0, cur, key);
    assert cur[0..i] == cur[..i] && key[0..i] == key[..i];
    if i + 1 < |pk| { PartsMeaning(pk, i + 1, cur, key); }
    if AboveAt(cur, key, i) { assert i <= i < |pk|; }
  }

  lemma {:induction false} LexicographicMeaning(cur: Key, key: Key)
    requires |cur| == |key|
    ensures KeyLess(cur, key) <==> exists n :: 0 <= n < |key| && AboveAt(cur, key, n)
  {
    if key == [] {
    } else {
      var c, k := cur[1..], key[1..];
      LexicographicMeaning(c, k);
      assert AboveAt(cur, key, 0) <==> ValueLess(cur[0], key[0]);
      forall n | 0 <= n < |k| ensures AboveAt(cur, key, n + 1) <==> cur[0] == key[0] && AboveAt(c, k, n) {
        assert cur[..n + 1] == [cur[0]] + c[..n] && key[..n + 1] == [key[0]] + k[..n];
      }
      if n :| 0 <= n < |key| && AboveAt(cur, key, n) {
        if n > 0 { assert AboveAt(c, k, n - 1); }
      }
      if KeyLess(cur, key) && !ValueLess(cur[0], key[0]) {
        var n :| 0 <= n < |k| && AboveAt(c, k, n);
        assert AboveAt(cur, key, n + 1);
      }
    }
  }

  /** The printed condition, parsed and evaluated with every placeholder bound to its column's cursor
      value, selects exactly the rows whose key is lexicographically greater than the cursor. */
  lemma PrintedConditionIsKeyOrder(pk: seq<string>, cur: Key, key: Key)
    requires pk != [] && NoBackticks(pk) && Distinct(pk) && |pk| == |cur| == |key|
    ensures ParseCondition(ConditionText(pk)).Some?
    ensures Eval(ParseCondition(ConditionText(pk)).value, ByName(pk, key), ByName(pk, cur)) <==> KeyLess(cur, key)
  {
    ParsePrinted(pk);
    PartsMeaning(pk, 0, cur, key);
    LexicographicMeaning(cur, key);
  }

  lemma {:induction false} EqsPlaceholders(pk: seq<string>, i: nat, j: nat)
    requires j <= i < |pk|
    ensures Placeholders(EqsCond(pk, i, j)) == i - j + 1
    decreases i - j
  {
    if j == i {
    } else {
      EqsPlaceholders(pk, i, j + 1);
    }
  }

  lemma {:induction false} PartsPlaceholders(pk: seq<string>, i: nat)
    requires i < |pk|
    ensures 2 * Placeholders(PartsCond(pk, i)) == |pk| * (|pk| + 1) - i * (i + 1)
    decreases |pk| - i
  {
    EqsPlaceholders(pk, i, 0);
    assert (i + 1) * (i + 2) == i * (i + 1) + 2 * (i + 1);
    if i + 1 < |pk| { PartsPlaceholders(pk, i + 1); }
  }

  /** The condition has k(k+1)/2 placeholders, so k positional values fit only a single-column key. */
  lemma PlaceholderCount(pk: seq<string>)
    requires pk != [] && NoBackticks(pk)
    ensures ParseCondition(ConditionText(pk)).Some?
    ensures Placeholders(ParseCondition(ConditionText(pk)).value) == |pk| * (|pk| + 1) / 2
    ensures Placeholders(ParseCondition(ConditionText(pk)).value) == |pk| <==> |pk| == 1
  {
    ParsePrinted(pk);
    PartsPlaceholders(pk, 0);
    var k := |pk|;
    if k >= 2 { assert k * (k + 1) >= 3 * k by { assert k * (k + 1) - 3 * k == k * (k - 2); } }
  }
}
