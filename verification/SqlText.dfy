/** Quoted identifiers and the tokens of SQL and YQL text.  A doubled backtick inside a quoted name is
    an escape for one backtick, in MySQL as in YQL. */
module SqlText {

  datatype Option<+T> = None | Some(value: T)

  datatype Token = Name(n: string) | Word(w: string) | Sym(c: char)

  /** strings.ReplaceAll(name, "`", "``") */
  function Escape(n: string): string {
    if n == [] then [] else (if n[0] == '`' then "``" else [n[0]]) + Escape(n[1..])
  }

  function Quote(n: string): string {
    "`" + Escape(n) + "`"
  }

  /** The name after an opening backtick, and the text behind its closing one. */
  function ScanName(s: string): Option<(string, string)> {
    if s == [] then None
    else if s[0] == '`' then
      if |s| > 1 && s[1] == '`' then
        match ScanName(s[2..])
        case None => None
        case Some((n, rest)) => Some((['`'] + n, rest))
      else Some(([], s[1..]))
    else
      match ScanName(s[1..])
      case None => None
      case Some((n, rest)) => Some(([s[0]] + n, rest))
  }

  predicate IsSpace(c: char) { c == ' ' || c == '\t' || c == '\n' }

  predicate IsWordChar(c: char) {
    'a' <= c <= 'z' || 'A' <= c <= 'Z' || '0' <= c <= '9' || c == '_'
  }

  function WordLength(s: string): (n: nat)
    ensures n <= |s|
    ensures s != [] && IsWordChar(s[0]) ==> n >= 1
  {
    if s == [] || !IsWordChar(s[0]) then 0 else 1 + WordLength(s[1..])
  }

  function Prepend(t: Token, ts: Option<seq<Token>>): Option<seq<Token>> {
    if ts.None? then None else Some([t] + ts.value)
  }

  lemma {:induction false} ScanNameConsumes(s: string)
    ensures ScanName(s).Some? ==> |ScanName(s).value.1| < |s|
  {
    if s != [] && s[0] == '`' && |s| > 1 && s[1] == '`' {
      ScanNameConsumes(s[2..]);
    } else if s != [] && s[0] != '`' {
      ScanNameConsumes(s[1..]);
    }
  }

  /** None when a quoted name is not closed. */
  function Tokenize(s: string): Option<seq<Token>>
    decreases |s|
  {
    if s == [] then Some([])
    else if IsSpace(s[0]) then Tokenize(s[1..])
    else if s[0] == '`' then
      ScanNameConsumes(s[1..]);
      match ScanName(s[1..])
      case None => None
      case Some((n, rest)) => Prepend(Name(n), Tokenize(rest))
    else if IsWordChar(s[0]) then
      var n := WordLength(s);
      Prepend(Word(s[..n]), Tokenize(s[n..]))
    else Prepend(Sym(s[0]), Tokenize(s[1..]))
  }

  lemma {:induction false} ScanQuoted(n: string, rest: string)
    requires rest == [] || rest[0] != '`'
    ensures ScanName(Escape(n) + "`" + rest) == Some((n, rest))
  {
    var s := Escape(n) + "`" + rest;
    if n == [] {
      assert s == "`" + rest && s[1..] == rest;
    } else {
      var tail := Escape(n[1..]) + "`" + rest;
      ScanQuoted(n[1..], rest);
      if n[0] == '`' {
        assert s == "``" + tail && s[2..] == tail;
      } else {
        assert s == [n[0]] + tail && s[1..] == tail;
      }
      assert n == [n[0]] + n[1..];
    }
  }

  lemma TokenizeQuoted(tail: string, n: string, rest: string)
    requires ScanName(tail) == Some((n, rest))
    ensures Tokenize(['`'] + tail) == Prepend(Name(n), Tokenize(rest))
  {
    assert (['`'] + tail)[1..] == tail;
  }

  lemma Regroup<T>(a: seq<T>, b: seq<T>, c: seq<T>, d: seq<T>)
    ensures ((a + b) + c) + d == a + ((b + c) + d)
    ensures ((a + b) + c) + d == a + (b + (c + d))
  {}

  lemma TokenizeName(n: string, rest: string)
    requires rest == [] || rest[0] != '`'
    ensures Tokenize(Quote(n) + rest) == Prepend(Name(n), Tokenize(rest))
  {
    ScanQuoted(n, rest);
    TokenizeQuoted(Escape(n) + "`" + rest, n, rest);
    Regroup("`", Escape(n), "`", rest);
  }

  predicate IsWord(w: string) {
    w != [] && forall i :: 0 <= i < |w| ==> IsWordChar(w[i])
  }

  lemma {:induction false} WordLengthOf(w: string, rest: string)
    requires forall i :: 0 <= i < |w| ==> IsWordChar(w[i])
    requires rest == [] || !IsWordChar(rest[0])
    ensures WordLength(w + rest) == |w|
  {
    if w == [] {
      assert w + rest == rest;
    } else {
      assert (w + rest)[1..] == w[1..] + rest;
      WordLengthOf(w[1..], rest);
    }
  }

  lemma TokenizeWord(w: string, rest: string)
    requires IsWord(w) && (rest == [] || !IsWordChar(rest[0]))
    ensures Tokenize(w + rest) == Prepend(Word(w), Tokenize(rest))
  {
    WordLengthOf(w, rest);
    assert (w + rest)[..|w|] == w && (w + rest)[|w|..] == rest;
  }

  lemma TokenizeSpace(c: char, rest: string)
    requires IsSpace(c)
    ensures Tokenize([c] + rest) == Tokenize(rest)
  {
    assert ([c] + rest)[1..] == rest;
  }

  lemma TokenizeSym(c: char, rest: string)
    requires !IsSpace(c) && !IsWordChar(c) && c != '`'
    ensures Tokenize([c] + rest) == Prepend(Sym(c), Tokenize(rest))
  {
    assert ([c] + rest)[1..] == rest;
  }

  // Text as a sequence of lexemes, and the tokens it yields.

  datatype Lexeme = Id(n: string) | Kw(w: string) | Punct(c: char) | Gap(c: char)

  function LexemeText(l: Lexeme): string {
    match l
    case Id(n) => Quote(n)
    case Kw(w) => w
    case Punct(c) => [c]
    case Gap(c) => [c]
  }

  function Render(ls: seq<Lexeme>): string {
    if ls == [] then [] else LexemeText(ls[0]) + Render(ls[1..])
  }

  function LexemeTokens(l: Lexeme): seq<Token> {
    match l
    case Id(n) => [Name(n)]
    case Kw(w) => [Word(w)]
    case Punct(c) => [Sym(c)]
    case Gap(_) => []
  }

  function Tokens(ls: seq<Lexeme>): seq<Token> {
    if ls == [] then [] else LexemeTokens(ls[0]) + Tokens(ls[1..])
  }

  predicate IsLexeme(l: Lexeme) {
    match l
    case Id(_) => true
    case Kw(w) => IsWord(w)
    case Punct(c) => !IsSpace(c) && !IsWordChar(c) && c != '`'
    case Gap(c) => IsSpace(c)
  }

  /** Two names or two words in a row would run together. */
  predicate WellSpaced(ls: seq<Lexeme>) {
    && (forall i :: 0 <= i < |ls| ==> IsLexeme(ls[i]))
    && (forall i :: 0 < i < |ls| ==> !(ls[i - 1].Id? && ls[i].Id?) && !(ls[i - 1].Kw? && ls[i].Kw?))
  }

  lemma {:induction false} TokenizeRender(ls: seq<Lexeme>)
    requires WellSpaced(ls)
    ensures Tokenize(Render(ls)) == Some(Tokens(ls))
  {
    if ls == [] {
    } else {
      var rest := Render(ls[1..]);
      TokenizeRender(ls[1..]);
      if |ls| > 1 { assert ls[1..][0] == ls[1] && IsLexeme(ls[1]); }
      match ls[0]
      case Id(n) => TokenizeName(n, rest);
      case Kw(w) => TokenizeWord(w, rest);
      case Punct(c) => TokenizeSym(c, rest);
      case Gap(c) => TokenizeSpace(c, rest); assert [] + Tokens(ls[1..]) == Tokens(ls[1..]);
    }
  }

  lemma {:induction false} RenderConcat(a: seq<Lexeme>, b: seq<Lexeme>)
    ensures Render(a + b) == Render(a) + Render(b)
  {
    if a == [] {
      assert a + b == b;
    } else {
      assert (a + b)[1..] == a[1..] + b;
      RenderConcat(a[1..], b);
    }
  }

  lemma RenderThree(a: seq<Lexeme>, b: seq<Lexeme>, c: seq<Lexeme>)
    ensures Render(a + b + c) == Render(a) + Render(b) + Render(c)
  {
    RenderConcat(a + b, c);
    RenderConcat(a, b);
  }

  lemma {:induction false} TokensConcat(a: seq<Lexeme>, b: seq<Lexeme>)
    ensures Tokens(a + b) == Tokens(a) + Tokens(b)
  {
    if a == [] {
      assert a + b == b;
    } else {
      assert (a + b)[1..] == a[1..] + b;
      TokensConcat(a[1..], b);
    }
  }

  lemma TokensCons(l: Lexeme, rest: seq<Lexeme>)
    ensures Tokens([l] + rest) == LexemeTokens(l) + Tokens(rest)
  {
    assert ([l] + rest)[1..] == rest;
  }

  lemma TokensThree(a: seq<Lexeme>, b: seq<Lexeme>, c: seq<Lexeme>)
    ensures Tokens(a + b + c) == Tokens(a) + Tokens(b) + Tokens(c)
  {
    TokensConcat(a + b, c);
    TokensConcat(a, b);
  }

  // What tokenizing preserves: the number of characters that are not white space.

  function Visible(s: string): nat {
    if s == [] then 0 else (if IsSpace(s[0]) then 0 else 1) + Visible(s[1..])
  }

  function Backticks(s: string): nat {
    if s == [] then 0 else (if s[0] == '`' then 1 else 0) + Backticks(s[1..])
  }

  function TokenWeight(t: Token): nat {
    match t
    case Name(n) => Visible(n) + Backticks(n) + 2
    case Word(w) => Visible(w)
    case Sym(_) => 1
  }

  function Weight(ts: seq<Token>): nat {
    if ts == [] then 0 else TokenWeight(ts[0]) + Weight(ts[1..])
  }

  lemma {:induction false} VisibleConcat(a: string, b: string)
    ensures Visible(a + b) == Visible(a) + Visible(b)
  {
    if a == [] {
      assert a + b == b;
    } else {
      assert (a + b)[1..] == a[1..] + b;
      VisibleConcat(a[1..], b);
    }
  }

  lemma {:induction false} ScanKeepsVisible(s: string)
    ensures ScanName(s).Some? ==>
              var (n, rest) := ScanName(s).value;
              Visible(s) == Visible(n) + Backticks(n) + 1 + Visible(rest)
  {
    if s != [] && ScanName(s).Some? {
      if s[0] == '`' && |s| > 1 && s[1] == '`' {
        ScanKeepsVisible(s[2..]);
        var n := ScanName(s[2..]).value.0;
        assert (['`'] + n)[1..] == n && s[1..][1..] == s[2..];
      } else if s[0] != '`' {
        ScanKeepsVisible(s[1..]);
        var n := ScanName(s[1..]).value.0;
        assert ([s[0]] + n)[1..] == n;
      }
    }
  }

  lemma {:induction false} TokenizeKeepsVisible(s: string)
    ensures Tokenize(s).Some? ==> Visible(s) == Weight(Tokenize(s).value)
    decreases |s|
  {
    if s != [] && Tokenize(s).Some? {
      var ts := Tokenize(s).value;
      if IsSpace(s[0]) {
        TokenizeKeepsVisible(s[1..]);
      } else if s[0] == '`' {
        ScanNameConsumes(s[1..]);
        ScanKeepsVisible(s[1..]);
        var rest := ScanName(s[1..]).value.1;
        TokenizeKeepsVisible(rest);
        assert ts[1..] == Tokenize(rest).value;
      } else if IsWordChar(s[0]) {
        var n := WordLength(s);
        TokenizeKeepsVisible(s[n..]);
        VisibleConcat(s[..n], s[n..]);
        assert s == s[..n] + s[n..] && ts[1..] == Tokenize(s[n..]).value;
      } else {
        TokenizeKeepsVisible(s[1..]);
        assert ts[1..] == Tokenize(s[1..]).value;
      }
    }
  }

  lemma {:induction false} VisibleEscape(n: string)
    ensures Visible(Escape(n)) == Visible(n) + Backticks(n)
  {
    if n == [] {
    } else {
      VisibleEscape(n[1..]);
      VisibleConcat(if n[0] == '`' then "``" else [n[0]], Escape(n[1..]));
      assert Visible("``") == 2 by { VisibleConcat("`", "`"); assert "``" == "`" + "`"; }
    }
  }

  /** strings.Join */
  function Join(parts: seq<string>, sep: string): string {
    if parts == [] then []
    else if |parts| == 1 then parts[0]
    else parts[0] + sep + Join(parts[1..], sep)
  }
}
