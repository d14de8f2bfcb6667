/** The WHERE condition of keyset pagination: how the reader prints it, how SQL reads it, what it means. */
module CursorCondition {
  import opened SqlText

  // The printed text.

  function GtText(col: string): string { "`" + col + "` > ?" }

  function EqText(col: string): string { "`" + col + "` = ?" }

  /** "`j` = ? AND ... AND `i` > ?" */
  function EqsText(pk: seq<string>, i: nat, j: nat): string
    requires j <= i < |pk|
    decreases i - j
  {
    if j == i then GtText(pk[i]) else EqText(pk[j]) + " AND " + EqsText(pk, i, j + 1)
  }

  function PartText(pk: seq<string>, i: nat): string
    requires i < |pk|
  {
    if i == 0 then GtText(pk[0]) else "(" + EqsText(pk, i, 0) + ")"
  }

  function PartsText(pk: seq<string>, i: nat): string
    requires i <= |pk|
    decreases |pk| - i
  {
    if i == |pk| then []
    else if i + 1 == |pk| then PartText(pk, i)
    else PartText(pk, i) + " OR " + PartsText(pk, i + 1)
  }

  function ConditionText(pk: seq<string>): string {
    "(" + PartsText(pk, 0) + ")"
  }

  lemma {:induction false} JoinedEqs(pk: seq<string>, i: nat, j: nat, eqs: seq<string>)
    requires j < i < |pk| && |eqs| == i && forall t :: 0 <= t < i ==> eqs[t] == EqText(pk[t])
    ensures Join(eqs[j..], " AND ") + " AND " + GtText(pk[i]) == EqsText(pk, i, j)
    decreases i - j
  {
    assert eqs[j..][0] == eqs[j] && eqs[j..][1..] == eqs[j + 1..];
    if j + 1 < i {
      JoinedEqs(pk, i, j + 1, eqs);
      var rest := Join(eqs[j + 1..], " AND ");
      assert (EqText(pk[j]) + " AND " + rest) + " AND " + GtText(pk[i])
          == EqText(pk[j]) + " AND " + (rest + " AND " + GtText(pk[i]));
    } else {
      assert eqs[j..] == [eqs[j]];
    }
  }

  lemma {:induction false} JoinedParts(pk: seq<string>, i: nat, parts: seq<string>)
    requires i <= |pk| == |parts| && forall t :: 0 <= t < |pk| ==> parts[t] == PartText(pk, t)
    ensures Join(parts[i..], " OR ") == PartsText(pk, i)
    decreases |pk| - i
  {
    if i == |pk| {
    } else {
      assert parts[i..][0] == parts[i] && parts[i..][1..] == parts[i + 1..];
      JoinedParts(pk, i + 1, parts);
    }
  }

  /** The reader's printer: one part per key column, each with the equalities of the columns before it. */
  method BuildCursorCondition(pk: seq<string>) returns (s: string)
    ensures s == ConditionText(pk)
  {
    var parts: seq<string> := [];
    for i := 0 to |pk|
      invariant |parts| == i && forall t :: 0 <= t < i ==> parts[t] == PartText(pk, t)
    {
      var eqs: seq<string> := [];
      for j := 0 to i
        invariant |eqs| == j && forall t :: 0 <= t < j ==> eqs[t] == EqText(pk[t])
      {
        eqs := eqs + ["`" + pk[j] + "` = ?"];
      }
      var gt := "`" + pk[i] + "` > ?";
      if i == 0 {
        parts := parts + [gt];
      } else {
        JoinedEqs(pk, i, 0, eqs);
        assert eqs[0..] == eqs;
        parts := parts + ["(" + Join(eqs, " AND ") + " AND " + gt + ")"];
        assert "(" + (Join(eqs, " AND ") + " AND " + gt) + ")" == "(" + Join(eqs, " AND ") + " AND " + gt + ")";
      }
    }
    JoinedParts(pk, 0, parts);
    assert parts[0..] == parts;
    s := "(" + Join(parts, " OR ") + ")";
  }

  // The text as lexemes.

  function CmpLex(col: string, op: char): seq<Lexeme> {
    [Id(col), Gap(' '), Punct(op), Gap(' '), Punct('?')]
  }

  const AND_LEX: seq<Lexeme> := [Gap(' '), Kw("AND"), Gap(' ')]
  const OR_LEX: seq<Lexeme> := [Gap(' '), Kw("OR"), Gap(' ')]

  function EqsLex(pk: seq<string>, i: nat, j: nat): seq<Lexeme>
    requires j <= i < |pk|
    decreases i - j
  {
    if j == i then CmpLex(pk[i], '>') else CmpLex(pk[j], '=') + AND_LEX + EqsLex(pk, i, j + 1)
  }

  function PartLex(pk: seq<string>, i: nat): seq<Lexeme>
    requires i < |pk|
  {
    if i == 0 then CmpLex(pk[0], '>') else [Punct('(')] + EqsLex(pk, i, 0) + [Punct(')')]
  }

  function PartsLex(pk: seq<string>, i: nat): seq<Lexeme>
    requires i <= |pk|
    decreases |pk| - i
  {
    if i == |pk| then []
    else if i + 1 == |pk| then PartLex(pk, i)
    else PartLex(pk, i) + OR_LEX + PartsLex(pk, i + 1)
  }

  function ConditionLex(pk: seq<string>): seq<Lexeme> {
    [Punct('(')] + PartsLex(pk, 0) + [Punct(')')]
  }

  /** Ends that neither run into a following keyword gap nor into a closing parenthesis. */
  ghost predicate Closed(ls: seq<Lexeme>) {
    WellSpaced(ls) && ls != [] && !ls[0].Kw? && ls[|ls| - 1].Punct?
  }

  lemma ClosedJoin(a: seq<Lexeme>, sep: seq<Lexeme>, b: seq<Lexeme>)
    requires Closed(a) && Closed(b) && (sep == AND_LEX || sep == OR_LEX)
    ensures Closed(a + sep + b)
  {
    assert IsWord("AND") && IsWord("OR");
  }

  lemma ClosedParens(a: seq<Lexeme>)
    requires Closed(a)
    ensures Closed([Punct('(')] + a + [Punct(')')])
  {}

  lemma {:induction false} EqsClosed(pk: seq<string>, i: nat, j: nat)
    requires j <= i < |pk|
    ensures Closed(EqsLex(pk, i, j))
    decreases i - j
  {
    if j == i {
    } else {
      EqsClosed(pk, i, j + 1);
      ClosedJoin(CmpLex(pk[j], '='), AND_LEX, EqsLex(pk, i, j + 1));
    }
  }

  lemma {:induction false} PartsClosed(pk: seq<string>, i: nat)
    requires i < |pk|
    ensures Closed(PartsLex(pk, i))
    decreases |pk| - i
  {
    EqsClosed(pk, i, 0);
    if i > 0 { ClosedParens(EqsLex(pk, i, 0)); }
    if i + 1 < |pk| {
      PartsClosed(pk, i + 1);
      ClosedJoin(PartLex(pk, i), OR_LEX, PartsLex(pk, i + 1));
    }
  }

  /** The names as they would have to be printed: with their backticks doubled. */
  function EscapeAll(pk: seq<string>): (r: seq<string>)
    ensures |r| == |pk| && forall i :: 0 <= i < |pk| ==> r[i] == Escape(pk[i])
  {
    seq(|pk|, i requires 0 <= i < |pk| => Escape(pk[i]))
  }

  lemma RenderCmp(col: string, op: char)
    ensures Render(CmpLex(col, op)) == "`" + Escape(col) + "` " + [op] + " ?"
  {
    assert Render([Punct('?')]) == "?";
    assert Render([Gap(' '), Punct('?')]) == " ?";
    assert Render([Punct(op), Gap(' '), Punct('?')]) == [op] + " ?";
    assert Render([Gap(' '), Punct(op), Gap(' '), Punct('?')]) == " " + [op] + " ?";
  }

  lemma RenderSeparators()
    ensures Render(AND_LEX) == " AND " && Render(OR_LEX) == " OR "
    ensures Render([Punct('(')]) == "(" && Render([Punct(')')]) == ")"
  {
    assert Render([Gap(' ')]) == " ";
    assert Render([Kw("AND"), Gap(' ')]) == "AND ";
    assert Render([Kw("OR"), Gap(' ')]) == "OR ";
  }

  lemma RenderAnd(a: seq<Lexeme>, b: seq<Lexeme>, s: string, t: string)
    requires Render(a) == s && Render(b) == t
    ensures Render(a + AND_LEX + b) == s + " AND " + t
  {
    RenderSeparators();
    RenderThree(a, AND_LEX, b);
  }

  lemma RenderOr(a: seq<Lexeme>, b: seq<Lexeme>, s: string, t: string)
    requires Render(a) == s && Render(b) == t
    ensures Render(a + OR_LEX + b) == s + " OR " + t
  {
    RenderSeparators();
    RenderThree(a, OR_LEX, b);
  }

  lemma RenderComparison(pk: seq<string>, i: nat)
    requires i < |pk|
    ensures Render(CmpLex(pk[i], '>')) == GtText(EscapeAll(pk)[i])
    ensures Render(CmpLex(pk[i], '=')) == EqText(EscapeAll(pk)[i])
  {
    RenderCmp(pk[i], '>');
    RenderCmp(pk[i], '=');
  }

  lemma {:induction false} RenderEqs(pk: seq<string>, i: nat, j: nat)
    requires j <= i < |pk|
    ensures Render(EqsLex(pk, i, j)) == EqsText(EscapeAll(pk), i, j)
    decreases i - j
  {
    RenderComparison(pk, j);
    if j == i {
    } else {
      RenderEqs(pk, i, j + 1);
      RenderAnd(CmpLex(pk[j], '='), EqsLex(pk, i, j + 1), EqText(EscapeAll(pk)[j]), EqsText(EscapeAll(pk), i, j + 1));
    }
  }

  lemma RenderPart(pk: seq<string>, i: nat)
    requires i < |pk|
    ensures Render(PartLex(pk, i)) == PartText(EscapeAll(pk), i)
  {
    RenderEqs(pk, i, 0);
    RenderSeparators();
    if i > 0 {
      RenderThree([Punct('(')], EqsLex(pk, i, 0), [Punct(')')]);
    }
  }

  lemma {:induction false} RenderParts(pk: seq<string>, i: nat)
    requires i <= |pk|
    ensures Render(PartsLex(pk, i)) == PartsText(EscapeAll(pk), i)
    decreases |pk| - i
  {
    if i == |pk| {
    } else if i + 1 == |pk| {
      RenderPart(pk, i);
    } else {
      RenderPart(pk, i);
      RenderParts(pk, i + 1);
      RenderOr(PartLex(pk, i), PartsLex(pk, i + 1), PartText(EscapeAll(pk), i), PartsText(EscapeAll(pk), i + 1));
    }
  }

  lemma RenderCondition(pk: seq<string>)
    ensures Render(ConditionLex(pk)) == ConditionText(EscapeAll(pk))
  {
    RenderParts(pk, 0);
    RenderSeparators();
    RenderThree([Punct('(')], PartsLex(pk, 0), [Punct(')')]);
  }

  lemma EscapedTextTokenizes(pk: seq<string>)
    requires pk != []
    ensures Tokenize(ConditionText(EscapeAll(pk))) == Some(Tokens(ConditionLex(pk)))
  {
    PartsClosed(pk, 0);
    ClosedParens(PartsLex(pk, 0));
    RenderCondition(pk);
    TokenizeRender(ConditionLex(pk));
  }

  // The printer does not double backticks; exactly the names without one come back.

  ghost predicate NoBackticks(pk: seq<string>) {
    forall i :: 0 <= i < |pk| ==> Backticks(pk[i]) == 0
  }

  lemma {:induction false} EscapeWithout(n: string)
    requires Backticks(n) == 0
    ensures Escape(n) == n
  {
    if n == [] {
    } else {
      EscapeWithout(n[1..]);
    }
  }

  lemma VisibleCmp(col: string, op: string)
    ensures Visible("`" + col + op) == Visible("`") + Visible(col) + Visible(op)
  {
    VisibleConcat("`" + col, op);
    VisibleConcat("`", col);
  }

  /** Doubling backticks never shortens a part, and lengthens it by those of its own column at least. */
  lemma {:induction false} EqsGrow(pk: seq<string>, i: nat, j: nat)
    requires j <= i < |pk|
    ensures Visible(EqsText(EscapeAll(pk), i, j)) >= Visible(EqsText(pk, i, j)) + Backticks(pk[i])
    decreases i - j
  {
    var e := EscapeAll(pk);
    VisibleEscape(pk[j]);
    if j == i {
      assert GtText(e[i]) == "`" + e[i] + "` > ?" && GtText(pk[i]) == "`" + pk[i] + "` > ?";
      VisibleCmp(e[i], "` > ?");
      VisibleCmp(pk[i], "` > ?");
    } else {
      EqsGrow(pk, i, j + 1);
      VisibleCmp(e[j], "` = ?");
      VisibleCmp(pk[j], "` = ?");
      VisibleConcat(EqText(e[j]) + " AND ", EqsText(e, i, j + 1));
      VisibleConcat(EqText(pk[j]) + " AND ", EqsText(pk, i, j + 1));
      VisibleConcat(EqText(e[j]), " AND ");
      VisibleConcat(EqText(pk[j]), " AND ");
    }
  }

  lemma PartGrows(pk: seq<string>, i: nat)
    requires i < |pk|
    ensures Visible(PartText(EscapeAll(pk), i)) >= Visible(PartText(pk, i)) + Backticks(pk[i])
  {
    EqsGrow(pk, i, 0);
    if i > 0 {
      VisibleParens(EqsText(EscapeAll(pk), i, 0));
      VisibleParens(EqsText(pk, i, 0));
    }
  }

  lemma VisibleParens(s: string)
    ensures Visible("(" + s + ")") == 2 + Visible(s)
  {
    VisibleConcat("(" + s, ")");
    VisibleConcat("(", s);
  }

  function BackticksFrom(pk: seq<string>, i: nat): nat
    requires i <= |pk|
    decreases |pk| - i
  {
    if i == |pk| then 0 else Backticks(pk[i]) + BackticksFrom(pk, i + 1)
  }

  lemma {:induction false} PartsGrow(pk: seq<string>, i: nat)
    requires i <= |pk|
    ensures Visible(PartsText(EscapeAll(pk), i)) >= Visible(PartsText(pk, i)) + BackticksFrom(pk, i)
    decreases |pk| - i
  {
    if i == |pk| {
    } else {
      PartGrows(pk, i);
      PartsGrow(pk, i + 1);
      if i + 1 < |pk| {
        var e := EscapeAll(pk);
        VisibleConcat(PartText(e, i) + " OR ", PartsText(e, i + 1));
        VisibleConcat(PartText(pk, i) + " OR ", PartsText(pk, i + 1));
        VisibleConcat(PartText(e, i), " OR ");
        VisibleConcat(PartText(pk, i), " OR ");
      }
    }
  }

  lemma {:induction false} NoBackticksFrom(pk: seq<string>, i: nat)
    requires i <= |pk| && BackticksFrom(pk, i) == 0
    ensures forall j :: i <= j < |pk| ==> Backticks(pk[j]) == 0
    decreases |pk| - i
  {
    if i == |pk| {
    } else {
      NoBackticksFrom(pk, i + 1);
    }
  }

  /** SQL reads the printed condition as intended if and only if no key column has a backtick in its name. */
  lemma TokenizesIffNoBackticks(pk: seq<string>)
    requires pk != []
    ensures Tokenize(ConditionText(pk)) == Some(Tokens(ConditionLex(pk))) <==> NoBackticks(pk)
  {
    EscapedTextTokenizes(pk);
    var e := EscapeAll(pk);
    if NoBackticks(pk) {
      forall i | 0 <= i < |pk| ensures e[i] == pk[i] { EscapeWithout(pk[i]); }
      assert e == pk;
    } else if Tokenize(ConditionText(pk)) == Some(Tokens(ConditionLex(pk))) {
      TokenizeKeepsVisible(ConditionText(pk));
      TokenizeKeepsVisible(ConditionText(e));
      VisibleParens(PartsText(pk, 0));
      VisibleParens(PartsText(e, 0));
      PartsGrow(pk, 0);
      NoBackticksFrom(pk, 0);
    }
  }
}
