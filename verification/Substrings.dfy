/** strings.Contains, with the ways to show that a pattern does and does not occur. */
module Substrings {

  predicate Contains(s: string, p: string) {
    p <= s || (s != [] && Contains(s[1..], p))
  }

  predicate At(s: string, p: string, i: nat) {
    i + |p| <= |s| && s[i..i + |p|] == p
  }

  lemma {:induction false} ContainsAt(s: string, p: string, i: nat)
    requires At(s, p, i)
    ensures Contains(s, p)
  {
    if i == 0 {
    } else {
      assert s[1..][i - 1..i - 1 + |p|] == p;
      ContainsAt(s[1..], p, i - 1);
    }
  }

  lemma ContainsSuffix(a: string, p: string)
    ensures Contains(a + p, p)
  {
    ContainsAt(a + p, p, |a|);
  }

  /** A pattern with a character that the text lacks does not occur in it. */
  lemma {:induction false} MissingChar(s: string, p: string, j: nat)
    requires j < |p|
    ensures Contains(s, p) ==> p[j] in s
  {
    if p <= s {
      assert p[j] == s[j];
    } else if s != [] {
      MissingChar(s[1..], p, j);
    }
  }

  /** Two neighbours in a text. */
  predicate Pair(s: string, a: char, b: char) {
    |s| >= 2 && ((s[0] == a && s[1] == b) || Pair(s[1..], a, b))
  }

  lemma {:induction false} PairChars(s: string, a: char, b: char)
    ensures Pair(s, a, b) ==> a in s && b in s
  {
    if |s| < 2 {
    } else {
      PairChars(s[1..], a, b);
    }
  }

  lemma {:induction false} PairConcat(s: string, t: string, a: char, b: char)
    requires s != [] && !(t != [] && s[|s| - 1] == a && t[0] == b)
    ensures Pair(s + t, a, b) ==> Pair(s, a, b) || Pair(t, a, b)
  {
    assert (s + t)[1..] == s[1..] + t;
    if |s| == 1 {
      assert s[1..] + t == t;
    } else {
      PairConcat(s[1..], t, a, b);
    }
  }

  /** A pattern with two neighbours that the text lacks does not occur in it. */
  lemma {:induction false} MissingPair(s: string, p: string, j: nat)
    requires j + 1 < |p|
    ensures Contains(s, p) ==> Pair(s, p[j], p[j + 1])
  {
    if p <= s {
      PairAt(s, j);
    } else if s != [] {
      MissingPair(s[1..], p, j);
    }
  }

  lemma {:induction false} PairAt(s: string, j: nat)
    requires j + 1 < |s|
    ensures Pair(s, s[j], s[j + 1])
  {
    if j == 0 {
    } else {
      PairAt(s[1..], j - 1);
    }
  }

  lemma {:induction false} PrefixContains(s: string, p: string, q: string)
    requires p <= s && Contains(p, q)
    ensures Contains(s, q)
  {
    if !(q <= p) { PrefixContains(s[1..], p[1..], q); }
  }

  /** What a part contains, the whole contains. */
  lemma {:induction false} ContainsTrans(s: string, p: string, q: string)
    requires Contains(s, p) && Contains(p, q)
    ensures Contains(s, q)
  {
    if p <= s {
      PrefixContains(s, p, q);
    } else {
      ContainsTrans(s[1..], p, q);
    }
  }
}
