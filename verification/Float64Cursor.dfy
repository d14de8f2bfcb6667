/** What a cursor goes through in the state table: int64 to float64, JSON, float64 to int64. */
module Float64Cursor {
  import opened Arithmetic
  import opened KeyOrder
  import opened Source
  import opened Pipeline
  import opened Resume
  import opened Counting

  const TWO52 := 0x10_0000_0000_0000
  const TWO53 := 0x20_0000_0000_0000
  const MIN_INT64 := -0x8000_0000_0000_0000
  const MAX_INT64 := 0x7FFF_FFFF_FFFF_FFFF

  function Pow2(e: nat): (p: nat)
    ensures p >= 1
  {
    if e == 0 then 1 else 2 * Pow2(e - 1)
  }

  /** How many low bits of a magnitude do not fit into the 53-bit significand. */
  function SpareBits(m: nat): nat {
    if m < TWO53 then 0 else 1 + SpareBits(m / 2)
  }

  /** The distance between neighbouring floats around m (at least 1). */
  function Unit(m: nat): (u: nat)
    ensures u >= 1
  {
    Pow2(SpareBits(m))
  }

  /** IEEE 754 binary64 of a whole number: round to nearest, ties to even. */
  function RoundMagnitude(m: nat): nat {
    var u := Unit(m);
    var q, r := m / u, m % u;
    if 2 * r < u || (2 * r == u && q % 2 == 0) then q * u else (q + 1) * u
  }

  function Float64(x: int): int {
    var r: int := RoundMagnitude(if x >= 0 then x else -x);
    if x >= 0 then r else -r
  }

  /** Go leaves the conversion of an out-of-range float to the platform; `overflow` is its answer. */
  function Int64OfFloat(f: int, overflow: int): int {
    if MIN_INT64 <= f <= MAX_INT64 then f else overflow
  }

  /** An integer cursor value after it has been saved and loaded. */
  function Reloaded(x: int, overflow: int): int {
    Int64OfFloat(Float64(x), overflow)
  }

  lemma QuotientBounds(m: nat, u: nat)
    requires u >= 1
    ensures m / u * u <= m < (m / u + 1) * u && m == m / u * u + m % u
  {
    assert (m / u + 1) * u == m / u * u + u;
  }

  /** Outside the exact range the significand has its full 53 bits. */
  lemma {:induction false} SpareBitsBounds(m: nat)
    ensures m < TWO53 * Unit(m)
    ensures m >= TWO53 ==> TWO52 * Unit(m) <= m && SpareBits(m) >= 1
  {
    if m < TWO53 {
    } else {
      SpareBitsBounds(m / 2);
      assert Unit(m) == 2 * Unit(m / 2);
      if m / 2 < TWO53 { assert Unit(m / 2) == 1; }
    }
  }

  /** The bounds determine the number of spare bits. */
  lemma {:induction false} SpareBitsUnique(m: nat, e: nat)
    requires e >= 1 && TWO52 * Pow2(e) <= m < TWO53 * Pow2(e)
    ensures SpareBits(m) == e
  {
    if e <= 1 {
    } else {
      SpareBitsUnique(m / 2, e - 1);
    }
  }

  lemma {:induction false} SpareBitsMonotone(m: nat, n: nat)
    requires m <= n
    ensures SpareBits(m) <= SpareBits(n)
  {
    if m < TWO53 {
    } else {
      SpareBitsMonotone(m / 2, n / 2);
    }
  }

  lemma {:induction false} Pow2Grows(a: nat, b: nat)
    requires a < b
    ensures 2 * Pow2(a) <= Pow2(b)
  {
    if a + 1 >= b {
    } else {
      Pow2Grows(a, b - 1);
    }
  }

  /** Rounding picks one of the two neighbouring multiples of the unit, the nearer one. */
  lemma RoundIsNearest(m: nat)
    ensures var u, r := Unit(m), RoundMagnitude(m);
            && (r == m / u * u || r == (m / u + 1) * u)
            && 2 * (r - m) <= u && 2 * (m - r) <= u
  {
    var u := Unit(m);
    QuotientBounds(m, u);
    assert (m / u + 1) * u == m / u * u + u;
  }

  lemma ExactBelow(m: nat)
    requires m <= TWO53
    ensures RoundMagnitude(m) == m
  {
    if m == TWO53 {
      assert SpareBits(TWO52) == 0;
      assert Unit(m) == 2;
    }
  }

  lemma SameUnitMonotone(m: nat, n: nat)
    requires m <= n && Unit(m) == Unit(n)
    ensures RoundMagnitude(m) <= RoundMagnitude(n)
  {
    var u := Unit(m);
    QuotientBounds(m, u);
    QuotientBounds(n, u);
    RoundIsNearest(m);
    RoundIsNearest(n);
    var a, b := m / u, n / u;
    if a > b { MulMonotone(b + 1, a, u); }
    if a < b { MulMonotone(a + 1, b, u); }
  }

  lemma RoundMonotone(m: nat, n: nat)
    requires m <= n
    ensures RoundMagnitude(m) <= RoundMagnitude(n)
  {
    SpareBitsMonotone(m, n);
    if SpareBits(m) == SpareBits(n) {
      SameUnitMonotone(m, n);
    } else {
      var u, v := Unit(m), Unit(n);
      Pow2Grows(SpareBits(m), SpareBits(n));
      SpareBitsBounds(m);
      SpareBitsBounds(n);
      RoundIsNearest(m);
      RoundIsNearest(n);
      QuotientBounds(m, u);
      QuotientBounds(n, v);
      if m / u >= TWO53 { MulMonotone(TWO53, m / u, u); }
      MulMonotone(m / u + 1, TWO53, u);
      if n / v < TWO52 { MulMonotone(n / v + 1, TWO52, v); }
      MulMonotone(TWO52, n / v, v);
      assert TWO52 * v >= TWO53 * u;
    }
  }

  /** A float survives the conversion again: a cursor is rounded once, not at every restart. */
  lemma RoundIdempotent(m: nat)
    ensures RoundMagnitude(RoundMagnitude(m)) == RoundMagnitude(m)
  {
    if m <= TWO53 {
      ExactBelow(m);
    } else {
      var u, r := Unit(m), RoundMagnitude(m);
      SpareBitsBounds(m);
      RoundIsNearest(m);
      QuotientBounds(m, u);
      if m / u >= TWO53 { MulMonotone(TWO53, m / u, u); }
      if m / u < TWO52 { MulMonotone(m / u + 1, TWO52, u); }
      var k := if r == m / u * u then m / u else m / u + 1;
      if k < TWO53 {
        MulMonotone(TWO52, k, u);
        MulMonotone(k + 1, TWO53, u);
        assert (k + 1) * u == k * u + u;
        SpareBitsUnique(r, SpareBits(m));
        ExactMultiple(r, k);
      } else {
        assert r == TWO52 * (2 * u);
        SpareBitsUnique(r, SpareBits(m) + 1);
        ExactMultiple(r, TWO52);
      }
    }
  }

  lemma ExactMultiple(r: nat, k: nat)
    requires r == k * Unit(r)
    ensures RoundMagnitude(r) == r
  {
    DivModUnique(r, k, 0, Unit(r));
  }

  // The cursor value.

  /** Whole numbers up to 2^53 in magnitude come back unchanged. */
  lemma ReloadedExact(x: int, overflow: int)
    requires -TWO53 <= x <= TWO53
    ensures Reloaded(x, overflow) == x
  {
    ExactBelow(if x >= 0 then x else -x);
  }

  /** Everywhere: rounding is monotone, off by at most half a unit, and happens only once. */
  lemma Float64Properties(x: int, y: int)
    ensures x <= y ==> Float64(x) <= Float64(y)
    ensures var u: int := Unit(if x >= 0 then x else -x); -u <= 2 * (Float64(x) - x) <= u
    ensures Float64(Float64(x)) == Float64(x)
  {
    var m := if x >= 0 then x else -x;
    RoundIsNearest(m);
    RoundIdempotent(m);
    if x <= y {
      if x >= 0 { RoundMonotone(x, y); }
      else if y < 0 { RoundMonotone(-y, -x); }
    }
  }

  /** A saved and loaded key: integers go through float64, text through JSON, which rewrites invalid UTF-8. */
  function KeyCodec(overflow: int, text: string -> string): Key -> Key {
    (k: Key) => seq(|k|, i requires 0 <= i < |k| =>
      if k[i].IntKey? then IntKey(Reloaded(k[i].n, overflow)) else StrKey(text(k[i].s)))
  }

  /** A table whose key is one integer column. */
  ghost predicate IntKeyed(src: seq<Row>) {
    forall i :: 0 <= i < |src| ==> |src[i].key| == 1 && src[i].key[0].IntKey?
  }

  function IntKeyOf(r: Row): int
    requires |r.key| == 1 && r.key[0].IntKey?
  {
    r.key[0].n
  }

  lemma IntKeyLess(a: Key, b: Key)
    requires |a| == 1 && |b| == 1 && a[0].IntKey? && b[0].IntKey?
    ensures KeyLess(a, b) <==> a[0].n < b[0].n
  {}

  /** For integer keys the codec condition of the completeness theorem says that no key is rounded to
      or past its successor. */
  lemma NoSkipOfIntegers(cfg: Config, overflow: int, text: string -> string)
    requires IntKeyed(cfg.src) && cfg.codec == KeyCodec(overflow, text)
    ensures NoSkip(cfg) <==>
      forall i :: 0 <= i && i + 1 < |cfg.src| ==> Reloaded(IntKeyOf(cfg.src[i]), overflow) < IntKeyOf(cfg.src[i + 1])
  {
    forall i | 0 <= i && i + 1 < |cfg.src|
      ensures KeyLess(cfg.codec(cfg.src[i].key), cfg.src[i + 1].key)
              <==> Reloaded(IntKeyOf(cfg.src[i]), overflow) < IntKeyOf(cfg.src[i + 1])
    {
      IntKeyLess(cfg.codec(cfg.src[i].key), cfg.src[i + 1].key);
    }
  }

  /** Keys within ±2^53 resume exactly: nothing is skipped and no row is counted twice. */
  lemma SmallKeysResumeExactly(cfg: Config, overflow: int, text: string -> string)
    requires ValidConfig(cfg) && IntKeyed(cfg.src) && cfg.codec == KeyCodec(overflow, text)
    requires forall i :: 0 <= i < |cfg.src| ==> -TWO53 <= IntKeyOf(cfg.src[i]) <= TWO53
    ensures NoSkip(cfg) && ExactResume(cfg)
  {
    forall i | 0 <= i && i + 1 < |cfg.src|
      ensures cfg.codec(cfg.src[i].key) == cfg.src[i].key
    {
      ReloadedExact(IntKeyOf(cfg.src[i]), overflow);
    }
    forall i | 0 <= i && i + 1 < |cfg.src|
      ensures !KeyLess(cfg.src[i].key, cfg.src[i].key)
    {
      KeyLessTotal(cfg.src[i].key, cfg.src[i].key);
    }
  }

  /** A table whose key is one text column. */
  ghost predicate StrKeyed(src: seq<Row>) {
    forall i :: 0 <= i < |src| ==> |src[i].key| == 1 && src[i].key[0].StrKey?
  }

  function StrKeyOf(r: Row): string
    requires |r.key| == 1 && r.key[0].StrKey?
  {
    r.key[0].s
  }

  lemma StrKeyLess(a: Key, b: Key)
    requires |a| == 1 && |b| == 1 && a[0].StrKey? && b[0].StrKey?
    ensures KeyLess(a, b) <==> StrLess(a[0].s, b[0].s)
  {}

  /** For text keys it says that no key is rewritten to or past its successor. */
  lemma NoSkipOfText(cfg: Config, overflow: int, text: string -> string)
    requires StrKeyed(cfg.src) && cfg.codec == KeyCodec(overflow, text)
    ensures NoSkip(cfg) <==>
      forall i :: 0 <= i && i + 1 < |cfg.src| ==> StrLess(text(StrKeyOf(cfg.src[i])), StrKeyOf(cfg.src[i + 1]))
  {
    forall i | 0 <= i && i + 1 < |cfg.src|
      ensures KeyLess(cfg.codec(cfg.src[i].key), cfg.src[i + 1].key)
              <==> StrLess(text(StrKeyOf(cfg.src[i])), StrKeyOf(cfg.src[i + 1]))
    {
      StrKeyLess(cfg.codec(cfg.src[i].key), cfg.src[i + 1].key);
    }
  }

  /** Text keys that JSON carries unchanged resume exactly. */
  lemma ValidTextResumesExactly(cfg: Config, overflow: int, text: string -> string)
    requires ValidConfig(cfg) && StrKeyed(cfg.src) && cfg.codec == KeyCodec(overflow, text)
    requires forall i :: 0 <= i < |cfg.src| ==> text(StrKeyOf(cfg.src[i])) == StrKeyOf(cfg.src[i])
    ensures NoSkip(cfg) && ExactResume(cfg)
  {
    forall i | 0 <= i && i + 1 < |cfg.src|
      ensures cfg.codec(cfg.src[i].key) == cfg.src[i].key && !KeyLess(cfg.src[i].key, cfg.src[i].key)
    {
      KeyLessTotal(cfg.src[i].key, cfg.src[i].key);
    }
  }

  /** Keys that the state table gives back as they were. */
  ghost predicate KeysReloadExactly(src: seq<Row>, text: string -> string) {
    forall i, j :: 0 <= i < |src| && 0 <= j < |src[i].key| ==>
      match src[i].key[j]
      case IntKey(n) => -TWO53 <= n <= TWO53
      case StrKey(s) => text(s) == s
  }

  /** Such keys resume exactly, however many columns they have. */
  lemma ReloadedKeysResume(cfg: Config, overflow: int, text: string -> string)
    requires ValidConfig(cfg) && cfg.codec == KeyCodec(overflow, text) && KeysReloadExactly(cfg.src, text)
    ensures NoSkip(cfg) && ExactResume(cfg)
    ensures forall i :: 0 <= i < |cfg.src| ==> cfg.codec(cfg.src[i].key) == cfg.src[i].key
  {
    forall i | 0 <= i < |cfg.src|
      ensures cfg.codec(cfg.src[i].key) == cfg.src[i].key && !KeyLess(cfg.src[i].key, cfg.src[i].key)
    {
      var k := cfg.src[i].key;
      forall j | 0 <= j < |k| ensures cfg.codec(k)[j] == k[j] {
        if k[j].IntKey? { ReloadedExact(k[j].n, overflow); }
      }
      KeyLessTotal(k, k);
    }
  }

  /** Resuming from a reloaded cursor skips, of the rows behind the cursor c, exactly those with a key in
      (c, reloaded c]; with a cursor rounded down it skips none and reads those in (reloaded c, c] again. */
  lemma ResumeSkipsExactly(src: seq<Row>, c: int, overflow: int, i: nat)
    requires Sorted(src) && IntKeyed(src) && i < |src|
    ensures var f, k := Reloaded(c, overflow), IntKeyOf(src[i]);
            && (i < Pos(src, After([IntKey(f)])) && i >= Pos(src, After([IntKey(c)])) <==> c < k <= f)
            && (i >= Pos(src, After([IntKey(f)])) && i < Pos(src, After([IntKey(c)])) <==> f < k <= c)
  {
    CountUpToSplits(src, [IntKey(Reloaded(c, overflow))], i);
    CountUpToSplits(src, [IntKey(c)], i);
    IntKeyLess([IntKey(Reloaded(c, overflow))], src[i].key);
    IntKeyLess([IntKey(c)], src[i].key);
  }

  /** The first key that is rounded up: a table with the keys 2^53+3 and 2^53+4 can lose the second. */
  lemma RoundedUpKey(overflow: int)
    ensures Reloaded(TWO53 + 3, overflow) == TWO53 + 4
    ensures Reloaded(TWO53 + 1, overflow) == TWO53
  {
    assert SpareBits((TWO53 + 3) / 2) == 0 && SpareBits((TWO53 + 1) / 2) == 0;
    assert Unit(TWO53 + 3) == 2 && Unit(TWO53 + 1) == 2;
    DivModUnique(TWO53 + 3, TWO52 + 1, 1, 2);
    DivModUnique(TWO53 + 1, TWO52, 1, 2);
  }
}
