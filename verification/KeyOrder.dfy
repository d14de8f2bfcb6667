/** Primary-key values and their order.

    A key is the tuple of the values of the primary-key columns, listed in the order of `PKCols`.
    The same list drives ORDER BY and the cursor condition, so one lexicographic order serves both. */
module KeyOrder {

  /** A key column holds an integer or a string; a column never mixes the two.  Strings compare by
      character code, which is MySQL's binary collation. */
  datatype KeyValue = IntKey(n: int) | StrKey(s: string)

  type Key = seq<KeyValue>

  predicate StrLess(a: string, b: string) {
    if b == [] then false
    else if a == [] then true
    else a[0] < b[0] || (a[0] == b[0] && StrLess(a[1..], b[1..]))
  }

  predicate ValueLess(a: KeyValue, b: KeyValue) {
    match (a, b)
    case (IntKey(x), IntKey(y)) => x < y
    case (IntKey(_), StrKey(_)) => true
    case (StrKey(_), IntKey(_)) => false
    case (StrKey(x), StrKey(y)) => StrLess(x, y)
  }

  predicate KeyLess(a: Key, b: Key) {
    if b == [] then false
    else if a == [] then true
    else ValueLess(a[0], b[0]) || (a[0] == b[0] && KeyLess(a[1..], b[1..]))
  }

  lemma {:induction false} StrLessTotal(a: string, b: string)
    ensures StrLess(a, b) || a == b || StrLess(b, a)
    ensures !(StrLess(a, b) && StrLess(b, a))
  {
    if a == [] || b == [] {
    } else {
      StrLessTotal(a[1..], b[1..]);
      assert a == [a[0]] + a[1..] && b == [b[0]] + b[1..];
    }
  }

  lemma {:induction false} StrLessTransitive(a: string, b: string, c: string)
    requires StrLess(a, b) && StrLess(b, c)
    ensures StrLess(a, c)
  {
    if a != [] && a[0] == b[0] == c[0] { StrLessTransitive(a[1..], b[1..], c[1..]); }
  }

  lemma ValueLessTotal(a: KeyValue, b: KeyValue)
    ensures ValueLess(a, b) || a == b || ValueLess(b, a)
    ensures !(ValueLess(a, b) && ValueLess(b, a))
  {
    if a.StrKey? && b.StrKey? { StrLessTotal(a.s, b.s); }
  }

  lemma ValueLessTransitive(a: KeyValue, b: KeyValue, c: KeyValue)
    requires ValueLess(a, b) && ValueLess(b, c)
    ensures ValueLess(a, c)
  {
    if a.StrKey? { StrLessTransitive(a.s, b.s, c.s); }
  }

  /** Lexicographic order on keys is a strict total order. */
  lemma {:induction false} KeyLessTotal(a: Key, b: Key)
    ensures KeyLess(a, b) || a == b || KeyLess(b, a)
    ensures !(KeyLess(a, b) && KeyLess(b, a))
  {
    if a == [] || b == [] {
    } else {
      ValueLessTotal(a[0], b[0]);
      KeyLessTotal(a[1..], b[1..]);
      assert a == [a[0]] + a[1..] && b == [b[0]] + b[1..];
    }
  }

  lemma {:induction false} KeyLessTransitive(a: Key, b: Key, c: Key)
    requires KeyLess(a, b) && KeyLess(b, c)
    ensures KeyLess(a, c)
  {
    if a == [] {
    } else {
      if ValueLess(a[0], b[0]) {
        if ValueLess(b[0], c[0]) { ValueLessTransitive(a[0], b[0], c[0]); }
      } else if b[0] == c[0] {
        ValueLessTotal(b[0], c[0]);
        KeyLessTransitive(a[1..], b[1..], c[1..]);
      }
    }
  }
}
