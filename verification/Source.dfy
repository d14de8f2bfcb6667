/** The MySQL table as the reader sees it: a static sequence of rows in strict primary-key order,
    and the sequence of chunks that paging through it yields. */
module Source {
  import opened KeyOrder
  import opened Values

  datatype Row = Row(key: Key, cells: Cells)

  /** `Top` is the empty cursor: nil in memory, `[]` in the state table. */
  datatype Cursor = Top | After(key: Key)

  /** Which fetched row supplies the next cursor.  The comment in the reader says the last row of the
      chunk; the code takes the extra row that was fetched to detect `hasMore`. */
  datatype CursorChoice = KeptLast | FetchedExtra

  datatype Msg = Msg(rows: seq<Row>, next: Cursor)

  ghost predicate Sorted(src: seq<Row>) {
    && (forall i, j :: 0 <= i < j < |src| ==> KeyLess(src[i].key, src[j].key))
    && (forall i :: 0 <= i < |src| ==> src[i].key != [])
  }

  /** How many leading rows have a key not above `k`. */
  function CountUpTo(src: seq<Row>, k: Key): (n: nat)
    ensures n <= |src|
  {
    if src == [] || KeyLess(k, src[0].key) then 0 else 1 + CountUpTo(src[1..], k)
  }

  /** The index of the first row that `WHERE pk > cursor` keeps. */
  function Pos(src: seq<Row>, c: Cursor): (n: nat)
    ensures n <= |src|
  {
    match c
    case Top => 0
    case After(k) => CountUpTo(src, k)
  }

  lemma {:induction false} CountUpToSplits(src: seq<Row>, k: Key, i: nat)
    requires Sorted(src) && i < |src|
    ensures i < CountUpTo(src, k) <==> !KeyLess(k, src[i].key)
  {
    if KeyLess(k, src[0].key) {
      if i > 0 { KeyLessTransitive(k, src[0].key, src[i].key); }
    } else if i > 0 {
      CountUpToSplits(src[1..], k, i - 1);
    }
  }

  /** The cursor of row i resumes exactly behind row i. */
  lemma PosOfRow(src: seq<Row>, i: nat)
    requires Sorted(src) && i < |src|
    ensures Pos(src, After(src[i].key)) == i + 1
  {
    KeyLessTotal(src[i].key, src[i].key);
    CountUpToSplits(src, src[i].key, i);
    if i + 1 < |src| { CountUpToSplits(src, src[i].key, i + 1); }
  }

  /** The rows a keyset query selects, in order: the filter on `key > cursor`. */
  function Select(src: seq<Row>, k: Key): seq<Row> {
    if src == [] then []
    else (if KeyLess(k, src[0].key) then [src[0]] else []) + Select(src[1..], k)
  }

  /** In a sorted table the filter is the suffix behind the cursor. */
  lemma {:induction false} SelectIsSuffix(src: seq<Row>, k: Key)
    requires Sorted(src)
    ensures Select(src, k) == src[CountUpTo(src, k)..]
  {
    if src == [] {
    } else {
      SelectIsSuffix(src[1..], k);
      if KeyLess(k, src[0].key) && |src| > 1 {
        KeyLessTransitive(k, src[0].key, src[1].key);
        assert CountUpTo(src[1..], k) == 0;
      }
    }
  }

  function NextCursor(src: seq<Row>, choice: CursorChoice, p: nat, batch: nat): Cursor
    requires batch >= 1 && p <= |src|
  {
    if |src| - p <= batch then Top
    else if choice.KeptLast? then After(src[p + batch - 1].key)
    else After(src[p + batch].key)
  }

  /** The chunk read at position p: at most `batch` rows and the cursor for the next read. */
  function Chunk(src: seq<Row>, choice: CursorChoice, p: nat, batch: nat): (m: Msg)
    requires batch >= 1 && p <= |src|
    ensures |m.rows| <= batch
    ensures m.rows == [] <==> p == |src|
  {
    Msg(if |src| - p <= batch then src[p..] else src[p..p + batch], NextCursor(src, choice, p, batch))
  }

  /** Where the read after the chunk at p starts: kept-last moves one chunk on, fetched-extra one row more. */
  function NextPos(choice: CursorChoice, p: nat, batch: nat): nat {
    if choice.KeptLast? then p + batch else p + batch + 1
  }

  /** All messages the producer sends when it starts reading at position p. */
  function Stream(src: seq<Row>, choice: CursorChoice, p: nat, batch: nat): seq<Msg>
    requires batch >= 1 && p <= |src|
    decreases |src| - p
  {
    if p == |src| then []
    else
      var m := Chunk(src, choice, p, batch);
      [m] + if m.next.Top? then [] else Stream(src, choice, NextPos(choice, p, batch), batch)
  }

  lemma NextCursorPos(src: seq<Row>, choice: CursorChoice, p: nat, batch: nat)
    requires Sorted(src) && batch >= 1 && p <= |src|
    requires NextCursor(src, choice, p, batch).After?
    ensures NextPos(choice, p, batch) <= |src|
    ensures Pos(src, NextCursor(src, choice, p, batch)) == NextPos(choice, p, batch)
  {
    PosOfRow(src, if choice.KeptLast? then p + batch - 1 else p + batch);
  }

  lemma SliceSplit<T>(s: seq<T>, a: nat, b: nat, c: nat)
    requires a <= b <= c <= |s|
    ensures s[a..c] == s[a..b] + s[b..c]
  {}

  function Flatten(ms: seq<Msg>): seq<Row> {
    if ms == [] then [] else ms[0].rows + Flatten(ms[1..])
  }

  lemma FlattenCons(m: Msg, rest: seq<Msg>)
    ensures Flatten([m] + rest) == m.rows + Flatten(rest)
  {
    assert ([m] + rest)[1..] == rest;
  }

  lemma ConcatAssociates<T>(a: seq<T>, b: seq<T>, c: seq<T>)
    ensures (a + b) + c == a + (b + c)
  {}

  lemma {:induction false} FlattenConcat(a: seq<Msg>, b: seq<Msg>)
    ensures Flatten(a + b) == Flatten(a) + Flatten(b)
  {
    if a == [] {
      assert a + b == b;
    } else {
      var tail := a[1..];
      assert a + b == [a[0]] + (tail + b);
      FlattenCons(a[0], tail + b);
      FlattenConcat(tail, b);
      ConcatAssociates(a[0].rows, Flatten(tail), Flatten(b));
    }
  }

  /** The rows of a stream are its first chunk's and those of the stream behind it. */
  lemma FlattenStream(src: seq<Row>, choice: CursorChoice, p: nat, batch: nat)
    requires batch >= 1 && p < |src|
    ensures var m := Chunk(src, choice, p, batch);
            Flatten(Stream(src, choice, p, batch)) ==
              m.rows + if m.next.Top? then [] else Flatten(Stream(src, choice, NextPos(choice, p, batch), batch))
  {
    var m := Chunk(src, choice, p, batch);
    FlattenCons(m, if m.next.Top? then [] else Stream(src, choice, NextPos(choice, p, batch), batch));
  }

  /** Where the first chunk of a kept-last stream ends. */
  function ChunkEnd(src: seq<Row>, p: nat, batch: nat): (mid: nat)
    requires p <= |src|
    ensures p <= mid <= |src|
  {
    if |src| - p <= batch then |src| else p + batch
  }

  /** The messages behind the first chunk. */
  function MessagesBehind(src: seq<Row>, mid: nat, batch: nat): seq<Msg>
    requires batch >= 1 && mid <= |src|
  {
    if mid == |src| then [] else Stream(src, KeptLast, mid, batch)
  }

  lemma StreamSplits(src: seq<Row>, p: nat, batch: nat)
    requires batch >= 1 && p < |src|
    ensures var mid := ChunkEnd(src, p, batch); var m := Chunk(src, KeptLast, p, batch);
            && Stream(src, KeptLast, p, batch) == [m] + MessagesBehind(src, mid, batch)
            && m.rows == src[p..mid] && p < mid
            && m.next == if mid == |src| then Top else After(src[mid - 1].key)
  {}

  lemma RowsJoin(src: seq<Row>, m: Msg, rest: seq<Msg>, p: nat, mid: nat)
    requires p <= mid <= |src| && m.rows == src[p..mid] && Flatten(rest) == src[mid..]
    ensures Flatten([m] + rest) == src[p..]
  {
    FlattenCons(m, rest);
  }

  /** Kept-last paging visits every row behind the start, in order. */
  lemma {:induction false} KeptLastStreamIsComplete(src: seq<Row>, p: nat, batch: nat)
    requires batch >= 1 && p <= |src|
    ensures Flatten(Stream(src, KeptLast, p, batch)) == src[p..]
    decreases |src| - p
  {
    if p == |src| {
    } else {
      var mid := ChunkEnd(src, p, batch);
      StreamSplits(src, p, batch);
      if mid < |src| { KeptLastStreamIsComplete(src, mid, batch); }
      RowsJoin(src, Chunk(src, KeptLast, p, batch), MessagesBehind(src, mid, batch), p, mid);
    }
  }

  /** After the first n messages exactly the rows p..q have been delivered; the n-th message's cursor is the key of
      the last of them, and only the last message has no cursor. */
  ghost predicate Delivered(src: seq<Row>, ms: seq<Msg>, p: nat, n: nat, q: nat)
    requires 1 <= n <= |ms|
  {
    && p < q <= |src|
    && Flatten(ms[..n]) == src[p..q]
    && ms[n - 1].next == (if q == |src| then Top else After(src[q - 1].key))
    && (q == |src| <==> n == |ms|)
  }

  lemma FirstDelivered(src: seq<Row>, m: Msg, rest: seq<Msg>, p: nat, mid: nat)
    requires p < mid <= |src| && m.rows == src[p..mid] && (mid == |src| <==> rest == [])
    requires m.next == if mid == |src| then Top else After(src[mid - 1].key)
    ensures Delivered(src, [m] + rest, p, 1, mid)
  {
    assert ([m] + rest)[..1] == [m] + [];
    FlattenCons(m, []);
  }

  lemma MoreDelivered(src: seq<Row>, m: Msg, rest: seq<Msg>, p: nat, mid: nat, n: nat, q: nat)
    requires p < mid <= |src| && m.rows == src[p..mid]
    requires 2 <= n <= |rest| + 1 && Delivered(src, rest, mid, n - 1, q)
    ensures Delivered(src, [m] + rest, p, n, q)
  {
    assert ([m] + rest)[..n] == [m] + rest[..n - 1];
    FlattenCons(m, rest[..n - 1]);
    SliceSplit(src, p, mid, q);
  }

  lemma StreamIsNotEmpty(src: seq<Row>, mid: nat, batch: nat)
    requires batch >= 1 && mid <= |src|
    ensures mid == |src| <==> MessagesBehind(src, mid, batch) == []
  {}

  lemma {:induction false} KeptLastPrefix(src: seq<Row>, p: nat, batch: nat, n: nat) returns (q: nat)
    requires batch >= 1 && p <= |src|
    requires 1 <= n <= |Stream(src, KeptLast, p, batch)|
    ensures Delivered(src, Stream(src, KeptLast, p, batch), p, n, q)
    decreases n
  {
    var mid := ChunkEnd(src, p, batch);
    var m, rest := Chunk(src, KeptLast, p, batch), MessagesBehind(src, mid, batch);
    StreamSplits(src, p, batch);
    StreamIsNotEmpty(src, mid, batch);
    if n == 1 {
      q := mid;
      FirstDelivered(src, m, rest, p, mid);
    } else {
      q := KeptLastPrefix(src, mid, batch, n - 1);
      MoreDelivered(src, m, rest, p, mid, n, q);
    }
  }

  /** Every message of a stream carries between 1 and `batch` rows, all of them rows of the table. */
  lemma {:induction false} StreamBounds(src: seq<Row>, choice: CursorChoice, p: nat, batch: nat, n: nat)
    requires batch >= 1 && p <= |src| && n < |Stream(src, choice, p, batch)|
    ensures 1 <= |Stream(src, choice, p, batch)[n].rows| <= batch
    ensures forall i :: 0 <= i < |Stream(src, choice, p, batch)[n].rows| ==> Stream(src, choice, p, batch)[n].rows[i] in src
    decreases n
  {
    if n == 0 {
    } else {
      StreamBounds(src, choice, NextPos(choice, p, batch), batch, n - 1);
    }
  }
}
