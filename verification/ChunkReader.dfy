/** `ReadChunk` over a MySQL table that evaluates the printed query. */
module ChunkReader {
  import opened KeyOrder
  import opened Values
  import opened Source
  import opened SqlText
  import opened CursorCondition
  import opened ConditionMeaning
  import MigrationStatus
  import Pipeline

  /** A table with its primary-key columns and all its columns, stored in the order of the key. */
  datatype MySqlTable = MySqlTable(pk: seq<string>, cols: seq<string>, rows: seq<Row>)

  /** The key of a row stands in its key columns. */
  ghost predicate KeyInCells(t: MySqlTable, r: Row) {
    && |r.key| == |t.pk|
    && forall i :: 0 <= i < |t.pk| ==> t.pk[i] in r.cells && r.key[i] == MigrationStatus.KeyValueOf(r.cells[t.pk[i]])
  }

  ghost predicate ValidTable(t: MySqlTable) {
    && t.pk != [] && Distinct(t.pk) && NoBackticks(t.pk)
    && Distinct(t.cols) && (forall i :: 0 <= i < |t.pk| ==> t.pk[i] in t.cols)
    && Sorted(t.rows) && forall i :: 0 <= i < |t.rows| ==> KeyInCells(t, t.rows[i])
  }

  /** The rows, in order, that a parsed condition keeps. */
  function Where(pk: seq<string>, rows: seq<Row>, c: Cond, bound: Columns): seq<Row>
    requires forall i :: 0 <= i < |rows| ==> |rows[i].key| == |pk|
  {
    if rows == [] then []
    else (if Eval(c, ByName(pk, rows[0].key), bound) then [rows[0]] else []) + Where(pk, rows[1..], c, bound)
  }

  function Limit(rows: seq<Row>, n: nat): seq<Row> {
    if |rows| <= n then rows else rows[..n]
  }

  /** SELECT ... WHERE condition ORDER BY pk LIMIT n.  The driver refuses a value list whose length is
      not the number of placeholders. */
  function Query(t: MySqlTable, condition: string, args: Key, binding: Pipeline.Binding, n: nat): Result<seq<Row>>
    requires forall i :: 0 <= i < |t.rows| ==> |t.rows[i].key| == |t.pk|
    requires binding.Intended? ==> |args| == |t.pk|
  {
    match ParseCondition(condition)
    case None => Failure("syntax error")
    case Some(c) =>
      if binding.Intended? then Success(Limit(Where(t.pk, t.rows, c, ByName(t.pk, args)), n))
      else if |args| != |PlaceholderColumns(c)| then Failure("wrong number of arguments")
      else Success(Limit(Where(t.pk, t.rows, c, ByName(PlaceholderColumns(c), args)), n))
  }

  lemma {:induction false} WhereSelects(pk: seq<string>, rows: seq<Row>, cur: Key)
    requires pk != [] && NoBackticks(pk) && Distinct(pk) && |cur| == |pk|
    requires forall i :: 0 <= i < |rows| ==> |rows[i].key| == |pk|
    ensures ParseCondition(ConditionText(pk)).Some?
    ensures Where(pk, rows, ParseCondition(ConditionText(pk)).value, ByName(pk, cur)) == Select(rows, cur)
  {
    ParsePrinted(pk);
    if rows == [] {
    } else {
      PrintedConditionIsKeyOrder(pk, cur, rows[0].key);
      WhereSelects(pk, rows[1..], cur);
    }
  }

  lemma {:induction false} PlaceholderColumnsCount(c: Cond)
    ensures |PlaceholderColumns(c)| == Placeholders(c)
  {
    if c.Gt? || c.Eq? {
    } else {
      PlaceholderColumnsCount(c.l);
      PlaceholderColumnsCount(c.r);
    }
  }

  /** The keyset query answers with the rows behind the cursor, unless the value list does not fit. */
  lemma KeysetQuery(t: MySqlTable, cur: Key, binding: Pipeline.Binding, n: nat)
    requires ValidTable(t) && |cur| == |t.pk|
    ensures Query(t, ConditionText(t.pk), cur, binding, n) ==
              if binding.Intended? || |t.pk| == 1 then Success(Limit(t.rows[CountUpTo(t.rows, cur)..], n))
              else Failure("wrong number of arguments")
  {
    WhereSelects(t.pk, t.rows, cur);
    SelectIsSuffix(t.rows, cur);
    ParsePrinted(t.pk);
    PlaceholderCount(t.pk);
    PlaceholderColumnsCount(PartsCond(t.pk, 0));
    if |t.pk| == 1 {
      assert PlaceholderColumns(PartsCond(t.pk, 0)) == [t.pk[0]] == t.pk;
    }
  }

  /** The values of the key columns in a scanned row; a column that was not selected gives nil. */
  method CursorFromRow(cols: seq<string>, row: seq<Raw>, pk: seq<string>) returns (out: seq<Raw>)
    requires |cols| == |row|
    ensures |out| == |pk|
    ensures forall i, j :: 0 <= i < |pk| && 0 <= j < |cols| && Distinct(cols) && cols[j] == pk[i] ==> out[i] == row[j]
    ensures forall i :: 0 <= i < |pk| && pk[i] !in cols ==> out[i] == RawNull
  {
    var idx: map<string, nat> := map[];
    for i := 0 to |cols|
      invariant forall c :: c in idx ==> idx[c] < i && cols[idx[c]] == c
      invariant forall j :: 0 <= j < i ==> cols[j] in idx
    {
      idx := idx[cols[i] := i];
    }
    out := [];
    for i := 0 to |pk|
      invariant |out| == i
      invariant forall n :: 0 <= n < i ==> out[n] == if pk[n] in idx then row[idx[pk[n]]] else RawNull
    {
      out := out + [if pk[i] in idx then row[idx[pk[i]]] else RawNull];
    }
  }

  /** The values of a row as scanned, column by column. */
  function Scanned(cols: seq<string>, r: Row): seq<Raw> {
    seq(|cols|, i requires 0 <= i < |cols| => if cols[i] in r.cells then r.cells[cols[i]] else RawNull)
  }

  /** The cursor taken from a scanned row is the key of the row. */
  lemma CursorIsTheKey(t: MySqlTable, r: Row, out: seq<Raw>)
    requires Distinct(t.cols) && (forall i :: 0 <= i < |t.pk| ==> t.pk[i] in t.cols) && KeyInCells(t, r)
    requires |out| == |t.pk|
    requires forall i, j :: 0 <= i < |t.pk| && 0 <= j < |t.cols| && t.cols[j] == t.pk[i] ==> out[i] == Scanned(t.cols, r)[j]
    ensures MigrationStatus.CursorKey(out) == r.key
  {
    forall i | 0 <= i < |t.pk| ensures MigrationStatus.CursorKey(out)[i] == r.key[i] {
      var j :| 0 <= j < |t.cols| && t.cols[j] == t.pk[i];
      assert out[i] == Scanned(t.cols, r)[j];
    }
  }

  /** SELECT ... ORDER BY the key LIMIT n, with the cursor condition when there is a cursor; `answers` tells
      whether query and scan succeed. */
  method Fetch(t: MySqlTable, limit: nat, cursor: Cursor, answers: bool) returns (r: Result<seq<Row>>)
    requires ValidTable(t)
    requires cursor.After? ==> |cursor.key| == |t.pk|
    ensures r.Success? <==> answers && (cursor.Top? || |t.pk| == 1)
    ensures r.Success? ==> r.value == Limit(t.rows[Pos(t.rows, cursor)..], limit)
  {
    if !answers { return Failure("query"); }
    if cursor.Top? {
      return Success(Limit(t.rows, limit));
    }
    var condition := BuildCursorCondition(t.pk);
    KeysetQuery(t, cursor.key, Pipeline.Positional, limit);
    r := Query(t, condition, cursor.key, Pipeline.Positional, limit);
  }

  lemma FetchedKeepKeys(t: MySqlTable, p: nat, n: nat)
    requires ValidTable(t) && p <= |t.rows|
    ensures var fetched := Limit(t.rows[p..], n);
            |fetched| <= n && forall i :: 0 <= i < |fetched| ==> KeyInCells(t, fetched[i])
  {
    forall i | 0 <= i < |Limit(t.rows[p..], n)| ensures KeyInCells(t, Limit(t.rows[p..], n)[i]) {
      assert Limit(t.rows[p..], n)[i] == t.rows[p + i];
    }
  }

  datatype Read = Read(rows: seq<Row>, next: seq<Raw>, hasMore: bool)

  /** The reader as written: values passed positionally, next cursor scanned from the last fetched row.  It fails
      when MySQL does and when a composite key has a cursor; otherwise it reads the fetched-extra chunk. */
  method ReadChunk(t: MySqlTable, batch: nat, cursor: Cursor, answers: bool) returns (r: Result<Read>)
    requires ValidTable(t) && batch >= 1
    requires cursor.After? ==> |cursor.key| == |t.pk|
    ensures r.Success? <==> answers && (cursor.Top? || |t.pk| == 1)
    ensures r.Success? ==>
              Msg(r.value.rows, MigrationStatus.CursorOf(r.value.next)) == Chunk(t.rows, FetchedExtra, Pos(t.rows, cursor), batch)
    ensures r.Success? ==> (r.value.hasMore <==> r.value.next != [])
  {
    var q := Fetch(t, batch + 1, cursor, answers);
    if q.Failure? { return Failure(q.error); }
    FetchedKeepKeys(t, Pos(t.rows, cursor), batch + 1);
    var page := TakePage(t, q.value, batch);
    PageIsTheChunk(t, Pos(t.rows, cursor), batch, page);
    r := Success(page);
  }

  /** The scan loop and the cut to the batch size. */
  method TakePage(t: MySqlTable, fetched: seq<Row>, batch: nat) returns (page: Read)
    requires ValidTable(t) && batch >= 1 && forall i :: 0 <= i < |fetched| ==> KeyInCells(t, fetched[i])
    requires |fetched| <= batch + 1
    ensures page.hasMore == (|fetched| > batch)
    ensures page.rows == if |fetched| > batch then fetched[..batch] else fetched
    ensures if |fetched| > batch then MigrationStatus.CursorKey(page.next) == fetched[batch].key else page.next == []
  {
    var result: seq<Row> := [];
    var lastRow: Option<Row> := None;
    for i := 0 to |fetched|
      invariant result == fetched[..i]
      invariant lastRow == if i == 0 then None else Some(fetched[i - 1])
    {
      result := result + [fetched[i]];
      lastRow := Some(fetched[i]);
    }
    assert result == fetched;
    var hasMore := |result| > batch;
    var next: seq<Raw> := [];
    if hasMore {
      result := result[..batch];
      next := CursorFromRow(t.cols, Scanned(t.cols, lastRow.value), t.pk);
      CursorIsTheKey(t, lastRow.value, next);
    }
    page := Read(result, next, hasMore);
  }

  lemma PageIsTheChunk(t: MySqlTable, p: nat, batch: nat, page: Read)
    requires ValidTable(t) && batch >= 1 && p <= |t.rows|
    requires var fetched := Limit(t.rows[p..], batch + 1);
             && page.rows == (if |fetched| > batch then fetched[..batch] else fetched)
             && if |fetched| > batch then MigrationStatus.CursorKey(page.next) == fetched[batch].key else page.next == []
    ensures Msg(page.rows, MigrationStatus.CursorOf(page.next)) == Chunk(t.rows, FetchedExtra, p, batch)
    ensures page.next != [] <==> |t.rows| - p > batch
  {
    if |t.rows| - p > batch { assert t.rows[p..][..batch + 1][batch] == t.rows[p + batch]; }
  }
}
