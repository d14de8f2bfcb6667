/** The transactional path: one statement per size-bounded part of the chunk, committed with the last. */
module TxWrite {
  import opened Values
  import opened SqlText
  import opened TableSchema
  import opened Convert
  import opened Partition
  import opened Upsert
  import opened RowConversion
  import opened YdbServer

  /** The table after the chunk is written to it, or the error that stops it. */
  function Written(rt: Runtime, t: Table, rows: seq<Cells>, d: Description, cols: seq<Column>): Result<Table> {
    var accepted :- AcceptedRows(rt, rows, d, cols);
    Success(UpsertAll(t, accepted))
  }

  /** Writing a chunk in parts is writing it whole. */
  lemma WrittenInParts(rt: Runtime, t: Table, a: seq<Cells>, b: seq<Cells>, d: Description, cols: seq<Column>)
    requires Written(rt, t, a, d, cols).Success?
    ensures Written(rt, t, a + b, d, cols) == Written(rt, Written(rt, t, a, d, cols).value, b, d, cols)
  {
    AcceptedConcat(rt, a, b, d, cols);
    if AcceptedRows(rt, b, d, cols).Success? {
      UpsertConcat(t, AcceptedRows(rt, a, d, cols).value, AcceptedRows(rt, b, d, cols).value);
    }
  }

  /** Writing a chunk again changes nothing. */
  lemma WrittenTwice(rt: Runtime, t: Table, rows: seq<Cells>, d: Description, cols: seq<Column>)
    requires Written(rt, t, rows, d, cols).Success?
    ensures Written(rt, Written(rt, t, rows, d, cols).value, rows, d, cols) == Written(rt, t, rows, d, cols)
  {
    var data := RowsToYdb(rt, rows, LayoutOf(rt, d, cols)).value;
    UpsertIdempotent(t, Keyed(d.primaryKey, data));
  }

  lemma ConcatAppend<T>(chunks: seq<seq<T>>, i: nat)
    requires i < |chunks|
    ensures Concat(chunks[..i + 1]) == Concat(chunks[..i]) + chunks[i]
  {
    assert chunks[..i + 1] == chunks[..i] + [chunks[i]];
    ConcatSplits(chunks[..i], [chunks[i]]);
    assert Concat([chunks[i]]) == chunks[i] + Concat([]) == chunks[i];
  }

  /** All the rows, in one table. */
  ghost predicate Published(before: map<string, Table>, after: map<string, Table>, path: string, w: Result<Table>) {
    w.Success? && after == before[path := w.value]
  }

  ghost predicate Writable(server: Server, path: string, rt: Runtime, cols: seq<Column>)
    reads server
  {
    server.Valid() && path in server.desc && MissingKeys(rt, server.desc[path].primaryKey, cols) == []
  }

  /** One attempt: either its last statement publishes all the rows, or nothing changes. */
  method Attempt(server: Server, path: string, rt: Runtime, cols: seq<Column>, l: Layout, chunks: seq<seq<Cells>>)
    returns (error: Option<string>)
    requires Writable(server, path, rt, cols) && l == LayoutOf(rt, server.desc[path], cols) && chunks != []
    requires forall c :: c in chunks ==> Total(c, cols) <= MAX_TX_EXEC_BYTES
    modifies server`content
    ensures server.Valid()
    ensures var w := Written(rt, old(server.content)[path], Concat(chunks), server.desc[path], cols);
            && (server.content == old(server.content) || Published(old(server.content), server.content, path, w))
            && (error.None? ==> Published(old(server.content), server.content, path, w))
  {
    var d := server.desc[path];
    var tx := new Tx(server, path);
    ghost var before := server.content;
    for i := 0 to |chunks|
      invariant server.Valid() && fresh(tx) && tx.server == server && tx.path == path
      invariant Written(rt, before[path], Concat(chunks[..i]), d, cols) == Success(tx.staged)
      invariant if i < |chunks| then server.content == before else server.content == before[path := tx.staged]
    {
      var data := ConvertRows(rt, chunks[i], l);
      if data.Failure? { return Some(data.error); }
      CheckedKeysAreShared(rt, d, cols);
      ConvertedRowsHaveKeys(rt, d, cols, chunks[i]);
      ConcatAppend(chunks, i);
      WrittenInParts(rt, before[path], Concat(chunks[..i]), chunks[i], d, cols);
      assert i == |chunks| - 1 ==> chunks[..i + 1] == chunks;
      var error := tx.Exec(data.value, i == |chunks| - 1, Total(chunks[i], cols));
      if error.Some? { return error; }
    }
    assert chunks[..|chunks|] == chunks;
    return None;
  }

  /** Any number of attempts, however each of them ends: success stores all the rows, failure all or none. */
  method DoTx(server: Server, path: string, rt: Runtime, cols: seq<Column>, l: Layout, chunks: seq<seq<Cells>>)
    returns (error: Option<string>)
    requires Writable(server, path, rt, cols) && l == LayoutOf(rt, server.desc[path], cols) && chunks != []
    requires forall c :: c in chunks ==> Total(c, cols) <= MAX_TX_EXEC_BYTES
    modifies server`content
    ensures server.Valid()
    ensures var w := Written(rt, old(server.content)[path], Concat(chunks), server.desc[path], cols);
            && (server.content == old(server.content) || Published(old(server.content), server.content, path, w))
            && (error.None? ==> Published(old(server.content), server.content, path, w))
  {
    ghost var before := server.content;
    ghost var w := Written(rt, before[path], Concat(chunks), server.desc[path], cols);
    var attempts: int := *;
    while attempts > 0
      invariant server.Valid()
      invariant server.content == before || Published(before, server.content, path, w)
    {
      if server.content != before { WrittenTwice(rt, before[path], Concat(chunks), server.desc[path], cols); }
      error := Attempt(server, path, rt, cols, l, chunks);
      if error.None? { return; }
      attempts := attempts - 1;
      var retriable: bool := *;
      if !retriable { return; }
    }
    return Some("deadline exceeded");
  }

  method WriteChunkTx(server: Server, path: string, rt: Runtime, cols: seq<Column>, rows: seq<Cells>)
    returns (r: Result<nat>)
    requires Writable(server, path, rt, cols) && rows != [] && Fits(rows, cols, MAX_TX_EXEC_BYTES)
    modifies server`content
    ensures server.Valid()
    ensures var w := Written(rt, old(server.content)[path], rows, server.desc[path], cols);
            && (server.content == old(server.content) || Published(old(server.content), server.content, path, w))
            && (r.Success? ==> r.value == |rows| && Published(old(server.content), server.content, path, w))
  {
    var described := server.DescribeTable(path);
    if described.Failure? { return Failure(described.error); }
    var names, types := SharedColumns(rt, described.value, cols);
    if |names| == 0 { return Failure("no matching columns"); }
    var byLower := MetaByNameLower(rt, cols);
    var chunks := PartitionRowsBySize(rows, cols, MAX_TX_EXEC_BYTES);
    PartitionIsSound(rows, cols, MAX_TX_EXEC_BYTES);
    var error := DoTx(server, path, rt, cols, Layout(names, types, byLower), chunks);
    if error.Some? { return Failure(error.value); }
    return Success(|rows|);
  }
}
