/** The writer: cached table checks, BulkUpsert, and the transactional path. */
module BulkWriter {
  import opened Values
  import opened SqlText
  import opened TableSchema
  import opened Convert
  import opened Partition
  import opened Upsert
  import opened RowConversion
  import opened YdbServer
  import opened TxWrite

  function PathOf(database: string, name: string): string {
    database + "/" + name
  }

  method KeysMissingInMysql(rt: Runtime, pk: seq<string>, cols: seq<Column>) returns (missing: seq<string>)
    ensures missing == MissingKeys(rt, pk, cols)
  {
    var ours := MetaByNameLower(rt, cols);
    missing := [];
    for i := 0 to |pk|
      invariant missing == MissingKeys(rt, pk[..i], cols)
    {
      assert pk[..i + 1][..i] == pk[..i];
      if rt.lower(pk[i]) !in ours { missing := missing + [pk[i]]; }
    }
    assert pk[..|pk|] == pk;
  }

  method HasSync(d: Description) returns (b: bool)
    ensures b == HasSyncIndex(d)
  {
    b := false;
    for i := 0 to |d.indexes|
      invariant !b && forall j :: 0 <= j < i ==> d.indexes[j] == GlobalAsync
    {
      if d.indexes[i] != GlobalAsync {
        b := true;
        break;
      }
    }
  }

  /** What the caches say about a checked table. */
  ghost predicate IsEntry(rt: Runtime, d: Description, cols: seq<Column>, names: seq<string>, types: map<string, string>,
                          txOnly: bool) {
    && names == Shared(rt, d.columns, cols)
    && types == SharedTypes(rt, d.columns, cols)
    && MissingKeys(rt, d.primaryKey, cols) == []
    && (HasSyncIndex(d) ==> txOnly)
  }

  method TryBulk(server: Server, path: string, rt: Runtime, cols: seq<Column>, l: Layout, rows: seq<Cells>)
    returns (r: Result<nat>, refused: bool)
    requires Writable(server, path, rt, cols) && l == LayoutOf(rt, server.desc[path], cols)
    modifies server
    ensures server.Valid()
    ensures server.bulked == old(server.bulked) || server.bulked == old(server.bulked) + {path}
    ensures server.refused == if refused then old(server.refused) + multiset{path} else old(server.refused)
    ensures refused ==> path in server.rejects && server.content == old(server.content)
    ensures r.Success? ==> !refused && r.value == |rows|
    ensures r.Success? ==> Published(old(server.content), server.content, path,
                                     Written(rt, old(server.content)[path], rows, server.desc[path], cols))
    ensures r.Failure? ==> PartlyWritten(rt, old(server.content), server.content, path, rows, server.desc[path], cols)
  {
    refused := false;
    var data := ConvertRows(rt, rows, l);
    if data.Failure? { return Failure(data.error), false; }
    CheckedKeysAreShared(rt, server.desc[path], cols);
    ConvertedRowsHaveKeys(rt, server.desc[path], cols, rows);
    var error := server.BulkUpsert(path, data.value);
    if error.None? { return Success(|rows|), false; }
    return Failure(error.value), IsRefusal(error);
  }

  /** A written chunk is in the table whichever way it went; one that failed in a transaction, or before it
      was sent, is there as a whole or not at all. */
  ghost predicate Outcome(r: Result<nat>, txOnly: bool, path: string, n: nat, before: map<string, Table>,
                          after: map<string, Table>, w: Result<Table>) {
    && (r.Success? ==> r.value == n && Published(before, after, path, w))
    && (r.Failure? && txOnly ==> after == before || Published(before, after, path, w))
  }

  /** What a bulk upsert that failed leaves. */
  ghost predicate PartlyWritten(rt: Runtime, before: map<string, Table>, after: map<string, Table>, path: string,
                                rows: seq<Cells>, d: Description, cols: seq<Column>)
    requires path in before
  {
    after == before ||
    var accepted := AcceptedRows(rt, rows, d, cols);
    accepted.Success? && path in after && after == before[path := after[path]] &&
    Partial(before[path], accepted.value, after[path])
  }

  /** A cached table: its columns are the described ones that MySQL has up to case, each with a type, and every
      key column is among them. */
  lemma CachedColumnsMean(rt: Runtime, d: Description, cols: seq<Column>, names: seq<string>, types: map<string, string>,
                          txOnly: bool)
    requires IsEntry(rt, d, cols, names, types, txOnly) && WellDescribed(d)
    ensures forall n :: n in names <==>
                          && (exists c :: c in d.columns && c.name == n)
                          && (exists m :: m in cols && rt.lower(m.name) == rt.lower(n))
    ensures forall n :: n in names ==> n in types
    ensures forall k :: k in d.primaryKey ==> k in names
  {
    CheckedKeysAreShared(rt, d, cols);
    forall n ensures n in names <==>
        (exists c :: c in d.columns && c.name == n) && (exists m :: m in cols && rt.lower(m.name) == rt.lower(n))
      ensures n in names ==> n in types
    {
      SharedMeans(rt, d.columns, cols, n);
      ByLowerFinds(rt, cols, rt.lower(n));
    }
  }

  class BulkUpsertWriter {
    const server: Server
    const rt: Runtime
    const database: string
    const forceTxUpsert: bool
    var checkedTables: set<string>
    var txOnlyTables: set<string>
    var ydbColumns: map<string, seq<string>>
    var ydbColumnYQL: map<string, map<string, string>>
    /** The MySQL structure a table was checked against. */
    ghost var metas: map<string, TableMeta>

    constructor (server: Server, rt: Runtime, database: string, forceTxUpsert: bool)
      requires server.Valid() && server.bulked == {} && server.refused == multiset{}
      ensures this.server == server && this.rt == rt && this.database == database && this.forceTxUpsert == forceTxUpsert
      ensures Valid() && checkedTables == {} && txOnlyTables == {}
    {
      this.server, this.rt, this.database, this.forceTxUpsert := server, rt, database, forceTxUpsert;
      checkedTables, txOnlyTables, ydbColumns, ydbColumnYQL, metas := {}, {}, map[], map[], map[];
    }

    ghost predicate Cached(p: string)
      reads this
    {
      && p in server.desc && p in metas && p in ydbColumns && p in ydbColumnYQL
      && IsEntry(rt, server.desc[p], metas[p].columns, ydbColumns[p], ydbColumnYQL[p], p in txOnlyTables)
    }

    ghost predicate Valid()
      reads this, server
    {
      && server.Valid()
      && CachesAgree()
      && AsksOnce()
    }

    ghost predicate CachesAgree()
      reads this
    {
      forall p :: p in checkedTables ==> Cached(p)
    }

    /** BulkUpsert is never called on a table described with a sync index, and not again on one that refused it. */
    ghost predicate AsksOnce()
      reads this, server`bulked, server`refused
    {
      && txOnlyTables <= server.rejects
      && (forall p :: p in server.bulked ==> p in server.desc && !HasSyncIndex(server.desc[p]))
      && (forall p :: p in server.refused ==> p in txOnlyTables && server.refused[p] == 1)
    }

    /** A table is always written with the structure it was checked against. */
    ghost predicate Agrees(p: string, meta: TableMeta)
      reads this
    {
      p in checkedTables ==> p in metas && metas[p] == meta
    }

    ghost predicate Known(p: string, meta: TableMeta)
      reads this
    {
      p in checkedTables && p in metas && metas[p] == meta
    }

    method CheckYDBKeyColumns(path: string, meta: TableMeta) returns (error: Option<string>)
      requires Valid() && Agrees(path, meta)
      modifies this
      ensures Valid()
      ensures error.None? ==> checkedTables == old(checkedTables) + {path} && path in metas && metas[path] == meta
      ensures error.None? ==> metas == old(metas)[path := meta]
      ensures error.Some? ==> unchanged(this)
      ensures path in old(checkedTables) ==> error.None? && unchanged(this)
      ensures old(txOnlyTables) <= txOnlyTables <= old(txOnlyTables) + {path}
    {
      if path in checkedTables {
        assert metas == metas[path := meta];
        return None;
      }
      var described := server.DescribeTable(path);
      if described.Failure? { return Some(described.error); }
      var d := described.value;
      var missing := KeysMissingInMysql(rt, d.primaryKey, meta.columns);
      if |missing| > 0 { return Some("key columns missing in MySQL"); }
      var hasSyncIndex := HasSync(d);
      var names, types := SharedColumns(rt, d, meta.columns);
      Remember(path, meta, names, types, hasSyncIndex);
      return None;
    }

    method Remember(path: string, meta: TableMeta, names: seq<string>, types: map<string, string>, hasSyncIndex: bool)
      requires Valid() && path !in checkedTables && path in server.desc
      requires IsEntry(rt, server.desc[path], meta.columns, names, types, hasSyncIndex)
      requires hasSyncIndex == HasSyncIndex(server.desc[path])
      modifies this
      ensures Valid()
      ensures checkedTables == old(checkedTables) + {path} && metas == old(metas)[path := meta]
      ensures txOnlyTables == if hasSyncIndex then old(txOnlyTables) + {path} else old(txOnlyTables)
    {
      checkedTables := checkedTables + {path};
      ydbColumns := ydbColumns[path := names];
      ydbColumnYQL := ydbColumnYQL[path := types];
      metas := metas[path := meta];
      if hasSyncIndex { txOnlyTables := txOnlyTables + {path}; }
      assert AsksOnce();
      forall p | p in checkedTables ensures Cached(p) {
        if p != path { assert old(Cached(p)); }
      }
    }

    method RememberRefusal(path: string)
      requires server.Valid() && path in server.rejects && server.refused[path] == 1
      requires CachesAgree()
      requires txOnlyTables <= server.rejects
      requires forall p :: p in server.bulked ==> p in server.desc && !HasSyncIndex(server.desc[p])
      requires forall p :: p in server.refused && p != path ==> p in txOnlyTables && server.refused[p] == 1
      modifies this`txOnlyTables
      ensures Valid() && txOnlyTables == old(txOnlyTables) + {path}
    {
      txOnlyTables := txOnlyTables + {path};
      forall p | p in checkedTables ensures Cached(p) {
        assert old(Cached(p));
      }
    }

    /** One BulkUpsert; a table that refuses it is remembered. */
    method SendBulk(path: string, meta: TableMeta, rows: seq<Cells>) returns (r: Result<nat>, refused: bool)
      requires Valid() && Known(path, meta) && path !in txOnlyTables
      modifies this`txOnlyTables, server
      ensures Valid() && Known(path, meta)
      ensures txOnlyTables == if refused then old(txOnlyTables) + {path} else old(txOnlyTables)
      ensures refused ==> server.content == old(server.content)
      ensures r.Success? ==> !refused && r.value == |rows|
      ensures r.Success? ==> Published(old(server.content), server.content, path,
                                       Written(rt, old(server.content)[path], rows, server.desc[path], meta.columns))
      ensures r.Failure? ==>
                PartlyWritten(rt, old(server.content), server.content, path, rows, server.desc[path], meta.columns)
    {
      var byLower := MetaByNameLower(rt, meta.columns);
      r, refused := TryBulk(server, path, rt, meta.columns, Layout(ydbColumns[path], ydbColumnYQL[path], byLower), rows);
      if refused { RememberRefusal(path); }
    }

    /** Bulk first, and a transaction for a table that refuses it. */
    method WriteBulk(path: string, meta: TableMeta, rows: seq<Cells>) returns (r: Result<nat>)
      requires Valid() && Known(path, meta) && rows != [] && path !in txOnlyTables
      requires path in server.rejects ==> Fits(rows, meta.columns, MAX_TX_EXEC_BYTES)
      modifies this`txOnlyTables, server
      ensures Valid() && Known(path, meta)
      ensures old(txOnlyTables) <= txOnlyTables
      ensures Outcome(r, path in txOnlyTables, path, |rows|, old(server.content), server.content,
                      Written(rt, old(server.content)[path], rows, server.desc[path], meta.columns))
      ensures path !in txOnlyTables && r.Failure? ==>
                PartlyWritten(rt, old(server.content), server.content, path, rows, server.desc[path], meta.columns)
    {
      var refused;
      r, refused := SendBulk(path, meta, rows);
      if refused { r := WriteChunkTx(server, path, rt, meta.columns, rows); }
    }

    /** On success the table is `Written`, a function of the chunk and the description alone, so the paths
        agree; a failed transactional write is all or nothing, a failed bulk write may leave a part. */
    method WriteChunk(meta: TableMeta, rows: seq<Cells>) returns (r: Result<nat>)
      requires Valid() && Agrees(PathOf(database, meta.name), meta)
      requires forceTxUpsert || PathOf(database, meta.name) in server.rejects ==>
                 Fits(rows, meta.columns, MAX_TX_EXEC_BYTES)
      modifies this, server
      ensures Valid() && Agrees(PathOf(database, meta.name), meta)
      ensures old(checkedTables) <= checkedTables && old(txOnlyTables) <= txOnlyTables
      ensures rows == [] ==> r == Success(0) && unchanged(this) && unchanged(server)
      ensures forceTxUpsert ==> server.bulked == old(server.bulked)
      ensures PathOf(database, meta.name) !in server.desc ==>
                (rows != [] ==> r.Failure?) && server.content == old(server.content)
      ensures var path := PathOf(database, meta.name);
              rows != [] && path in server.desc ==>
                var d, viaTx := server.desc[path], forceTxUpsert || path in txOnlyTables;
                && Outcome(r, viaTx, path, |rows|, old(server.content), server.content,
                           Written(rt, old(server.content)[path], rows, d, meta.columns))
                && (r.Failure? && !viaTx ==>
                      PartlyWritten(rt, old(server.content), server.content, path, rows, d, meta.columns))
    {
      var path := PathOf(database, meta.name);
      if |rows| == 0 { return Success(0); }
      var error := CheckYDBKeyColumns(path, meta);
      if error.Some? { return Failure(error.value); }
      if forceTxUpsert || path in txOnlyTables {
        r := WriteChunkTx(server, path, rt, meta.columns, rows);
      } else {
        r := WriteBulk(path, meta, rows);
      }
    }
  }
}
