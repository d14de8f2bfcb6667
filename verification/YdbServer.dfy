/** The part of YDB that the writer calls: descriptions that stay fixed, tables, bulk upserts and
    transactions.  Every call may fail whenever it likes; a write of a value of another type than its column's does. */
module YdbServer {
  import opened Values
  import opened SqlText
  import opened Substrings
  import opened Upsert
  import opened Partition
  import opened RowConversion

  const ONLY_ASYNC := "Only async-indexed tables are supported"

  predicate IsRefusal(error: Option<string>) {
    error.Some? && Contains(error.value, ONLY_ASYNC)
  }

  predicate AllHaveKey(pk: seq<string>, data: seq<YCells>) {
    forall i :: 0 <= i < |data| ==> HasKey(pk, data[i])
  }

  class Server {
    const desc: map<string, Description>
    /** The tables on which BulkUpsert is refused. */
    const rejects: set<string>
    var content: map<string, Table>
    /** The tables on which BulkUpsert was called, and how often each refused it. */
    ghost var bulked: set<string>
    ghost var refused: multiset<string>

    ghost predicate Valid()
      reads this
    {
      && content.Keys == desc.Keys
      && (forall p :: p in desc ==> WellDescribed(desc[p]))
      && (forall p :: p in desc && HasSyncIndex(desc[p]) ==> p in rejects)
    }

    constructor (desc: map<string, Description>)
      requires forall p :: p in desc ==> WellDescribed(desc[p])
      ensures Valid() && this.desc == desc && bulked == {} && refused == multiset{}
      ensures forall p :: p in content ==> content[p] == map[]
    {
      this.desc := desc;
      rejects := set p | p in desc && HasSyncIndex(desc[p]);
      content := map p | p in desc :: map[];
      bulked, refused := {}, multiset{};
    }

    method DescribeTable(path: string) returns (r: Result<Description>)
      ensures r.Success? ==> path in desc && r.value == desc[path]
    {
      var answers: bool := *;
      if path in desc && answers { return Success(desc[path]); }
      return Failure("describe");
    }

    method BulkUpsert(path: string, data: seq<YCells>) returns (error: Option<string>)
      requires Valid() && path in desc && AllHaveKey(desc[path].primaryKey, data)
      modifies this
      ensures Valid() && bulked == old(bulked) + {path}
      ensures refused == if IsRefusal(error) then old(refused) + multiset{path} else old(refused)
      ensures IsRefusal(error) ==> path in rejects
      ensures path in rejects || !AllFit(desc[path], data) ==> error.Some? && content == old(content)
      ensures content == old(content)[path := content[path]]
      ensures error.None? ==> content[path] == UpsertAll(old(content[path]), Keyed(desc[path].primaryKey, data))
      ensures error.Some? ==> Partial(old(content[path]), Keyed(desc[path].primaryKey, data), content[path])
    {
      bulked := bulked + {path};
      assert content == content[path := content[path]];
      var rows := Keyed(desc[path].primaryKey, data);
      if path in rejects {
        error := FailedRequest();
        var arrives: bool := *;
        if arrives {
          refused := refused + multiset{path};
          error := Refusal();
        }
        return;
      }
      if !AllFit(desc[path], data) {
        error := FailedRequest();
        return;
      }
      var succeeds: bool := *;
      if succeeds {
        content := content[path := UpsertAll(content[path], rows)];
        return None;
      }
      var left := PartOf(content[path], rows);
      content := content[path := left];
      error := FailedRequest();
    }

    method Refusal() returns (error: Option<string>)
      ensures IsRefusal(error)
    {
      ContainsAt(ONLY_ASYNC, ONLY_ASYNC, 0);
      return Some(ONLY_ASYNC);
    }

    /** Any error but a refusal. */
    method FailedRequest() returns (error: Option<string>)
      ensures error.Some? && !IsRefusal(error)
    {
      var reason: string := *;
      if Contains(reason, ONLY_ASYNC) { reason := ""; MissingChar("", ONLY_ASYNC, 0); }
      return Some(reason);
    }

    /** Any part of a batch. */
    method PartOf(t: Table, rows: seq<YRow>) returns (left: Table)
      ensures Partial(t, rows, left)
    {
      left := t;
      for i := 0 to |rows|
        invariant Partial(t, rows, left)
      {
        var reaches: bool := *;
        if reaches { left := left[rows[i].key := rows[i].cells]; }
      }
    }
  }

  /** One attempt of DoTx on one table: its statements are staged and published by the one that commits. */
  class Tx {
    const server: Server
    const path: string
    var staged: Table

    constructor (server: Server, path: string)
      requires server.Valid() && path in server.desc
      ensures this.server == server && this.path == path && staged == server.content[path]
    {
      this.server := server;
      this.path := path;
      staged := server.content[path];
    }

    method Exec(data: seq<YCells>, commit: bool, ghost size: nat) returns (error: Option<string>)
      requires server.Valid() && path in server.desc && AllHaveKey(server.desc[path].primaryKey, data)
      requires size <= MAX_TX_EXEC_BYTES
      modifies this, server`content
      ensures server.Valid()
      ensures !AllFit(server.desc[path], data) ==>
                error.Some? && staged == old(staged) && server.content == old(server.content)
      ensures AllFit(server.desc[path], data) ==> staged == UpsertAll(old(staged), Keyed(server.desc[path].primaryKey, data))
      ensures server.content == old(server.content) || (commit && server.content == old(server.content)[path := staged])
      ensures error.None? && commit ==> server.content == old(server.content)[path := staged]
    {
      if !AllFit(server.desc[path], data) { return Some(ILL_TYPED); }
      staged := UpsertAll(staged, Keyed(server.desc[path].primaryKey, data));
      var runs: bool := *;
      if !runs { return Some("aborted"); }
      if commit {
        var applied: bool := *;
        if !applied { return Some("commit failed"); }
        server.content := server.content[path := staged];
        var acknowledged: bool := *;
        if !acknowledged { return Some("commit outcome unknown"); }
      }
      return None;
    }
  }
}
