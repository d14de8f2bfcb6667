/** The effect of UPSERT on a YDB table, restricted to the columns the tool writes. */
module Upsert {
  import opened Values

  type Table = map<YKey, YCells>

  function UpsertAll(t: Table, rows: seq<YRow>): Table
    decreases rows
  {
    if rows == [] then t else UpsertAll(t[rows[0].key := rows[0].cells], rows[1..])
  }

  lemma {:induction false} UpsertConcat(t: Table, a: seq<YRow>, b: seq<YRow>)
    ensures UpsertAll(t, a + b) == UpsertAll(UpsertAll(t, a), b)
    decreases a
  {
    if a == [] {
      assert a + b == b;
    } else {
      assert (a + b)[1..] == a[1..] + b;
      UpsertConcat(t[a[0].key := a[0].cells], a[1..], b);
    }
  }

  /** Upserting a batch overlays one fixed map on the table, whatever the table held. */
  lemma {:induction false} UpsertIsOverlay(t: Table, rows: seq<YRow>)
    ensures UpsertAll(t, rows) == t + UpsertAll(map[], rows)
    decreases rows
  {
    if rows == [] {
    } else {
      var one: Table := map[rows[0].key := rows[0].cells];
      UpsertIsOverlay(t[rows[0].key := rows[0].cells], rows[1..]);
      UpsertIsOverlay(one, rows[1..]);
      assert t[rows[0].key := rows[0].cells] == t + one;
      assert map[][rows[0].key := rows[0].cells] == one;
    }
  }

  /** Sending the same batch again changes nothing. */
  lemma UpsertIdempotent(t: Table, rows: seq<YRow>)
    ensures UpsertAll(UpsertAll(t, rows), rows) == UpsertAll(t, rows)
  {
    UpsertIsOverlay(t, rows);
    UpsertIsOverlay(UpsertAll(t, rows), rows);
  }

  predicate Holds(t: Table, r: YRow) {
    r.key in t && t[r.key] == r.cells
  }

  /** Rows that agree with every batch row on a shared key. */
  ghost predicate Compatible(r: YRow, rows: seq<YRow>) {
    forall i :: 0 <= i < |rows| && rows[i].key == r.key ==> rows[i].cells == r.cells
  }

  /** A batch leaves alone a stored row that none of its rows contradicts. */
  lemma {:induction false} UpsertKeeps(t: Table, rows: seq<YRow>, r: YRow)
    requires Holds(t, r) && Compatible(r, rows)
    ensures Holds(UpsertAll(t, rows), r)
    decreases rows
  {
    if rows == [] {
    } else {
      UpsertKeeps(t[rows[0].key := rows[0].cells], rows[1..], r);
    }
  }

  lemma {:induction false} UpsertStores(t: Table, rows: seq<YRow>, i: nat)
    requires i < |rows| && Compatible(rows[i], rows)
    ensures Holds(UpsertAll(t, rows), rows[i])
    decreases rows
  {
    var t' := t[rows[0].key := rows[0].cells];
    if i == 0 {
      UpsertKeeps(t', rows[1..], rows[0]);
    } else {
      UpsertStores(t', rows[1..], i - 1);
    }
  }

  /** Everything stored afterwards was stored before or comes from the batch. */
  lemma {:induction false} UpsertOnlyAdds(t: Table, rows: seq<YRow>, k: YKey)
    requires k in UpsertAll(t, rows)
    ensures (k in t && UpsertAll(t, rows)[k] == t[k]) || YRow(k, UpsertAll(t, rows)[k]) in rows
    decreases rows
  {
    if rows == [] {
    } else {
      UpsertOnlyAdds(t[rows[0].key := rows[0].cells], rows[1..], k);
    }
  }

  /** What a failed non-atomic write may leave behind: any part of the batch. */
  ghost predicate Partial(t: Table, rows: seq<YRow>, t': Table) {
    && t.Keys <= t'.Keys
    && forall k :: k in t' ==> (k in t && t'[k] == t[k]) || YRow(k, t'[k]) in rows
  }

  lemma PartialKeeps(t: Table, rows: seq<YRow>, t': Table, r: YRow)
    requires Partial(t, rows, t') && Holds(t, r) && Compatible(r, rows)
    ensures Holds(t', r)
  {}

  /** All of a batch is a part of it. */
  lemma WholeIsPartial(t: Table, rows: seq<YRow>)
    ensures Partial(t, rows, UpsertAll(t, rows))
  {
    UpsertIsOverlay(t, rows);
    forall k | k in UpsertAll(t, rows)
      ensures (k in t && UpsertAll(t, rows)[k] == t[k]) || YRow(k, UpsertAll(t, rows)[k]) in rows
    {
      UpsertOnlyAdds(t, rows, k);
    }
  }
}
