/** The state table: progress and completion of every table, and the pipeline's view of it. */
module MigrationStatus {
  import opened KeyOrder
  import opened Values
  import opened Source
  import Pipeline
  import opened Float64Cursor

  /** One element of a cursor as `cursorToJSON` leaves it. */
  function ToJson(v: Raw): (w: Raw)
    ensures !w.RawBytes?
  {
    match v
    case RawBytes(s) => RawStr(s)
    case RawInt(kind, n) => if kind == I64 || kind == U64 then RawF64(Float64(n) as real) else v
    case _ => v
  }

  /** How JSON writes text, rewriting invalid UTF-8, and times. */
  datatype Json = Json(text: string -> string, time: int -> string)

  /** Marshalling and unmarshalling what `cursorToJSON` leaves: every number comes back as a float64. */
  function ThroughJson(json: Json, v: Raw): Raw
    requires !v.RawBytes?
  {
    match v
    case RawInt(_, n) => RawF64(Float64(n) as real)
    case RawF32(x) => RawF64(x)
    case RawStr(s) => RawStr(json.text(s))
    case RawTime(t) => RawStr(json.time(t))
    case _ => v
  }

  function FromJson(v: Raw, overflow: int): Raw {
    if v.RawF64? then RawInt(I64, Int64OfFloat(Truncate(v.x), overflow)) else v
  }

  /** Go's conversion of a float to an integer drops the fraction. */
  function Truncate(x: real): int {
    if x >= 0.0 then x.Floor else -((-x).Floor)
  }

  method CursorToJson(c: seq<Raw>) returns (out: seq<Raw>)
    ensures |out| == |c| && forall i :: 0 <= i < |c| ==> out[i] == ToJson(c[i])
  {
    out := [];
    for i := 0 to |c|
      invariant |out| == i && forall j :: 0 <= j < i ==> out[j] == ToJson(c[j])
    {
      match c[i] {
        case RawBytes(s) => out := out + [RawStr(s)];
        case RawInt(I64, n) => out := out + [RawF64(Float64(n) as real)];
        case RawInt(U64, n) => out := out + [RawF64(Float64(n) as real)];
        case v => out := out + [v];
      }
    }
  }

  method JsonToCursor(arr: seq<Raw>, overflow: int) returns (out: seq<Raw>)
    ensures |out| == |arr| && forall i :: 0 <= i < |arr| ==> out[i] == FromJson(arr[i], overflow)
  {
    out := [];
    for i := 0 to |arr|
      invariant |out| == i && forall j :: 0 <= j < i ==> out[j] == FromJson(arr[j], overflow)
    {
      match arr[i] {
        case RawF64(x) => out := out + [RawInt(I64, Int64OfFloat(Truncate(x), overflow))];
        case RawStr(s) => out := out + [RawStr(s)];
        case v => out := out + [v];
      }
    }
  }

  /** The values a key column can have: integers of the driver's two kinds, and text. */
  predicate IsKeyCell(v: Raw) {
    (v.RawInt? && (v.kind == I64 || v.kind == U64)) || v.RawStr? || v.RawBytes?
  }

  function KeyValueOf(v: Raw): KeyValue {
    match v
    case RawInt(_, n) => IntKey(n)
    case RawStr(s) => StrKey(s)
    case RawBytes(s) => StrKey(s)
    case _ => StrKey("")
  }

  function CursorKey(c: seq<Raw>): (k: Key)
    ensures |k| == |c| && forall i :: 0 <= i < |c| ==> k[i] == KeyValueOf(c[i])
  {
    seq(|c|, i requires 0 <= i < |c| => KeyValueOf(c[i]))
  }

  function CursorOf(c: seq<Raw>): Cursor {
    if c == [] then Top else After(CursorKey(c))
  }

  /** One cell through the state table: an integer is rounded, text is rewritten as JSON does. */
  lemma ReloadedCell(json: Json, v: Raw, overflow: int)
    requires IsKeyCell(v)
    ensures KeyValueOf(FromJson(ThroughJson(json, ToJson(v)), overflow)) ==
              if v.RawInt? then IntKey(Reloaded(v.n, overflow)) else StrKey(json.text(v.text))
  {
    if v.RawInt? {
      var f := Float64(v.n);
      assert Truncate(f as real) == f;
    }
  }

  /** The text of resume_cursor: empty after completion, otherwise a JSON array. */
  datatype CursorText = Blank | Array(cells: seq<Raw>)

  datatype StateRow = StateRow(resume: CursorText, rowsSoFar: nat, completed: bool)

  function Reload(cells: seq<Raw>, overflow: int): (r: seq<Raw>)
    ensures |r| == |cells| && forall i :: 0 <= i < |cells| ==> r[i] == FromJson(cells[i], overflow)
  {
    seq(|cells|, i requires 0 <= i < |cells| => FromJson(cells[i], overflow))
  }

  class StateTable {
    var rows: map<string, StateRow>
    const overflow: int
    const json: Json

    /** The checkpoint a process will find, in the pipeline's terms. */
    ghost function Checkpoint(name: string): Pipeline.Checkpoint
      reads this
    {
      if name !in rows then Pipeline.NoRow
      else if rows[name].completed then Pipeline.Completed(rows[name].rowsSoFar)
      else if rows[name].resume.Blank? then Pipeline.NoRow
      else Pipeline.InProgress(CursorOf(Reload(rows[name].resume.cells, overflow)), rows[name].rowsSoFar)
    }

    constructor (overflow: int, json: Json)
      ensures rows == map[] && this.overflow == overflow && this.json == json
      ensures forall name :: Checkpoint(name) == Pipeline.NoRow
    {
      this.rows := map[];
      this.overflow, this.json := overflow, json;
    }

    /** Saving is the pipeline's `Save`: the cursor goes through the float64 codec. */
    method SaveProgress(name: string, next: seq<Raw>, rowsSoFar: nat)
      modifies this`rows
      ensures Checkpoint(name).InProgress? && Checkpoint(name).rows == rowsSoFar
      ensures (forall i :: 0 <= i < |next| ==> IsKeyCell(next[i])) ==>
                Checkpoint(name) ==
                Pipeline.InProgress(if next == [] then Top else After(KeyCodec(overflow, json.text)(CursorKey(next))), rowsSoFar)
      ensures forall other :: other != name ==> Checkpoint(other) == old(Checkpoint(other))
    {
      var cells: seq<Raw> := [];
      if |next| > 0 {
        var arr := CursorToJson(next);
        cells := seq(|arr|, i requires 0 <= i < |arr| && !arr[i].RawBytes? => ThroughJson(json, arr[i]));
      }
      rows := rows[name := StateRow(Array(cells), rowsSoFar, false)];
      if next != [] && forall i :: 0 <= i < |next| ==> IsKeyCell(next[i]) {
        forall i | 0 <= i < |next|
          ensures CursorKey(Reload(cells, overflow))[i] == KeyCodec(overflow, json.text)(CursorKey(next))[i]
        {
          ReloadedCell(json, next[i], overflow);
        }
        assert CursorKey(Reload(cells, overflow)) == KeyCodec(overflow, json.text)(CursorKey(next));
      }
    }

    method MarkTableCompleted(name: string, rowCount: nat)
      modifies this`rows
      ensures Checkpoint(name) == Pipeline.Completed(rowCount)
      ensures forall other :: other != name ==> Checkpoint(other) == old(Checkpoint(other))
    {
      rows := rows[name := StateRow(Blank, rowCount, true)];
    }

    /** Loading hands out what the pipeline's `Start` begins with; `ok` tells a checkpoint in progress. */
    method GetProgress(name: string) returns (cursor: seq<Raw>, rowsSoFar: nat, ok: bool)
      ensures ok <==> Checkpoint(name).InProgress?
      ensures CursorOf(cursor) == Pipeline.StartCursor(Checkpoint(name))
      ensures rowsSoFar == Pipeline.StartTotal(Checkpoint(name))
    {
      if name !in rows { return [], 0, false; }
      var row := rows[name];
      if row.resume.Blank? { return [], 0, false; }
      if row.completed { return [], 0, false; }
      var c := JsonToCursor(row.resume.cells, overflow);
      assert c == Reload(row.resume.cells, overflow);
      return c, row.rowsSoFar, true;
    }

    /** The names of all completed tables, in whatever order the rows come. */
    method GetCompletedTables() returns (out: seq<string>)
      ensures forall n :: n in out <==> Checkpoint(n).Completed?
    {
      out := [];
      var left := rows.Keys;
      while left != {}
        invariant left <= rows.Keys
        invariant forall n :: n in out <==> n in rows.Keys - left && rows[n].completed
        decreases |left|
      {
        var name :| name in left;
        if rows[name].completed {
          out := out + [name];
        }
        left := left - {name};
      }
    }
  }
}
