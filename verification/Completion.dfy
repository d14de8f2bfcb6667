/** Runs that exist: a fault-free process completes, and with a cursor codec that skips, some run
    completes with a row missing.  Together with `Resume` this makes the codec condition exact. */
module Completion {
  import opened KeyOrder
  import opened Values
  import opened Source
  import opened Upsert
  import opened Pipeline
  import opened Resume

  lemma ReachesSelf(cfg: Config, s: State)
    ensures Reaches(cfg, s, s)
  {
    assert Run(cfg, [s], []) && [s][0] == s;
  }

  lemma ReachesThenStep(cfg: Config, s: State, t: State, a: Action, u: State)
    requires Reaches(cfg, s, t) && Next(cfg, t, a, u)
    ensures Reaches(cfg, s, u)
  {
    var tr, acts :| Run(cfg, tr, acts) && tr[0] == s && tr[|acts|] == t;
    assert Run(cfg, tr + [u], acts + [a]) && (tr + [u])[0] == s && (tr + [u])[|acts + [a]|] == u;
  }

  /** A producer about to read at cursor c, nothing in flight. */
  ghost predicate Idle(s: State, c: Cursor) {
    && s.proc.Up? && s.proc.w.batch >= 1
    && s.proc.w.prod == Reading(c) && s.proc.w.ch == [] && s.proc.w.cons.Receiving?
  }

  /** Every cursor that paging from c comes by can be bound. */
  ghost predicate AllReadable(cfg: Config, batch: nat, c: Cursor)
    requires batch >= 1
  {
    Readable(cfg, c) && forall m :: m in StreamAfter(cfg, batch, c) ==> Readable(cfg, m.next)
  }

  ghost predicate AllConvertible(cfg: Config) {
    forall r :: r in cfg.src ==> cfg.convert(r).Success?
  }

  /** The four states one chunk goes through: on the channel, received, written, checkpointed. */
  function Queued(s: State, m: Msg): (t: State)
    requires s.proc.Up?
    ensures t.proc.Up?
  {
    s.(proc := Up(s.proc.w.(ch := [m], prod := if m.next.Top? then Closing else Reading(m.next))))
  }

  function Received(s: State, m: Msg): (t: State)
    requires s.proc.Up?
    ensures t.proc.Up?
  {
    s.(proc := Up(s.proc.w.(ch := [], cons := Writing(m))))
  }

  function Stored(cfg: Config, s: State, m: Msg): (t: State)
    requires s.proc.Up?
    ensures t.proc.Up?
  {
    s.(proc := Up(s.proc.w.(cons := Saving(m), total := s.proc.w.total + |m.rows|)),
       table := UpsertAll(s.table, Sent(cfg, m.rows)))
  }

  function Saved(cfg: Config, s: State, m: Msg): (t: State)
    requires s.proc.Up?
    ensures t.proc.Up?
  {
    Recorded(s, InProgress(SavedCursor(cfg, m.next), s.proc.w.total))
      .(proc := Up(s.proc.w.(cons := Receiving, done := s.proc.w.done + [m])))
  }

  function AfterChunk(cfg: Config, s: State, m: Msg): (t: State)
    requires s.proc.Up?
    ensures t.proc.Up?
  {
    Saved(cfg, Stored(cfg, Received(Queued(s, m), m), m), m)
  }

  lemma ChunkIsQueued(cfg: Config, s0: State, s: State, c: Cursor)
    requires Reaches(cfg, s0, s) && Idle(s, c) && Readable(cfg, c) && Pos(cfg.src, c) < |cfg.src|
    ensures Reaches(cfg, s0, Queued(s, Chunk(cfg.src, cfg.choice, Pos(cfg.src, c), s.proc.w.batch)))
  {
    var w := s.proc.w;
    var m := Chunk(cfg.src, cfg.choice, Pos(cfg.src, c), w.batch);
    assert w.ch + [m] == [m];
    var s1 := s.(proc := Up(w.(prod := Sending(m))));
    ReachesThenStep(cfg, s0, s, Read, s1);
    ReachesThenStep(cfg, s0, s1, Send, Queued(s, m));
  }

  lemma ChunkIsReceived(cfg: Config, s0: State, s: State, m: Msg)
    requires Reaches(cfg, s0, s) && s.proc.Up? && s.proc.w.batch >= 1
    requires s.proc.w.ch == [m] && s.proc.w.cons.Receiving?
    ensures Reaches(cfg, s0, Received(s, m))
  {
    assert s.proc.w.ch[1..] == [];
    ReachesThenStep(cfg, s0, s, Recv, Received(s, m));
  }

  lemma ChunkIsWritten(cfg: Config, s0: State, s: State, m: Msg)
    requires Reaches(cfg, s0, s) && s.proc.Up? && s.proc.w.batch >= 1 && s.proc.w.cons == Writing(m)
    requires ConvertAll(cfg, m.rows).Success?
    ensures Reaches(cfg, s0, Stored(cfg, s, m))
  {
    ReachesThenStep(cfg, s0, s, Write, Stored(cfg, s, m));
  }

  lemma ChunkIsSaved(cfg: Config, s0: State, s: State, m: Msg)
    requires Reaches(cfg, s0, s) && s.proc.Up? && s.proc.w.batch >= 1 && s.proc.w.cons == Saving(m)
    ensures Reaches(cfg, s0, Saved(cfg, s, m))
  {
    ReachesThenStep(cfg, s0, s, Save, Saved(cfg, s, m));
  }

  lemma ChunkConverts(cfg: Config, p: nat, batch: nat)
    requires AllConvertible(cfg) && batch >= 1 && p <= |cfg.src|
    ensures ConvertAll(cfg, Chunk(cfg.src, cfg.choice, p, batch).rows).Success?
  {
    var rows := Chunk(cfg.src, cfg.choice, p, batch).rows;
    assert forall i :: 0 <= i < |rows| ==> rows[i] in cfg.src;
  }

  lemma ChunkGoesThrough(cfg: Config, s0: State, s: State, c: Cursor)
    requires Reaches(cfg, s0, s) && Idle(s, c) && Readable(cfg, c) && AllConvertible(cfg)
    requires Pos(cfg.src, c) < |cfg.src|
    ensures Reaches(cfg, s0, AfterChunk(cfg, s, Chunk(cfg.src, cfg.choice, Pos(cfg.src, c), s.proc.w.batch)))
  {
    var m := Chunk(cfg.src, cfg.choice, Pos(cfg.src, c), s.proc.w.batch);
    ChunkConverts(cfg, Pos(cfg.src, c), s.proc.w.batch);
    ChunkIsQueued(cfg, s0, s, c);
    ChunkIsReceived(cfg, s0, Queued(s, m), m);
    ChunkIsWritten(cfg, s0, Received(Queued(s, m), m), m);
    ChunkIsSaved(cfg, s0, Stored(cfg, Received(Queued(s, m), m), m), m);
  }

  lemma ClosingFinishes(cfg: Config, s0: State, s: State)
    requires Reaches(cfg, s0, s) && s.proc.Up? && s.proc.w.batch >= 1
    requires s.proc.w.prod.Closing? && s.proc.w.ch == [] && s.proc.w.cons.Receiving?
    ensures Reaches(cfg, s0, State(Down, s.table, Completed(s.proc.w.total), s.proc.w.pass))
  {
    var w := s.proc.w;
    var s1 := s.(proc := Up(w.(prod := Closed)));
    var s2 := s.(proc := Up(w.(prod := Closed, cons := Drained)));
    ReachesThenStep(cfg, s0, s, Close, s1);
    ReachesThenStep(cfg, s0, s1, Drain, s2);
    ReachesThenStep(cfg, s0, s2, Mark, State(Down, s.table, Completed(w.total), w.pass));
  }

  /** Where a process ends that writes these rows and marks the table. */
  function EndState(cfg: Config, s: State, rows: seq<Row>): State
    requires s.proc.Up?
  {
    State(Down, UpsertAll(s.table, Sent(cfg, rows)), Completed(s.proc.w.total + |rows|), s.proc.w.pass)
  }

  function Finished(cfg: Config, s: State, c: Cursor): State
    requires s.proc.Up? && s.proc.w.batch >= 1
  {
    EndState(cfg, s, Flatten(StreamAfter(cfg, s.proc.w.batch, c)))
  }

  lemma EndAfterChunk(cfg: Config, s: State, m: Msg, rest: seq<Row>)
    requires s.proc.Up? && ConvertAll(cfg, m.rows + rest).Success?
    ensures EndState(cfg, s, m.rows + rest) == EndState(cfg, AfterChunk(cfg, s, m), rest)
  {
    ConvertAllConcat(cfg, m.rows, rest);
    UpsertConcat(s.table, Sent(cfg, m.rows), Sent(cfg, rest));
  }

  lemma StreamRowsUnfold(cfg: Config, batch: nat, c: Cursor)
    requires ValidConfig(cfg) && batch >= 1 && Pos(cfg.src, c) < |cfg.src|
    ensures var m := Chunk(cfg.src, cfg.choice, Pos(cfg.src, c), batch);
            Flatten(StreamAfter(cfg, batch, c)) ==
              m.rows + if m.next.Top? then [] else Flatten(StreamAfter(cfg, batch, m.next))
  {
    var p := Pos(cfg.src, c);
    FlattenStream(cfg.src, cfg.choice, p, batch);
    if Chunk(cfg.src, cfg.choice, p, batch).next.After? { NextCursorPos(cfg.src, cfg.choice, p, batch); }
  }

  /** From an idle process there is a fault-free run to the end, and it writes the stream's rows in order. */
  lemma {:induction false} FaultFreeRunCompletes(cfg: Config, s0: State, s: State, c: Cursor)
    requires ValidConfig(cfg) && Reaches(cfg, s0, s) && Idle(s, c) && AllConvertible(cfg)
    requires AllReadable(cfg, s.proc.w.batch, c)
    ensures Reaches(cfg, s0, Finished(cfg, s, c))
    decreases |StreamAfter(cfg, s.proc.w.batch, c)|
  {
    var w := s.proc.w;
    StreamUnfolds(cfg, w.batch, c);
    if Pos(cfg.src, c) == |cfg.src| {
      var s1 := s.(proc := Up(w.(prod := Closing)));
      ReachesThenStep(cfg, s0, s, Read, s1);
      ClosingFinishes(cfg, s0, s1);
    } else {
      var m := Chunk(cfg.src, cfg.choice, Pos(cfg.src, c), w.batch);
      ChunkGoesThrough(cfg, s0, s, c);
      StreamRowsUnfold(cfg, w.batch, c);
      StreamConvertible(cfg, w.batch, c);
      EndAfterChunk(cfg, s, m, if m.next.Top? then [] else Flatten(StreamAfter(cfg, w.batch, m.next)));
      if m.next.Top? {
        ClosingFinishes(cfg, s0, AfterChunk(cfg, s, m));
      } else {
        assert m in StreamAfter(cfg, w.batch, c);
        FaultFreeRunCompletes(cfg, s0, AfterChunk(cfg, s, m), m.next);
      }
    }
  }

  lemma StreamConvertible(cfg: Config, batch: nat, c: Cursor)
    requires batch >= 1 && AllConvertible(cfg)
    ensures ConvertAll(cfg, Flatten(StreamAfter(cfg, batch, c))).Success?
  {
    var ms := StreamAfter(cfg, batch, c);
    forall m, r | m in ms && r in m.rows ensures r in cfg.src {
      var i :| 0 <= i < |ms| && ms[i] == m;
      StreamBounds(cfg.src, cfg.choice, Pos(cfg.src, c), batch, i);
    }
    FlattenMembers(ms, cfg.src);
    var rows := Flatten(ms);
    assert forall i :: 0 <= i < |rows| ==> rows[i] in cfg.src;
  }

  /** The worker that `Start` creates. */
  function Begun(s: State, batch: nat): State {
    var c, n := StartCursor(s.ckpt), StartTotal(s.ckpt);
    s.(proc := Up(Worker(batch, c, n, s.table, StartPass(s), Reading(c), [], Receiving, n, [])))
  }

  /** Every binding problem aside. */
  ghost predicate CanBind(cfg: Config) {
    cfg.binding.Intended? || cfg.pkWidth == 1
  }

  function CursorAt(src: seq<Row>, j: nat): Cursor
    requires j <= |src|
  {
    if j == 0 then Top else After(src[j - 1].key)
  }

  /** A process with batch 1, in the first pass, that has copied, counted and checkpointed the first j rows. */
  ghost predicate CopiedOneByOne(cfg: Config, s: State, j: nat)
    requires j <= |cfg.src|
  {
    && Reachable(cfg, s) && Idle(s, CursorAt(cfg.src, j)) && s.proc.w.batch == 1
    && s.table == UpsertAll(map[], Sent(cfg, cfg.src[..j]))
    && s.passes == 0 && s.proc.w.pass == 0 && s.proc.w.total == j
    && (j > 0 ==> s.ckpt == InProgress(After(cfg.codec(cfg.src[j - 1].key)), j))
  }

  lemma PosOfCursorAt(src: seq<Row>, j: nat)
    requires Sorted(src) && j <= |src|
    ensures Pos(src, CursorAt(src, j)) == j
  {
    if j > 0 { PosOfRow(src, j - 1); }
  }

  lemma ChunkOfOne(src: seq<Row>, j: nat)
    requires j + 1 < |src|
    ensures Chunk(src, KeptLast, j, 1) == Msg([src[j]], After(src[j].key))
  {
    assert src[j..j + 1] == [src[j]];
  }

  lemma CopyGrows(cfg: Config, j: nat)
    requires AllConvertible(cfg) && j < |cfg.src|
    ensures UpsertAll(UpsertAll(map[], Sent(cfg, cfg.src[..j])), Sent(cfg, [cfg.src[j]])) ==
            UpsertAll(map[], Sent(cfg, cfg.src[..j + 1]))
  {
    var copied := cfg.src[..j + 1];
    assert copied == cfg.src[..j] + [cfg.src[j]];
    assert forall i :: 0 <= i < |copied| ==> copied[i] in cfg.src;
    ConvertAllConcat(cfg, cfg.src[..j], [cfg.src[j]]);
    UpsertConcat(map[], Sent(cfg, cfg.src[..j]), Sent(cfg, [cfg.src[j]]));
  }

  lemma NextRowIsCopied(cfg: Config, s: State, j: nat)
    requires ValidConfig(cfg) && cfg.choice.KeptLast? && CanBind(cfg) && AllConvertible(cfg)
    requires j + 1 < |cfg.src| && CopiedOneByOne(cfg, s, j)
    ensures CopiedOneByOne(cfg, AfterChunk(cfg, s, Msg([cfg.src[j]], After(cfg.src[j].key))), j + 1)
  {
    PosOfCursorAt(cfg.src, j);
    ChunkOfOne(cfg.src, j);
    ChunkGoesThrough(cfg, INITIAL, s, CursorAt(cfg.src, j));
    CopyGrows(cfg, j);
  }

  lemma {:induction false} RowsCopiedOneByOne(cfg: Config, j: nat)
    requires ValidConfig(cfg) && cfg.choice.KeptLast? && CanBind(cfg) && AllConvertible(cfg) && j < |cfg.src|
    ensures exists s :: CopiedOneByOne(cfg, s, j)
  {
    if j == 0 {
      ReachesSelf(cfg, INITIAL);
      ReachesThenStep(cfg, INITIAL, INITIAL, Start(1, false), Begun(INITIAL, 1));
      assert CopiedOneByOne(cfg, Begun(INITIAL, 1), 0);
    } else {
      RowsCopiedOneByOne(cfg, j - 1);
      var s :| CopiedOneByOne(cfg, s, j - 1);
      NextRowIsCopied(cfg, s, j - 1);
    }
  }

  /** From any checkpoint a crash and one more process complete the table, reading on from its cursor; the
      count goes on from the checkpoint's. */
  lemma CrashThenComplete(cfg: Config, s: State)
    requires ValidConfig(cfg) && cfg.choice.KeptLast? && CanBind(cfg) && AllConvertible(cfg)
    requires Reachable(cfg, s) && s.proc.Up? && s.proc.w.batch >= 1 && s.ckpt.InProgress?
    ensures var p := Pos(cfg.src, s.ckpt.cursor);
            exists t :: Reachable(cfg, t) && t.table == UpsertAll(s.table, Sent(cfg, cfg.src[p..]))
              && t.ckpt == Completed(s.ckpt.rows + |cfg.src| - p)
              && (s.ckpt.cursor.After? ==> t.passes == s.passes)
  {
    var s2 := Begun(s.(proc := Down), 1);
    CrashAndRestart(cfg, s);
    FaultFreeRunCompletes(cfg, INITIAL, s2, s.ckpt.cursor);
    KeptLastStreamIsComplete(cfg.src, Pos(cfg.src, s.ckpt.cursor), 1);
    var t := Finished(cfg, s2, s.ckpt.cursor);
    assert t.table == UpsertAll(s.table, Sent(cfg, cfg.src[Pos(cfg.src, s.ckpt.cursor)..]));
  }

  lemma CrashAndRestart(cfg: Config, s: State)
    requires ValidConfig(cfg) && Reachable(cfg, s) && s.proc.Up? && s.proc.w.batch >= 1 && s.ckpt.InProgress?
    ensures Reachable(cfg, Begun(s.(proc := Down), 1))
  {
    var s1 := s.(proc := Down);
    ReachesThenStep(cfg, INITIAL, s, Crash, s1);
    ReachesThenStep(cfg, INITIAL, s1, Start(1, false), Begun(s1, 1));
  }

  /** A table whose rows can all be stored is completed by a first process without faults. */
  lemma SomeRunCompletes(cfg: Config)
    requires ValidConfig(cfg) && CanBind(cfg) && AllConvertible(cfg)
    ensures exists s :: Reachable(cfg, s) && s.ckpt.Completed?
  {
    var s1 := Begun(INITIAL, 1);
    ReachesSelf(cfg, INITIAL);
    ReachesThenStep(cfg, INITIAL, INITIAL, Start(1, false), s1);
    FaultFreeRunCompletes(cfg, INITIAL, s1, Top);
  }

  /** A codec that carries the cursor of row i to or past row i+1 loses that row: a crash right after
      that cursor's checkpoint and a second process suffice. */
  lemma SkipLosesARow(cfg: Config, i: nat)
    requires ValidConfig(cfg) && cfg.choice.KeptLast? && InjectiveKeys(cfg) && CanBind(cfg) && AllConvertible(cfg)
    requires i + 1 < |cfg.src| && !KeyLess(cfg.codec(cfg.src[i].key), cfg.src[i + 1].key)
    ensures exists s :: Reachable(cfg, s) && s.ckpt.Completed? && !Held(cfg, s.table, cfg.src[i + 1])
  {
    RowsCopiedOneByOne(cfg, i + 1);
    var s :| CopiedOneByOne(cfg, s, i + 1);
    CrashThenComplete(cfg, s);
    var c := cfg.codec(cfg.src[i].key);
    var p := CountUpTo(cfg.src, c);
    CountUpToSplits(cfg.src, c, i + 1);
    NeverWritten(cfg, i + 1, cfg.src[..i + 1], cfg.src[p..]);
  }

  /** Rows outside both written batches are not in the target. */
  lemma NeverWritten(cfg: Config, j: nat, first: seq<Row>, second: seq<Row>)
    requires InjectiveKeys(cfg) && j < |cfg.src| && AllConvertible(cfg)
    requires forall r :: r in first || r in second ==> exists i :: 0 <= i < |cfg.src| && i != j && cfg.src[i] == r
    ensures !Held(cfg, UpsertAll(UpsertAll(map[], Sent(cfg, first)), Sent(cfg, second)), cfg.src[j])
  {
    assert cfg.src[j] in cfg.src;
    var y := cfg.convert(cfg.src[j]).value;
    var t1 := UpsertAll(map[], Sent(cfg, first));
    if y.key in UpsertAll(t1, Sent(cfg, second)) {
      UpsertOnlyAdds(t1, Sent(cfg, second), y.key);
      if y.key in t1 { UpsertOnlyAdds(map[], Sent(cfg, first), y.key); }
      var z :| (z in Sent(cfg, first) || z in Sent(cfg, second)) && z.key == y.key;
      OtherRowsDiffer(cfg, j, if z in Sent(cfg, first) then first else second, z);
      assert false;
    }
  }

  lemma OtherRowsDiffer(cfg: Config, j: nat, rows: seq<Row>, z: YRow)
    requires InjectiveKeys(cfg) && j < |cfg.src| && cfg.convert(cfg.src[j]).Success? && z in Sent(cfg, rows)
    requires forall r :: r in rows ==> exists i :: 0 <= i < |cfg.src| && i != j && cfg.src[i] == r
    ensures z.key != cfg.convert(cfg.src[j]).value.key
  {
    var n :| 0 <= n < |Sent(cfg, rows)| && Sent(cfg, rows)[n] == z;
    assert rows[n] in rows;
    var i :| 0 <= i < |cfg.src| && i != j && cfg.src[i] == rows[n];
    assert cfg.convert(cfg.src[i]) == Success(z);
  }

  lemma SkipBreaksACopy(cfg: Config, i: nat)
    requires ValidConfig(cfg) && cfg.choice.KeptLast? && InjectiveKeys(cfg) && CanBind(cfg) && AllConvertible(cfg)
    requires i + 1 < |cfg.src| && !KeyLess(cfg.codec(cfg.src[i].key), cfg.src[i + 1].key)
    ensures exists s :: Reachable(cfg, s) && s.ckpt.Completed? && s.table != Converted(cfg)
  {
    SkipLosesARow(cfg, i);
    var s :| Reachable(cfg, s) && s.ckpt.Completed? && !Held(cfg, s.table, cfg.src[i + 1]);
    var src := cfg.src;
    assert forall j :: 0 <= j < |src| ==> src[j] in cfg.src;
    WriteIsSafe(cfg, map[], src);
    assert cfg.src[i + 1] in src;
  }

  lemma SkipBreaksSomeCopy(cfg: Config)
    requires ValidConfig(cfg) && cfg.choice.KeptLast? && InjectiveKeys(cfg) && CanBind(cfg) && AllConvertible(cfg)
    requires !NoSkip(cfg)
    ensures exists s :: Reachable(cfg, s) && s.ckpt.Completed? && s.table != Converted(cfg)
  {
    var i: int :| 0 <= i && i + 1 < |cfg.src| && !KeyLess(cfg.codec(cfg.src[i].key), cfg.src[i + 1].key);
    SkipBreaksACopy(cfg, i);
  }

  lemma NoSkipMakesCopies(cfg: Config)
    requires ValidConfig(cfg) && cfg.choice.KeptLast? && InjectiveKeys(cfg) && NoSkip(cfg)
    ensures forall s :: Reachable(cfg, s) && s.ckpt.Completed? ==> s.table == Converted(cfg)
  {
    forall s | Reachable(cfg, s) && s.ckpt.Completed? ensures s.table == Converted(cfg) {
      CompletedIsExact(cfg, s);
    }
  }

  /** A completed table is an exact copy in every run if and only if no saved cursor comes back at or
      above the next row's key. */
  lemma CompleteExactlyWhenNoSkip(cfg: Config)
    requires ValidConfig(cfg) && cfg.choice.KeptLast? && InjectiveKeys(cfg) && CanBind(cfg) && AllConvertible(cfg)
    ensures NoSkip(cfg) <==> (forall s :: Reachable(cfg, s) && s.ckpt.Completed? ==> s.table == Converted(cfg))
  {
    if NoSkip(cfg) {
      NoSkipMakesCopies(cfg);
    } else {
      SkipBreaksSomeCopy(cfg);
    }
  }
}
