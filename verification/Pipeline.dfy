/** The transfer of one table: a producer pages through MySQL, a channel of capacity two carries the
    chunks, a consumer upserts each chunk and then checkpoints it.  The process may die between any two
    steps and starts again from the checkpoint, possibly with another batch size. */
module Pipeline {
  import opened KeyOrder
  import opened Values
  import opened Source
  import opened Upsert

  const CHANNEL_CAPACITY := 2

  /** `Intended` gives each `?` of the cursor condition the value of the column on its left;
      `Positional` passes the k cursor values as they are, which fits only when there is one `?`. */
  datatype Binding = Intended | Positional

  /** The fixed surroundings of a run.  Every process picks its batch size in 1..maxBatch.  `codec` is what a
      cursor becomes when it is saved and loaded again; `convert` turns a MySQL row into the YDB row that is stored, or
      refuses it, for a value that cannot be converted or that YDB does not take. */
  datatype Config = Config(
    src: seq<Row>,
    choice: CursorChoice,
    binding: Binding,
    pkWidth: nat,
    maxBatch: nat,
    codec: Key -> Key,
    convert: Row -> Result<YRow>)

  /** `ReadFailed` remembers what the producer would still have sent. */
  datatype Producer =
    | Reading(cursor: Cursor)
    | Sending(msg: Msg)
    | Closing
    | Closed
    | ReadFailed(unsent: seq<Msg>)

  /** `Broken` is the consumer that returned an error, with the chunk it was working on. */
  datatype Consumer =
    | Receiving
    | Writing(msg: Msg)
    | Saving(msg: Msg)
    | Drained
    | Broken(msg: Msg)

  /** One process's work on the table.  `start`, `startTotal`, `startTable`, `pass` and `done` are
      history: where the process began, in which pass over the table, and which chunks it has checkpointed. */
  datatype Worker = Worker(
    batch: nat,
    start: Cursor,
    startTotal: nat,
    startTable: Table,
    pass: nat,
    prod: Producer,
    ch: seq<Msg>,
    cons: Consumer,
    total: nat,
    done: seq<Msg>)

  datatype Proc = Down | Up(w: Worker)

  /** The state-table row: absent, in progress (completed_at is the epoch) or completed. */
  datatype Checkpoint = NoRow | InProgress(cursor: Cursor, rows: nat) | Completed(rows: nat)

  /** `passes` says in which pass over the table the current checkpoint was saved: a process that starts
      from the final `[]` checkpoint begins another pass with the old total. */
  datatype State = State(proc: Proc, table: Table, ckpt: Checkpoint, passes: nat)

  datatype Action =
    | Start(batch: nat, force: bool)
    | Read | ReadFail | Send | Cancel | Close
    | Recv | Write | WriteFail(left: Table) | Save | SaveFail(applied: bool) | Drain
    | Mark | MarkFail(applied: bool)
    | Exit | Crash

  ghost predicate ValidConfig(cfg: Config) {
    Sorted(cfg.src) && cfg.pkWidth >= 1 && cfg.maxBatch >= 1
  }

  /** With positional binding a composite condition wants more values than the cursor has. */
  predicate Readable(cfg: Config, c: Cursor) {
    c.Top? || cfg.binding.Intended? || cfg.pkWidth == 1
  }

  function SavedCursor(cfg: Config, c: Cursor): Cursor {
    if c.Top? then Top else After(cfg.codec(c.key))
  }

  function ConvertAll(cfg: Config, rows: seq<Row>): (r: Result<seq<YRow>>)
    ensures r.Success? ==> |r.value| == |rows|
    ensures r.Success? ==> forall i :: 0 <= i < |rows| ==> cfg.convert(rows[i]) == Success(r.value[i])
    ensures (forall i :: 0 <= i < |rows| ==> cfg.convert(rows[i]).Success?) ==> r.Success?
  {
    if rows == [] then Success([])
    else
      var first :- cfg.convert(rows[0]);
      var rest :- ConvertAll(cfg, rows[1..]);
      Success([first] + rest)
  }

  /** What a write of these rows sends to YDB; a row that cannot be converted stops it beforehand. */
  function Sent(cfg: Config, rows: seq<Row>): seq<YRow> {
    var r := ConvertAll(cfg, rows);
    if r.Success? then r.value else []
  }

  function StartCursor(k: Checkpoint): Cursor {
    if k.InProgress? then k.cursor else Top
  }

  function StartTotal(k: Checkpoint): nat {
    if k.InProgress? then k.rows else 0
  }

  function StartPass(s: State): nat {
    if !s.ckpt.InProgress? then 0 else if s.ckpt.cursor.Top? then s.passes + 1 else s.passes
  }

  /** The state table row is overwritten. */
  function Recorded(s: State, k: Checkpoint): State
    requires s.proc.Up?
  {
    s.(ckpt := k, passes := s.proc.w.pass)
  }

  ghost predicate NextWorker(cfg: Config, s: State, a: Action, s': State)
    requires s.proc.Up? && s.proc.w.batch >= 1
  {
    var w := s.proc.w;
    match a
    case Read =>
      && w.prod.Reading? && Readable(cfg, w.prod.cursor)
      && var m := Chunk(cfg.src, cfg.choice, Pos(cfg.src, w.prod.cursor), w.batch);
         s' == s.(proc := Up(w.(prod := if m.rows == [] then Closing else Sending(m))))
    case ReadFail =>
      && w.prod.Reading?
      && s' == s.(proc := Up(w.(prod := ReadFailed(StreamAfter(cfg, w.batch, w.prod.cursor)))))
    case Send =>
      && w.prod.Sending? && |w.ch| < CHANNEL_CAPACITY
      && s' == s.(proc := Up(w.(ch := w.ch + [w.prod.msg],
                                prod := if w.prod.msg.next.Top? then Closing else Reading(w.prod.msg.next))))
    case Cancel =>
      && w.prod.Sending? && w.cons.Broken?
      && s' == s.(proc := Up(w.(prod := ReadFailed(ToSend(cfg, w)))))
    case Close =>
      && w.prod.Closing?
      && s' == s.(proc := Up(w.(prod := Closed)))
    case Recv =>
      && w.cons.Receiving? && w.ch != []
      && s' == s.(proc := Up(w.(cons := Writing(w.ch[0]), ch := w.ch[1..])))
    case Write =>
      && w.cons.Writing? && ConvertAll(cfg, w.cons.msg.rows).Success?
      && s' == s.(proc := Up(w.(cons := Saving(w.cons.msg), total := w.total + |w.cons.msg.rows|)),
                  table := UpsertAll(s.table, Sent(cfg, w.cons.msg.rows)))
    case WriteFail(left) =>
      && w.cons.Writing? && Partial(s.table, Sent(cfg, w.cons.msg.rows), left)
      && s' == s.(proc := Up(w.(cons := Broken(w.cons.msg))), table := left)
    case Save =>
      && w.cons.Saving?
      && s' == Recorded(s, InProgress(SavedCursor(cfg, w.cons.msg.next), w.total))
               .(proc := Up(w.(cons := Receiving, done := w.done + [w.cons.msg])))
    case SaveFail(applied) =>
      && w.cons.Saving?
      && s' == (if applied then Recorded(s, InProgress(SavedCursor(cfg, w.cons.msg.next), w.total)) else s)
               .(proc := Up(w.(cons := Broken(w.cons.msg))))
    case Drain =>
      && w.cons.Receiving? && w.ch == [] && w.prod.Closed?
      && s' == s.(proc := Up(w.(cons := Drained)))
    case Mark =>
      && w.cons.Drained? && w.prod.Closed?
      && s' == Recorded(s, Completed(w.total)).(proc := Down)
    case MarkFail(applied) =>
      && w.cons.Drained? && w.prod.Closed?
      && s' == (if applied then Recorded(s, Completed(w.total)) else s).(proc := Down)
    case Exit =>
      && (w.prod.Closed? || w.prod.ReadFailed?) && (w.cons.Drained? || w.cons.Broken?)
      && (w.prod.ReadFailed? || w.cons.Broken?)
      && s' == s.(proc := Down)
    case Crash =>
      s' == s.(proc := Down)
    case Start(_, _) => false
  }

  /** One step.  A completed table is taken up again only under -force. */
  ghost predicate Next(cfg: Config, s: State, a: Action, s': State) {
    match s.proc
    case Down =>
      && a.Start? && 1 <= a.batch <= cfg.maxBatch && (s.ckpt.Completed? ==> a.force)
      && var c, n := StartCursor(s.ckpt), StartTotal(s.ckpt);
         s' == s.(proc := Up(Worker(a.batch, c, n, s.table, StartPass(s), Reading(c), [], Receiving, n, [])))
    case Up(w) =>
      w.batch >= 1 && NextWorker(cfg, s, a, s')
  }

  /** Before the first run the target holds nothing and the state table has no row. */
  const INITIAL := State(Down, map[], NoRow, 0)

  /** A run: `tr` lists the states, `acts` the steps between them. */
  ghost predicate Run(cfg: Config, tr: seq<State>, acts: seq<Action>) {
    && |tr| == |acts| + 1
    && forall i {:trigger acts[i]} :: 0 <= i < |acts| ==> Next(cfg, tr[i], acts[i], tr[i + 1])
  }

  ghost predicate Reaches(cfg: Config, s: State, t: State) {
    exists tr, acts :: Run(cfg, tr, acts) && tr[0] == s && tr[|acts|] == t
  }

  ghost predicate Reachable(cfg: Config, s: State) {
    Reaches(cfg, INITIAL, s)
  }

  /** What reading on from a cursor will send. */
  function StreamAfter(cfg: Config, batch: nat, c: Cursor): seq<Msg>
    requires batch >= 1
  {
    Stream(cfg.src, cfg.choice, Pos(cfg.src, c), batch)
  }

  /** The messages the producer still has to put on the channel. */
  function ToSend(cfg: Config, w: Worker): seq<Msg>
    requires w.batch >= 1
  {
    match w.prod
    case Reading(c) => StreamAfter(cfg, w.batch, c)
    case Sending(m) => [m] + if m.next.Top? then [] else StreamAfter(cfg, w.batch, m.next)
    case ReadFailed(unsent) => unsent
    case _ => []
  }

  function InHand(c: Consumer): seq<Msg> {
    if c.Writing? || c.Saving? || c.Broken? then [c.msg] else []
  }

  /** Checkpointed, in the consumer's hands, in the channel, still to send. */
  function AllMsgs(cfg: Config, w: Worker): seq<Msg>
    requires w.batch >= 1
  {
    w.done + InHand(w.cons) + w.ch + ToSend(cfg, w)
  }

  /** Rows this process has handed to YDB successfully, in order. */
  function Written(w: Worker): seq<Row> {
    Flatten(w.done) + if w.cons.Saving? then w.cons.msg.rows else []
  }

  /** What holds of every process at every moment, for either cursor choice, any codec and any binding. */
  ghost predicate Flow(cfg: Config, w: Worker, table: Table) {
    && 1 <= w.batch <= cfg.maxBatch
    && |w.ch| <= CHANNEL_CAPACITY
    && AllMsgs(cfg, w) == StreamAfter(cfg, w.batch, w.start)
    && (w.cons.Drained? ==> w.ch == [] && w.prod.Closed?)
    && (!w.cons.Broken? ==>
        && w.total == w.startTotal + |Written(w)|
        && ConvertAll(cfg, Written(w)).Success?
        && table == UpsertAll(w.startTable, Sent(cfg, Written(w))))
  }

  ghost predicate FlowInv(cfg: Config, s: State) {
    s.proc.Up? ==> Flow(cfg, s.proc.w, s.table)
  }

  lemma {:induction false} ConvertAllConcat(cfg: Config, a: seq<Row>, b: seq<Row>)
    ensures ConvertAll(cfg, a + b).Success? <==> ConvertAll(cfg, a).Success? && ConvertAll(cfg, b).Success?
    ensures ConvertAll(cfg, a + b).Success? ==> Sent(cfg, a + b) == Sent(cfg, a) + Sent(cfg, b)
  {
    if a == [] {
      assert a + b == b;
    } else {
      assert (a + b)[1..] == a[1..] + b;
      ConvertAllConcat(cfg, a[1..], b);
    }
  }

  /** A non-empty stream begins with the chunk at its position and goes on behind that chunk's cursor. */
  lemma StreamUnfolds(cfg: Config, batch: nat, c: Cursor)
    requires ValidConfig(cfg) && batch >= 1
    ensures var m := Chunk(cfg.src, cfg.choice, Pos(cfg.src, c), batch);
            StreamAfter(cfg, batch, c) == if m.rows == [] then [] else
              [m] + if m.next.Top? then [] else StreamAfter(cfg, batch, m.next)
  {
    var p := Pos(cfg.src, c);
    if Chunk(cfg.src, cfg.choice, p, batch).next.After? { NextCursorPos(cfg.src, cfg.choice, p, batch); }
  }

  lemma SendConserves(cfg: Config, w: Worker)
    requires w.batch >= 1 && w.prod.Sending?
    ensures var m := w.prod.msg;
            var w' := w.(ch := w.ch + [m], prod := if m.next.Top? then Closing else Reading(m.next));
            AllMsgs(cfg, w') == AllMsgs(cfg, w)
  {
    var m := w.prod.msg;
    var rest := if m.next.Top? then [] else StreamAfter(cfg, w.batch, m.next);
    ConcatAssociates(w.done + InHand(w.cons), w.ch, [m]);
    ConcatAssociates(w.done + InHand(w.cons) + w.ch, [m], rest);
  }

  lemma RecvConserves(cfg: Config, w: Worker)
    requires w.batch >= 1 && w.cons.Receiving? && w.ch != []
    ensures AllMsgs(cfg, w.(cons := Writing(w.ch[0]), ch := w.ch[1..])) == AllMsgs(cfg, w)
  {
    assert w.ch == [w.ch[0]] + w.ch[1..];
    ConcatAssociates(w.done, [w.ch[0]], w.ch[1..]);
    assert w.done + [] == w.done;
  }

  /** Conservation: a step of the process moves messages along but never adds, drops or reorders one. */
  lemma StepConserves(cfg: Config, s: State, a: Action, s': State)
    requires ValidConfig(cfg) && Next(cfg, s, a, s') && s.proc.Up? && s'.proc.Up?
    ensures AllMsgs(cfg, s'.proc.w) == AllMsgs(cfg, s.proc.w)
  {
    var w := s.proc.w;
    match a
    case Read => StreamUnfolds(cfg, w.batch, w.prod.cursor);
    case Send => SendConserves(cfg, w);
    case Recv => RecvConserves(cfg, w);
    case Save => assert w.done + [w.cons.msg] + [] == w.done + [w.cons.msg];
    case _ =>
  }

  lemma WriteKeepsFlow(cfg: Config, s: State, s': State)
    requires ValidConfig(cfg) && FlowInv(cfg, s) && Next(cfg, s, Write, s')
    ensures FlowInv(cfg, s')
  {
    StepConserves(cfg, s, Write, s');
    var w := s.proc.w;
    var more := w.cons.msg.rows;
    ConvertAllConcat(cfg, Flatten(w.done), more);
    UpsertConcat(w.startTable, Sent(cfg, Flatten(w.done)), Sent(cfg, more));
    assert Written(w) == Flatten(w.done);
    assert Written(s'.proc.w) == Flatten(w.done) + more;
  }

  lemma FlattenAppend(ms: seq<Msg>, m: Msg)
    ensures Flatten(ms + [m]) == Flatten(ms) + m.rows
  {
    FlattenConcat(ms, [m]);
    FlattenCons(m, []);
  }

  lemma StepKeepsFlow(cfg: Config, s: State, a: Action, s': State)
    requires ValidConfig(cfg) && FlowInv(cfg, s) && Next(cfg, s, a, s')
    ensures FlowInv(cfg, s')
  {
    if s'.proc.Up? {
      if s.proc.Up? {
        StepConserves(cfg, s, a, s');
        if a.Write? {
          WriteKeepsFlow(cfg, s, s');
        } else if a.Save? {
          FlattenAppend(s.proc.w.done, s.proc.w.cons.msg);
          assert Written(s'.proc.w) == Written(s.proc.w);
        }
      }
    }
  }

  /** Every reachable state satisfies the flow invariant. */
  lemma {:induction false} RunKeepsFlow(cfg: Config, tr: seq<State>, acts: seq<Action>, i: nat)
    requires ValidConfig(cfg) && Run(cfg, tr, acts) && FlowInv(cfg, tr[0]) && i <= |acts|
    ensures FlowInv(cfg, tr[i])
  {
    if i == 0 {
    } else {
      RunKeepsFlow(cfg, tr, acts, i - 1);
      StepKeepsFlow(cfg, tr[i - 1], acts[i - 1], tr[i]);
    }
  }

  lemma ReachableFlow(cfg: Config, s: State)
    requires ValidConfig(cfg) && Reachable(cfg, s)
    ensures FlowInv(cfg, s)
  {
    var tr, acts :| Run(cfg, tr, acts) && tr[0] == INITIAL && tr[|acts|] == s;
    RunKeepsFlow(cfg, tr, acts, |acts|);
  }

  /** With the kept-last cursor, a process about to checkpoint has written an unbroken stretch of the
      table that ends at the cursor it is going to save. */
  lemma SavingWrote(cfg: Config, w: Worker, table: Table) returns (q: nat)
    requires cfg.choice.KeptLast? && Flow(cfg, w, table) && w.cons.Saving?
    ensures Pos(cfg.src, w.start) < q <= |cfg.src|
    ensures Written(w) == cfg.src[Pos(cfg.src, w.start)..q]
    ensures w.cons.msg.next == if q == |cfg.src| then Top else After(cfg.src[q - 1].key)
  {
    var ms := AllMsgs(cfg, w);
    var n := |w.done| + 1;
    assert ms[..n] == w.done + [w.cons.msg] && ms[n - 1] == w.cons.msg;
    q := KeptLastPrefix(cfg.src, Pos(cfg.src, w.start), w.batch, n);
    FlattenAppend(w.done, w.cons.msg);
  }

  /** Once the closed channel is drained, everything the stream holds has been written. */
  lemma DrainedWrote(cfg: Config, w: Worker, table: Table)
    requires Flow(cfg, w, table) && w.cons.Drained?
    ensures Written(w) == Flatten(StreamAfter(cfg, w.batch, w.start))
  {
    assert AllMsgs(cfg, w) == w.done;
    assert Written(w) == Flatten(w.done) + [] == Flatten(w.done);
  }

  /** Rows a chunk keeps alive: a chunk that was cut to the batch size still holds the extra fetched row. */
  function RowsOfChunk(m: Msg): nat {
    |m.rows| + if m.next.After? then 1 else 0
  }

  function RowsOfChunks(ms: seq<Msg>): nat {
    if ms == [] then 0 else RowsOfChunk(ms[0]) + RowsOfChunks(ms[1..])
  }

  /** Rows of all chunks a process holds at once: the one being read or sent, the channel's, the consumer's. */
  function RowsInMemory(w: Worker): nat {
    RowsOfChunks(InHand(w.cons)) + RowsOfChunks(w.ch) +
    match w.prod
    case Reading(_) => w.batch + 1
    case Sending(m) => RowsOfChunk(m)
    case _ => 0
  }

  lemma {:induction false} ChunksAreBounded(ms: seq<Msg>, batch: nat)
    requires forall m :: m in ms ==> |m.rows| <= batch
    ensures RowsOfChunks(ms) <= |ms| * (batch + 1)
  {
    if ms == [] {
    } else {
      ChunksAreBounded(ms[1..], batch);
      assert |ms| * (batch + 1) == |ms[1..]| * (batch + 1) + (batch + 1);
    }
  }

  lemma MessagesAreBounded(cfg: Config, w: Worker, m: Msg)
    requires w.batch >= 1 && AllMsgs(cfg, w) == StreamAfter(cfg, w.batch, w.start)
    requires m in InHand(w.cons) || m in w.ch || m in ToSend(cfg, w)
    ensures |m.rows| <= w.batch
  {
    assert m in AllMsgs(cfg, w);
    var i :| 0 <= i < |AllMsgs(cfg, w)| && AllMsgs(cfg, w)[i] == m;
    StreamBounds(cfg.src, cfg.choice, Pos(cfg.src, w.start), w.batch, i);
  }

  lemma FlowBoundsMemory(cfg: Config, w: Worker)
    requires w.batch >= 1 && AllMsgs(cfg, w) == StreamAfter(cfg, w.batch, w.start) && |w.ch| <= CHANNEL_CAPACITY
    ensures RowsInMemory(w) <= 4 * (w.batch + 1)
  {
    assert RowsOfChunks(InHand(w.cons)) <= w.batch + 1 by {
      forall m | m in InHand(w.cons) ensures |m.rows| <= w.batch { MessagesAreBounded(cfg, w, m); }
      ChunksAreBounded(InHand(w.cons), w.batch);
    }
    assert RowsOfChunks(w.ch) <= 2 * (w.batch + 1) by {
      forall m | m in w.ch ensures |m.rows| <= w.batch { MessagesAreBounded(cfg, w, m); }
      ChunksAreBounded(w.ch, w.batch);
    }
    if w.prod.Sending? {
      assert ToSend(cfg, w)[0] == w.prod.msg;
      MessagesAreBounded(cfg, w, w.prod.msg);
    }
  }

  /** Flat memory: in every reachable state at most four chunks are held, each of at most one row more than the
      batch, and never more than the configured cap allows. */
  lemma MemoryIsBounded(cfg: Config, s: State)
    requires ValidConfig(cfg) && Reachable(cfg, s) && s.proc.Up?
    ensures RowsInMemory(s.proc.w) <= 4 * (s.proc.w.batch + 1) <= 4 * (cfg.maxBatch + 1)
  {
    ReachableFlow(cfg, s);
    FlowBoundsMemory(cfg, s.proc.w);
  }
}
