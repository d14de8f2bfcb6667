/** Progress of the pipeline: where it can stop, and that it always does. */
module Progress {
  import opened Source
  import opened Pipeline
  import opened Resume
  import opened Completion

  ghost predicate Enabled(cfg: Config, s: State, a: Action) {
    exists s' :: Next(cfg, s, a, s')
  }

  /** The producer has failed without closing the channel and the consumer waits on it. */
  predicate Stuck(s: State) {
    s.proc.Up? && s.proc.w.prod.ReadFailed? && s.proc.w.cons.Receiving? && s.proc.w.ch == []
  }

  /** A failure on either side cancels the context that reads, writes and saves are made with. */
  predicate Cancelled(w: Worker) {
    w.prod.ReadFailed? || w.cons.Broken?
  }

  /** Steps that healthy databases take: calls succeed until the context is cancelled, and fail from then on. */
  predicate Healthy(w: Worker, a: Action) {
    match a
    case Read => !Cancelled(w)
    case Write => !Cancelled(w)
    case Save => !Cancelled(w)
    case ReadFail => Cancelled(w)
    case WriteFail(_) => Cancelled(w)
    case SaveFail(_) => Cancelled(w)
    case MarkFail(_) => false
    case Crash => false
    case _ => true
  }

  /** A step that healthy databases never refuse. */
  function HealthyStep(s: State): (a: Action)
    requires s.proc.Up?
  {
    var w := s.proc.w;
    if w.prod.Reading? then (if Cancelled(w) then ReadFail else Read)
    else if w.prod.Closing? then Close
    else if w.prod.Sending? && w.cons.Broken? then Cancel
    else if w.prod.Sending? && |w.ch| < CHANNEL_CAPACITY then Send
    else match w.cons
      case Writing(_) => if Cancelled(w) then WriteFail(s.table) else Write
      case Saving(_) => if Cancelled(w) then SaveFail(false) else Save
      case Receiving => if w.ch != [] then Recv else Drain
      case Broken(_) => Exit
      case Drained => Mark
  }

  lemma ProducerStepIsEnabled(cfg: Config, s: State)
    requires s.proc.Up? && s.proc.w.batch >= 1
    requires var a := HealthyStep(s); a.Read? || a.ReadFail? || a.Send? || a.Close? || a.Cancel?
    requires s.proc.w.prod.Reading? ==> Readable(cfg, s.proc.w.prod.cursor)
    ensures Enabled(cfg, s, HealthyStep(s))
  {
    var w := s.proc.w;
    var a := HealthyStep(s);
    match a
    case Read =>
      var m := Chunk(cfg.src, cfg.choice, Pos(cfg.src, w.prod.cursor), w.batch);
      assert Next(cfg, s, a, s.(proc := Up(w.(prod := if m.rows == [] then Closing else Sending(m)))));
    case ReadFail => assert Next(cfg, s, a, s.(proc := Up(w.(prod := ReadFailed(StreamAfter(cfg, w.batch, w.prod.cursor))))));
    case Send =>
      var prod := if w.prod.msg.next.Top? then Closing else Reading(w.prod.msg.next);
      assert Next(cfg, s, a, s.(proc := Up(w.(ch := w.ch + [w.prod.msg], prod := prod))));
    case Close => assert Next(cfg, s, a, s.(proc := Up(w.(prod := Closed))));
    case Cancel => assert Next(cfg, s, a, s.(proc := Up(w.(prod := ReadFailed(ToSend(cfg, w))))));
    case _ =>
  }

  lemma ConsumerStepIsEnabled(cfg: Config, s: State)
    requires s.proc.Up? && Flow(cfg, s.proc.w, s.table) && !Stuck(s)
    requires var a := HealthyStep(s); !(a.Read? || a.ReadFail? || a.Send? || a.Close? || a.Cancel?)
    requires s.proc.w.cons.Writing? ==> ConvertAll(cfg, s.proc.w.cons.msg.rows).Success?
    ensures Enabled(cfg, s, HealthyStep(s))
  {
    var w := s.proc.w;
    var a := HealthyStep(s);
    match a
    case Recv => assert Next(cfg, s, a, s.(proc := Up(w.(cons := Writing(w.ch[0]), ch := w.ch[1..]))));
    case Write => assert Next(cfg, s, a, Stored(cfg, s, w.cons.msg));
    case WriteFail(_) => assert Next(cfg, s, a, s.(proc := Up(w.(cons := Broken(w.cons.msg)))));
    case Save => assert Next(cfg, s, a, Saved(cfg, s, w.cons.msg));
    case SaveFail(_) => assert Next(cfg, s, a, s.(proc := Up(w.(cons := Broken(w.cons.msg)))));
    case Drain => assert Next(cfg, s, a, s.(proc := Up(w.(cons := Drained))));
    case Mark => assert Next(cfg, s, a, Recorded(s, Completed(w.total)).(proc := Down));
    case Exit => assert Next(cfg, s, a, s.(proc := Down));
    case _ =>
  }

  lemma HealthyStepIsEnabled(cfg: Config, s: State)
    requires s.proc.Up? && Flow(cfg, s.proc.w, s.table) && !Stuck(s)
    requires s.proc.w.prod.Reading? ==> Readable(cfg, s.proc.w.prod.cursor)
    requires s.proc.w.cons.Writing? ==> ConvertAll(cfg, s.proc.w.cons.msg.rows).Success?
    ensures Enabled(cfg, s, HealthyStep(s)) && Healthy(s.proc.w, HealthyStep(s))
  {
    var a := HealthyStep(s);
    if a.Read? || a.ReadFail? || a.Send? || a.Close? || a.Cancel? {
      ProducerStepIsEnabled(cfg, s);
    } else {
      ConsumerStepIsEnabled(cfg, s);
    }
  }

  /** With bindable cursors and convertible rows, every reachable process that is not stuck can take a step that
      healthy databases take. */
  lemma HealthyProgress(cfg: Config, s: State)
    requires ValidConfig(cfg) && CanBind(cfg) && AllConvertible(cfg)
    requires Reachable(cfg, s) && s.proc.Up? && !Stuck(s)
    ensures exists a :: Healthy(s.proc.w, a) && Enabled(cfg, s, a)
  {
    ReachableFlow(cfg, s);
    var w := s.proc.w;
    if w.cons.Writing? {
      var rows := w.cons.msg.rows;
      forall i | 0 <= i < |rows| ensures cfg.convert(rows[i]).Success? { InHandIsSource(cfg, w, rows[i]); }
    }
    HealthyStepIsEnabled(cfg, s);
  }

  /** A process can do nothing but be killed if and only if it is stuck. */
  lemma OnlyTheStuckStateBlocks(cfg: Config, s: State)
    requires ValidConfig(cfg) && Reachable(cfg, s) && s.proc.Up?
    ensures Stuck(s) <==> forall a :: Enabled(cfg, s, a) ==> a.Crash?
  {
    ReachableFlow(cfg, s);
    var w := s.proc.w;
    if !Stuck(s) {
      if w.prod.Reading? {
        assert Next(cfg, s, ReadFail, s.(proc := Up(w.(prod := ReadFailed(StreamAfter(cfg, w.batch, w.prod.cursor))))));
        assert Enabled(cfg, s, ReadFail);
      } else if w.cons.Writing? {
        assert Next(cfg, s, WriteFail(s.table), s.(proc := Up(w.(cons := Broken(w.cons.msg)))));
        assert Enabled(cfg, s, WriteFail(s.table));
      } else {
        HealthyStepIsEnabled(cfg, s);
      }
    }
  }

  /** How the cancelled context ends a producer that is reading, sending or closing. */
  function Release(p: Producer): Action {
    if p.Reading? then ReadFail else if p.Sending? then Cancel else Close
  }

  /** After a consumer failure the producer is released, whatever it was doing: the process exits at
      once or after that one step of the producer. */
  lemma BrokenConsumerExits(cfg: Config, s: State)
    requires ValidConfig(cfg) && Reachable(cfg, s) && s.proc.Up? && s.proc.w.cons.Broken?
    ensures
      || Next(cfg, s, Exit, s.(proc := Down))
      || exists s' :: Next(cfg, s, Release(s.proc.w.prod), s') && Next(cfg, s', Exit, s.(proc := Down))
  {
    ReachableFlow(cfg, s);
    var w := s.proc.w;
    if w.prod.Reading? || w.prod.Sending? || w.prod.Closing? {
      var released := s.(proc := Up(w.(prod := if w.prod.Closing? then Closed else ReadFailed(ToSend(cfg, w)))));
      assert Next(cfg, s, Release(w.prod), released);
    }
  }

  /** An upper bound on the steps a process still takes. */
  function WorkLeft(cfg: Config, s: State): nat {
    if s.proc.Down? || s.proc.w.batch == 0 then 0
    else
      var w := s.proc.w;
      var prod := match w.prod
        case Reading(_) => 5 * |ToSend(cfg, w)| + 3
        case Sending(_) => 5 * |ToSend(cfg, w)| + 2
        case Closing => 2
        case _ => 0;
      var cons := match w.cons
        case Writing(_) => 3
        case Saving(_) => 2
        case Receiving => 1
        case _ => 0;
      1 + prod + 3 * |w.ch| + cons
  }

  lemma StepReducesWork(cfg: Config, s: State, a: Action, s': State)
    requires ValidConfig(cfg) && Next(cfg, s, a, s') && s.proc.Up?
    ensures WorkLeft(cfg, s') < WorkLeft(cfg, s)
  {
    if a.Read? { StreamUnfolds(cfg, s.proc.w.batch, s.proc.w.prod.cursor); }
  }

  lemma {:induction false} StreamLength(src: seq<Row>, choice: CursorChoice, p: nat, batch: nat)
    requires batch >= 1 && p <= |src|
    ensures |Stream(src, choice, p, batch)| <= |src| - p
    decreases |src| - p
  {
    if p < |src| && Chunk(src, choice, p, batch).next.After? {
      StreamLength(src, choice, NextPos(choice, p, batch), batch);
    }
  }

  lemma {:induction false} RunReducesWork(cfg: Config, tr: seq<State>, acts: seq<Action>, i: nat)
    requires ValidConfig(cfg) && Run(cfg, tr, acts) && 1 <= i <= |acts|
    requires acts[0].Start? && forall j :: 1 <= j < |acts| ==> !acts[j].Start?
    ensures WorkLeft(cfg, tr[i]) + i <= 5 * |cfg.src| + 6
  {
    if i == 1 {
      StreamLength(cfg.src, cfg.choice, Pos(cfg.src, StartCursor(tr[0].ckpt)), acts[0].batch);
    } else {
      RunReducesWork(cfg, tr, acts, i - 1);
      StepReducesWork(cfg, tr[i - 1], acts[i - 1], tr[i]);
    }
  }

  /** Termination: no process takes more than 5N + 6 steps, faults and blocking included, so every
      process ends, is killed, or is stuck. */
  lemma ProcessTerminates(cfg: Config, tr: seq<State>, acts: seq<Action>)
    requires ValidConfig(cfg) && Run(cfg, tr, acts) && acts != []
    requires acts[0].Start? && forall j :: 1 <= j < |acts| ==> !acts[j].Start?
    ensures |acts| <= 5 * |cfg.src| + 6
  {
    RunReducesWork(cfg, tr, acts, |acts|);
  }

  /** The stuck state does occur: a failing first read is enough. */
  lemma StuckIsReachable(cfg: Config)
    requires ValidConfig(cfg)
    ensures exists s :: Reachable(cfg, s) && Stuck(s)
  {
    ReachesSelf(cfg, INITIAL);
    var s1 := Begun(INITIAL, 1);
    ReachesThenStep(cfg, INITIAL, INITIAL, Start(1, false), s1);
    var s2 := s1.(proc := Up(s1.proc.w.(prod := ReadFailed(StreamAfter(cfg, 1, Top)))));
    ReachesThenStep(cfg, INITIAL, s1, ReadFail, s2);
    assert Reachable(cfg, s2) && Stuck(s2);
  }
}
