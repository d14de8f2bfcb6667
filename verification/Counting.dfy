/** The row count kept in the state table, across crashes and restarts. */
module Counting {
  import opened Arithmetic
  import opened KeyOrder
  import opened Source
  import opened Upsert
  import opened Pipeline
  import opened Completion

  /** A saved cursor comes back at its own row: not below its key, not at the next one. */
  ghost predicate ExactResume(cfg: Config) {
    forall i :: 0 <= i && i + 1 < |cfg.src| ==>
      && !KeyLess(cfg.codec(cfg.src[i].key), cfg.src[i].key)
      && KeyLess(cfg.codec(cfg.src[i].key), cfg.src[i + 1].key)
  }

  /** Where a checkpoint's cursor stands; the final `[]` stands at the end of the table. */
  function Position(cfg: Config, c: Cursor): nat {
    if c.Top? then |cfg.src| else Pos(cfg.src, c)
  }

  ghost predicate Counted(cfg: Config, s: State) {
    && FlowInv(cfg, s)
    && (s.ckpt.InProgress? ==> s.ckpt.rows == Position(cfg, s.ckpt.cursor) + s.passes * |cfg.src|)
    && (s.ckpt.Completed? ==> s.ckpt.rows == |cfg.src| + s.passes * |cfg.src|)
    && (s.proc.Up? ==> s.proc.w.startTotal == Pos(cfg.src, s.proc.w.start) + s.proc.w.pass * |cfg.src|)
  }

  lemma ExactPosition(cfg: Config, q: nat)
    requires ValidConfig(cfg) && ExactResume(cfg) && 0 < q <= |cfg.src|
    ensures Position(cfg, SavedCursor(cfg, if q == |cfg.src| then Top else After(cfg.src[q - 1].key))) == q
  {
    if q < |cfg.src| {
      var k := cfg.codec(cfg.src[q - 1].key);
      CountUpToSplits(cfg.src, k, q - 1);
      CountUpToSplits(cfg.src, k, q);
    }
  }

  lemma SavingCounts(cfg: Config, w: Worker, table: Table) returns (q: nat)
    requires cfg.choice.KeptLast? && Flow(cfg, w, table) && w.cons.Saving?
    ensures 0 < q <= |cfg.src| && w.total == w.startTotal + (q - Pos(cfg.src, w.start))
    ensures w.cons.msg.next == if q == |cfg.src| then Top else After(cfg.src[q - 1].key)
  {
    q := SavingWrote(cfg, w, table);
  }

  lemma SaveIsCounted(cfg: Config, w: Worker, table: Table)
    requires ValidConfig(cfg) && cfg.choice.KeptLast? && ExactResume(cfg)
    requires Flow(cfg, w, table) && w.cons.Saving?
    requires w.startTotal == Pos(cfg.src, w.start) + w.pass * |cfg.src|
    ensures w.total == Position(cfg, SavedCursor(cfg, w.cons.msg.next)) + w.pass * |cfg.src|
  {
    var q := SavingCounts(cfg, w, table);
    ExactPosition(cfg, q);
  }

  lemma DrainedIsCounted(cfg: Config, w: Worker, table: Table)
    requires ValidConfig(cfg) && cfg.choice.KeptLast?
    requires Flow(cfg, w, table) && w.cons.Drained?
    requires w.startTotal == Pos(cfg.src, w.start) + w.pass * |cfg.src|
    ensures w.total == |cfg.src| + w.pass * |cfg.src|
  {
    DrainedWrote(cfg, w, table);
    KeptLastStreamIsComplete(cfg.src, Pos(cfg.src, w.start), w.batch);
  }

  lemma StepKeepsCounted(cfg: Config, s: State, a: Action, s': State)
    requires ValidConfig(cfg) && cfg.choice.KeptLast? && ExactResume(cfg)
    requires Counted(cfg, s) && Next(cfg, s, a, s')
    ensures Counted(cfg, s')
  {
    StepKeepsFlow(cfg, s, a, s');
    match a
    case Start(_, _) => assert (s.passes + 1) * |cfg.src| == s.passes * |cfg.src| + |cfg.src|;
    case Save => SaveIsCounted(cfg, s.proc.w, s.table);
    case SaveFail(_) => SaveIsCounted(cfg, s.proc.w, s.table);
    case Mark => DrainedIsCounted(cfg, s.proc.w, s.table);
    case MarkFail(_) => DrainedIsCounted(cfg, s.proc.w, s.table);
    case _ =>
  }

  lemma {:induction false} RunKeepsCounted(cfg: Config, tr: seq<State>, acts: seq<Action>, i: nat)
    requires ValidConfig(cfg) && cfg.choice.KeptLast? && ExactResume(cfg)
    requires Run(cfg, tr, acts) && Counted(cfg, tr[0]) && i <= |acts|
    ensures Counted(cfg, tr[i])
  {
    if i == 0 {
    } else {
      RunKeepsCounted(cfg, tr, acts, i - 1);
      StepKeepsCounted(cfg, tr[i - 1], acts[i - 1], tr[i]);
    }
  }

  /** Row-count conservation over all runs: a checkpoint's count is its position plus one table length
      for every pass begun from a final checkpoint; so the completed count is N exactly in pass 0. */
  lemma CountIsPositionPlusPasses(cfg: Config, s: State)
    requires ValidConfig(cfg) && cfg.choice.KeptLast? && ExactResume(cfg) && Reachable(cfg, s)
    ensures s.ckpt.InProgress? ==> s.ckpt.rows == Position(cfg, s.ckpt.cursor) + s.passes * |cfg.src|
    ensures s.ckpt.Completed? && |cfg.src| > 0 ==> (s.ckpt.rows == |cfg.src| <==> s.passes == 0)
  {
    var tr, acts :| Run(cfg, tr, acts) && tr[0] == INITIAL && tr[|acts|] == s;
    RunKeepsCounted(cfg, tr, acts, |acts|);
    if s.passes > 0 { MulMonotone(1, s.passes, |cfg.src|); }
  }

  lemma ExactResumeCounts(cfg: Config)
    requires ValidConfig(cfg) && cfg.choice.KeptLast? && ExactResume(cfg)
    ensures forall s :: Reachable(cfg, s) && s.ckpt.Completed? && s.passes == 0 ==> s.ckpt.rows == |cfg.src|
  {
    forall s | Reachable(cfg, s) && s.ckpt.Completed? && s.passes == 0 ensures s.ckpt.rows == |cfg.src| {
      CompletedCount(cfg, s);
    }
  }

  lemma CompletedCount(cfg: Config, s: State)
    requires ValidConfig(cfg) && cfg.choice.KeptLast? && ExactResume(cfg)
    requires Reachable(cfg, s) && s.ckpt.Completed?
    ensures s.ckpt.rows == |cfg.src| + s.passes * |cfg.src|
  {
    var tr, acts :| Run(cfg, tr, acts) && tr[0] == INITIAL && tr[|acts|] == s;
    RunKeepsCounted(cfg, tr, acts, |acts|);
  }

  /** A cursor that comes back elsewhere than at its own row makes some run miscount: a crash right after its
      checkpoint and a second process suffice. */
  lemma OtherwiseARunMiscounts(cfg: Config, i: nat)
    requires ValidConfig(cfg) && cfg.choice.KeptLast? && CanBind(cfg) && AllConvertible(cfg)
    requires i + 1 < |cfg.src| && Pos(cfg.src, After(cfg.codec(cfg.src[i].key))) != i + 1
    ensures exists s :: Reachable(cfg, s) && s.ckpt.Completed? && s.passes == 0 && s.ckpt.rows != |cfg.src|
  {
    RowsCopiedOneByOne(cfg, i + 1);
    var s :| CopiedOneByOne(cfg, s, i + 1);
    CrashThenComplete(cfg, s);
  }

  lemma ResumesElsewhere(cfg: Config)
    requires ValidConfig(cfg) && !ExactResume(cfg)
    ensures exists i: nat :: i + 1 < |cfg.src| && Pos(cfg.src, After(cfg.codec(cfg.src[i].key))) != i + 1
  {
    var i: int :| 0 <= i && i + 1 < |cfg.src| &&
      !(!KeyLess(cfg.codec(cfg.src[i].key), cfg.src[i].key) && KeyLess(cfg.codec(cfg.src[i].key), cfg.src[i + 1].key));
    CountUpToSplits(cfg.src, cfg.codec(cfg.src[i].key), i);
    CountUpToSplits(cfg.src, cfg.codec(cfg.src[i].key), i + 1);
    assert Pos(cfg.src, After(cfg.codec(cfg.src[i].key))) != i + 1;
  }

  /** Every table completed without an extra pass records its number of rows if and only if every saved cursor
      comes back at its own row. */
  lemma CountsAreExactIffResumeIs(cfg: Config)
    requires ValidConfig(cfg) && cfg.choice.KeptLast? && CanBind(cfg) && AllConvertible(cfg)
    ensures ExactResume(cfg) <==>
              forall s :: Reachable(cfg, s) && s.ckpt.Completed? && s.passes == 0 ==> s.ckpt.rows == |cfg.src|
  {
    if ExactResume(cfg) {
      ExactResumeCounts(cfg);
    } else {
      ResumesElsewhere(cfg);
      var i: nat :| i + 1 < |cfg.src| && Pos(cfg.src, After(cfg.codec(cfg.src[i].key))) != i + 1;
      OtherwiseARunMiscounts(cfg, i);
    }
  }
}
