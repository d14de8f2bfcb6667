/** Safety of crash and resume with the cursor of the last kept row. */
module Resume {
  import opened KeyOrder
  import opened Values
  import opened Source
  import opened Upsert
  import opened Pipeline

  /** The target holds the converted row. */
  ghost predicate Held(cfg: Config, t: Table, r: Row) {
    cfg.convert(r).Success? && Holds(t, cfg.convert(r).value)
  }

  /** The first n source rows are in the target. */
  ghost predicate Covered(cfg: Config, t: Table, n: nat)
    requires n <= |cfg.src|
  {
    forall i :: 0 <= i < n ==> Held(cfg, t, cfg.src[i])
  }

  /** The target holds nothing but converted source rows. */
  ghost predicate FromSource(cfg: Config, t: Table) {
    forall k :: k in t ==> exists i :: 0 <= i < |cfg.src| && cfg.convert(cfg.src[i]) == Success(YRow(k, t[k]))
  }

  /** Distinct source rows get distinct YDB keys. */
  ghost predicate InjectiveKeys(cfg: Config) {
    forall i, j :: 0 <= i < j < |cfg.src|
      && cfg.convert(cfg.src[i]).Success? && cfg.convert(cfg.src[j]).Success?
      ==> cfg.convert(cfg.src[i]).value.key != cfg.convert(cfg.src[j]).value.key
  }

  /** A saved cursor never comes back at or above the next row's key. */
  ghost predicate NoSkip(cfg: Config) {
    forall i :: 0 <= i && i + 1 < |cfg.src| ==> KeyLess(cfg.codec(cfg.src[i].key), cfg.src[i + 1].key)
  }

  /** What a checkpoint promises about the target. */
  ghost predicate CheckpointSafe(cfg: Config, s: State) {
    match s.ckpt
    case NoRow => true
    case InProgress(c, _) => Covered(cfg, s.table, if c.Top? then |cfg.src| else Pos(cfg.src, c))
    case Completed(_) => Covered(cfg, s.table, |cfg.src|)
  }

  ghost predicate Safe(cfg: Config, s: State) {
    && FlowInv(cfg, s)
    && FromSource(cfg, s.table)
    && CheckpointSafe(cfg, s)
    && (s.proc.Up? ==>
        && Covered(cfg, s.table, Pos(cfg.src, s.proc.w.start))
        && forall r :: r in Written(s.proc.w) ==> Held(cfg, s.table, r))
  }

  lemma SourceRowsAgree(cfg: Config, r: Row, rows: seq<Row>)
    requires InjectiveKeys(cfg) && r in cfg.src && cfg.convert(r).Success?
    requires forall x :: x in rows ==> x in cfg.src
    ensures Compatible(cfg.convert(r).value, Sent(cfg, rows))
  {
    var sent := Sent(cfg, rows);
    forall i | 0 <= i < |sent| && sent[i].key == cfg.convert(r).value.key
      ensures sent[i].cells == cfg.convert(r).value.cells
    {
      var a :| 0 <= a < |cfg.src| && cfg.src[a] == r;
      assert rows[i] in cfg.src;
      var b :| 0 <= b < |cfg.src| && cfg.src[b] == rows[i];
      assert a == b;
    }
  }

  /** No stored source row is lost between the two tables. */
  ghost predicate KeepsHeld(cfg: Config, t: Table, t': Table) {
    forall r :: r in cfg.src && Held(cfg, t, r) ==> Held(cfg, t', r)
  }

  lemma CoveredStays(cfg: Config, t: Table, t': Table, n: nat)
    requires KeepsHeld(cfg, t, t') && n <= |cfg.src| && Covered(cfg, t, n)
    ensures Covered(cfg, t', n)
  {
    forall i | 0 <= i < n ensures Held(cfg, t', cfg.src[i]) { assert cfg.src[i] in cfg.src; }
  }

  lemma CheckpointStaysSafe(cfg: Config, s: State, s': State)
    requires KeepsHeld(cfg, s.table, s'.table) && CheckpointSafe(cfg, s) && s'.ckpt == s.ckpt
    ensures CheckpointSafe(cfg, s')
  {
    if s.ckpt.InProgress? {
      CoveredStays(cfg, s.table, s'.table, if s.ckpt.cursor.Top? then |cfg.src| else Pos(cfg.src, s.ckpt.cursor));
    } else if s.ckpt.Completed? {
      CoveredStays(cfg, s.table, s'.table, |cfg.src|);
    }
  }

  /** A successful write stores its rows, keeps the stored source rows and adds nothing foreign. */
  lemma WriteIsSafe(cfg: Config, t: Table, rows: seq<Row>)
    requires InjectiveKeys(cfg) && FromSource(cfg, t) && ConvertAll(cfg, rows).Success?
    requires forall x :: x in rows ==> x in cfg.src
    ensures var t' := UpsertAll(t, Sent(cfg, rows));
            && FromSource(cfg, t')
            && (forall r :: r in rows ==> Held(cfg, t', r))
            && KeepsHeld(cfg, t, t')
  {
    var sent := Sent(cfg, rows);
    var t' := UpsertAll(t, sent);
    forall r | r in rows ensures Held(cfg, t', r) {
      var i :| 0 <= i < |rows| && rows[i] == r;
      SourceRowsAgree(cfg, r, rows);
      UpsertStores(t, sent, i);
    }
    forall r | r in cfg.src && Held(cfg, t, r) ensures Held(cfg, t', r) {
      SourceRowsAgree(cfg, r, rows);
      UpsertKeeps(t, sent, cfg.convert(r).value);
    }
    forall k | k in t'
      ensures exists i :: 0 <= i < |cfg.src| && cfg.convert(cfg.src[i]) == Success(YRow(k, t'[k]))
    {
      UpsertOnlyAdds(t, sent, k);
      if YRow(k, t'[k]) in sent { SentComesFromSource(cfg, rows, YRow(k, t'[k])); }
    }
  }

  lemma SentComesFromSource(cfg: Config, rows: seq<Row>, y: YRow)
    requires y in Sent(cfg, rows) && forall x :: x in rows ==> x in cfg.src
    ensures exists i :: 0 <= i < |cfg.src| && cfg.convert(cfg.src[i]) == Success(y)
  {
    var i :| 0 <= i < |rows| && Sent(cfg, rows)[i] == y;
    assert rows[i] in cfg.src;
  }

  /** A failed write may leave part of the chunk; it too harms nothing. */
  lemma PartialWriteIsSafe(cfg: Config, t: Table, rows: seq<Row>, t': Table)
    requires InjectiveKeys(cfg) && FromSource(cfg, t) && Partial(t, Sent(cfg, rows), t')
    requires forall x :: x in rows ==> x in cfg.src
    ensures FromSource(cfg, t')
    ensures KeepsHeld(cfg, t, t')
  {
    forall r | r in cfg.src && Held(cfg, t, r) ensures Held(cfg, t', r) {
      SourceRowsAgree(cfg, r, rows);
      PartialKeeps(t, Sent(cfg, rows), t', cfg.convert(r).value);
    }
    forall k | k in t'
      ensures exists i :: 0 <= i < |cfg.src| && cfg.convert(cfg.src[i]) == Success(YRow(k, t'[k]))
    {
      if YRow(k, t'[k]) in Sent(cfg, rows) { SentComesFromSource(cfg, rows, YRow(k, t'[k])); }
    }
  }

  /** Replaying chunks whose rows are already in the target leaves the target as it is. */
  lemma {:induction false} ReplayChangesNothing(cfg: Config, t: Table, rows: seq<Row>)
    requires forall r :: r in rows ==> Held(cfg, t, r)
    ensures UpsertAll(t, Sent(cfg, rows)) == t
  {
    if rows == [] {
    } else {
      assert Held(cfg, t, rows[0]);
      var y := cfg.convert(rows[0]).value;
      assert t[y.key := y.cells] == t;
      ReplayChangesNothing(cfg, t, rows[1..]);
      assert forall i :: 0 <= i < |rows| ==> rows[i] in rows;
      assert Sent(cfg, rows) == [y] + Sent(cfg, rows[1..]);
    }
  }

  /** The rows in the consumer's hands are rows of the table. */
  lemma InHandIsSource(cfg: Config, w: Worker, r: Row)
    requires InOrder(cfg, w)
    requires InHand(w.cons) != [] && r in w.cons.msg.rows
    ensures r in cfg.src
  {
    var all := AllMsgs(cfg, w);
    assert all[|w.done|] == w.cons.msg;
    StreamBounds(cfg.src, cfg.choice, Pos(cfg.src, w.start), w.batch, |w.done|);
  }

  ghost predicate InOrder(cfg: Config, w: Worker) {
    w.batch >= 1 && AllMsgs(cfg, w) == StreamAfter(cfg, w.batch, w.start)
  }

  /** The rows of the start cursor and those written since make an unbroken covered prefix. */
  lemma PrefixIsCovered(cfg: Config, t: Table, p: nat, q: nat)
    requires p <= q <= |cfg.src| && Covered(cfg, t, p)
    requires forall r :: r in cfg.src[p..q] ==> Held(cfg, t, r)
    ensures Covered(cfg, t, q)
  {
    forall i | 0 <= i < q ensures Held(cfg, t, cfg.src[i]) {
      if p <= i { assert cfg.src[i] == cfg.src[p..q][i - p]; }
    }
  }

  /** When a chunk is checkpointed, the target holds every row up to its cursor. */
  lemma SaveIsCovered(cfg: Config, s: State)
    requires ValidConfig(cfg) && cfg.choice.KeptLast? && NoSkip(cfg)
    requires Safe(cfg, s) && s.proc.Up? && s.proc.w.cons.Saving?
    ensures var c := SavedCursor(cfg, s.proc.w.cons.msg.next);
            Covered(cfg, s.table, if c.Top? then |cfg.src| else Pos(cfg.src, c))
  {
    var w := s.proc.w;
    var q := SavingWrote(cfg, w, s.table);
    PrefixIsCovered(cfg, s.table, Pos(cfg.src, w.start), q);
    if q < |cfg.src| {
      CountUpToSplits(cfg.src, cfg.codec(cfg.src[q - 1].key), q);
    }
  }

  /** When the consumer has drained the closed channel, the whole table is in the target. */
  lemma DrainedIsComplete(cfg: Config, s: State)
    requires ValidConfig(cfg) && cfg.choice.KeptLast?
    requires Safe(cfg, s) && s.proc.Up? && s.proc.w.cons.Drained?
    ensures Covered(cfg, s.table, |cfg.src|)
  {
    var w := s.proc.w;
    var p := Pos(cfg.src, w.start);
    DrainedWrote(cfg, w, s.table);
    KeptLastStreamIsComplete(cfg.src, p, w.batch);
    assert cfg.src[p..] == cfg.src[p..|cfg.src|];
    PrefixIsCovered(cfg, s.table, p, |cfg.src|);
  }

  lemma WriteKeepsRows(cfg: Config, s: State, s': State)
    requires ValidConfig(cfg) && InjectiveKeys(cfg)
    requires Safe(cfg, s) && Next(cfg, s, Write, s')
    ensures FromSource(cfg, s'.table) && KeepsHeld(cfg, s.table, s'.table)
    ensures forall r :: r in Written(s'.proc.w) ==> Held(cfg, s'.table, r)
  {
    var w := s.proc.w;
    forall r | r in w.cons.msg.rows ensures r in cfg.src { InHandIsSource(cfg, w, r); }
    WrittenIsSource(cfg, w);
    WriteIsSafe(cfg, s.table, w.cons.msg.rows);
    assert Written(w) == Flatten(w.done);
  }

  lemma WriteKeepsSafe(cfg: Config, s: State, s': State)
    requires ValidConfig(cfg) && InjectiveKeys(cfg)
    requires Safe(cfg, s) && Next(cfg, s, Write, s')
    ensures Safe(cfg, s')
  {
    StepKeepsFlow(cfg, s, Write, s');
    WriteKeepsRows(cfg, s, s');
    CheckpointStaysSafe(cfg, s, s');
    CoveredStays(cfg, s.table, s'.table, Pos(cfg.src, s.proc.w.start));
  }

  lemma FailedWriteKeepsSafe(cfg: Config, s: State, a: Action, s': State)
    requires ValidConfig(cfg) && InjectiveKeys(cfg)
    requires Safe(cfg, s) && a.WriteFail? && Next(cfg, s, a, s')
    ensures Safe(cfg, s')
  {
    StepKeepsFlow(cfg, s, a, s');
    var w := s.proc.w;
    forall r | r in w.cons.msg.rows ensures r in cfg.src { InHandIsSource(cfg, w, r); }
    WrittenIsSource(cfg, w);
    PartialWriteIsSafe(cfg, s.table, w.cons.msg.rows, a.left);
    CheckpointStaysSafe(cfg, s, s');
    CoveredStays(cfg, s.table, s'.table, Pos(cfg.src, w.start));
  }

  /** A save, successful or not, leaves the table and what has been written. */
  lemma SaveKeepsWritten(cfg: Config, s: State, a: Action, s': State)
    requires s.proc.Up? && (a.Save? || a.SaveFail?) && Next(cfg, s, a, s')
    ensures s'.table == s.table && s'.proc.Up? && s'.proc.w.start == s.proc.w.start
    ensures forall r :: r in Written(s'.proc.w) ==> r in Written(s.proc.w)
    ensures s'.ckpt == s.ckpt || s'.ckpt == InProgress(SavedCursor(cfg, s.proc.w.cons.msg.next), s.proc.w.total)
  {
    FlattenAppend(s.proc.w.done, s.proc.w.cons.msg);
  }

  lemma SaveKeepsSafe(cfg: Config, s: State, a: Action, s': State)
    requires ValidConfig(cfg) && cfg.choice.KeptLast? && NoSkip(cfg)
    requires Safe(cfg, s) && s.proc.Up? && (a.Save? || a.SaveFail?) && Next(cfg, s, a, s')
    ensures Safe(cfg, s')
  {
    StepKeepsFlow(cfg, s, a, s');
    SaveIsCovered(cfg, s);
    SaveKeepsWritten(cfg, s, a, s');
  }

  lemma MarkKeepsSafe(cfg: Config, s: State, a: Action, s': State)
    requires ValidConfig(cfg) && cfg.choice.KeptLast?
    requires Safe(cfg, s) && s.proc.Up? && (a.Mark? || a.MarkFail?) && Next(cfg, s, a, s')
    ensures Safe(cfg, s')
  {
    DrainedIsComplete(cfg, s);
  }

  /** Steps that touch neither the table nor the state row nor what has been written. */
  predicate Quiet(a: Action) {
    a.Read? || a.ReadFail? || a.Send? || a.Cancel? || a.Close? || a.Recv? || a.Drain? || a.Exit? || a.Crash?
  }

  lemma QuietStepsKeep(cfg: Config, s: State, a: Action, s': State)
    requires Next(cfg, s, a, s') && Quiet(a)
    ensures s'.table == s.table && s'.ckpt == s.ckpt
    ensures s'.proc.Up? ==> s.proc.Up? && s'.proc.w.batch == s.proc.w.batch && s'.proc.w.start == s.proc.w.start
    ensures s'.proc.Up? ==> Written(s'.proc.w) == Written(s.proc.w)
  {}

  lemma QuietStepKeepsSafe(cfg: Config, s: State, a: Action, s': State)
    requires ValidConfig(cfg) && Safe(cfg, s) && Quiet(a) && Next(cfg, s, a, s')
    ensures Safe(cfg, s')
  {
    StepKeepsFlow(cfg, s, a, s');
    QuietStepsKeep(cfg, s, a, s');
  }

  lemma StartKeepsSafe(cfg: Config, s: State, a: Action, s': State)
    requires ValidConfig(cfg) && Safe(cfg, s) && a.Start? && Next(cfg, s, a, s')
    ensures Safe(cfg, s')
  {
    StepKeepsFlow(cfg, s, a, s');
    assert Written(s'.proc.w) == [];
  }

  /** Every step keeps safety: what every checkpoint promises stays true. */
  lemma StepKeepsSafe(cfg: Config, s: State, a: Action, s': State)
    requires ValidConfig(cfg) && cfg.choice.KeptLast? && InjectiveKeys(cfg) && NoSkip(cfg)
    requires Safe(cfg, s) && Next(cfg, s, a, s')
    ensures Safe(cfg, s')
  {
    if a.Start? {
      StartKeepsSafe(cfg, s, a, s');
    } else if Quiet(a) {
      QuietStepKeepsSafe(cfg, s, a, s');
    } else {
      match a
      case Write => WriteKeepsSafe(cfg, s, s');
      case WriteFail(_) => FailedWriteKeepsSafe(cfg, s, a, s');
      case Save => SaveKeepsSafe(cfg, s, a, s');
      case SaveFail(_) => SaveKeepsSafe(cfg, s, a, s');
      case _ => MarkKeepsSafe(cfg, s, a, s');
    }
  }

  lemma WrittenIsSource(cfg: Config, w: Worker)
    requires InOrder(cfg, w)
    ensures forall r :: r in Flatten(w.done) ==> r in cfg.src
  {
    forall m, r | m in w.done && r in m.rows ensures r in cfg.src {
      var i :| 0 <= i < |w.done| && w.done[i] == m;
      assert AllMsgs(cfg, w)[i] == m;
      StreamBounds(cfg.src, cfg.choice, Pos(cfg.src, w.start), w.batch, i);
    }
    FlattenMembers(w.done, cfg.src);
  }

  lemma {:induction false} FlattenMembers(ms: seq<Msg>, src: seq<Row>)
    requires forall m, r :: m in ms && r in m.rows ==> r in src
    ensures forall r :: r in Flatten(ms) ==> r in src
  {
    if ms == [] {
    } else {
      FlattenMembers(ms[1..], src);
    }
  }

  lemma {:induction false} RunKeepsSafe(cfg: Config, tr: seq<State>, acts: seq<Action>, i: nat)
    requires ValidConfig(cfg) && cfg.choice.KeptLast? && InjectiveKeys(cfg) && NoSkip(cfg)
    requires Run(cfg, tr, acts) && Safe(cfg, tr[0]) && i <= |acts|
    ensures Safe(cfg, tr[i])
  {
    if i == 0 {
    } else {
      RunKeepsSafe(cfg, tr, acts, i - 1);
      StepKeepsSafe(cfg, tr[i - 1], acts[i - 1], tr[i]);
    }
  }

  /** Checkpoint safety over all runs: any number of crashes, restarts, failed writes and batch sizes. */
  lemma CheckpointsAreSafe(cfg: Config, s: State)
    requires ValidConfig(cfg) && cfg.choice.KeptLast? && InjectiveKeys(cfg) && NoSkip(cfg)
    requires Reachable(cfg, s)
    ensures CheckpointSafe(cfg, s) && FromSource(cfg, s.table)
  {
    var tr, acts :| Run(cfg, tr, acts) && tr[0] == INITIAL && tr[|acts|] == s;
    RunKeepsSafe(cfg, tr, acts, |acts|);
  }

  /** The copy of the whole table. */
  function Converted(cfg: Config): Table {
    UpsertAll(map[], Sent(cfg, cfg.src))
  }

  /** Completeness: a table marked completed is an exact copy. */
  lemma CompletedIsExact(cfg: Config, s: State)
    requires ValidConfig(cfg) && cfg.choice.KeptLast? && InjectiveKeys(cfg) && NoSkip(cfg)
    requires Reachable(cfg, s) && s.ckpt.Completed?
    ensures ConvertAll(cfg, cfg.src).Success? && s.table == Converted(cfg)
  {
    CheckpointsAreSafe(cfg, s);
    assert forall i :: 0 <= i < |cfg.src| ==> Held(cfg, s.table, cfg.src[i]);
    CopyIsUnique(cfg, s.table);
  }

  lemma CoveredIncludes(cfg: Config, t: Table, t': Table)
    requires FromSource(cfg, t) && Covered(cfg, t', |cfg.src|)
    ensures forall k :: k in t ==> k in t' && t'[k] == t[k]
  {
    forall k | k in t ensures k in t' && t'[k] == t[k] {
      var i :| 0 <= i < |cfg.src| && cfg.convert(cfg.src[i]) == Success(YRow(k, t[k]));
      assert Held(cfg, t', cfg.src[i]);
    }
  }

  lemma ConvertedIsACopy(cfg: Config)
    requires InjectiveKeys(cfg) && ConvertAll(cfg, cfg.src).Success?
    ensures FromSource(cfg, Converted(cfg)) && Covered(cfg, Converted(cfg), |cfg.src|)
  {
    WriteIsSafe(cfg, map[], cfg.src);
    forall i | 0 <= i < |cfg.src| ensures Held(cfg, Converted(cfg), cfg.src[i]) { assert cfg.src[i] in cfg.src; }
  }

  lemma CopyIsUnique(cfg: Config, t: Table)
    requires InjectiveKeys(cfg) && FromSource(cfg, t) && Covered(cfg, t, |cfg.src|)
    requires ConvertAll(cfg, cfg.src).Success?
    ensures t == Converted(cfg)
  {
    ConvertedIsACopy(cfg);
    CoveredIncludes(cfg, t, Converted(cfg));
    CoveredIncludes(cfg, Converted(cfg), t);
  }
}
