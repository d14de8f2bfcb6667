/** The code's cursor under crashes: with one batch size and a codec that resumes behind every cursor row, every
    completed table is the same part of the source, however often the process died. */
module CrashLoss {
  import opened Source
  import opened Upsert
  import opened Pipeline
  import opened Resume
  import opened Completion
  import opened SingleProcess

  /** Resuming from a saved key starts right behind its row. */
  ghost predicate ResumesBehind(cfg: Config) {
    forall i :: 0 <= i < |cfg.src| ==> Pos(cfg.src, After(cfg.codec(cfg.src[i].key))) == i + 1
  }

  /** The migration of the surviving rows alone. */
  function Remaining(cfg: Config, batch: nat): Config {
    cfg.(src := Survivors(cfg.src, 0, batch))
  }

  lemma {:induction false} ConversionIsShared(cfg: Config, other: Config, rows: seq<Row>)
    requires cfg.convert == other.convert
    ensures ConvertAll(cfg, rows) == ConvertAll(other, rows)
  {
    if rows == [] {
    } else {
      ConversionIsShared(cfg, other, rows[1..]);
    }
  }

  /** Survivors are rows of the source in the order of the source. */
  lemma {:induction false} SurvivorsInOrder(src: seq<Row>, lo: nat, batch: nat, i: nat, j: nat)
    requires lo <= |src| && i < j < |Survivors(src, lo, batch)|
    ensures exists a, b :: lo <= a < b < |src| && src[a] == Survivors(src, lo, batch)[i] && src[b] == Survivors(src, lo, batch)[j]
    decreases |src| - lo
  {
    var all, rest := Survivors(src, lo, batch), Survivors(src, lo + 1, batch);
    if !Survives(lo, batch) {
      assert all == rest;
      SurvivorsInOrder(src, lo + 1, batch, i, j);
    } else if i > 0 {
      SurvivorsInOrder(src, lo + 1, batch, i - 1, j - 1);
    } else {
      assert rest[j - 1] in rest;
      SurvivorMembers(src, lo + 1, batch, rest[j - 1]);
      var b :| lo + 1 <= b < |src| && src[b] == rest[j - 1];
      assert src[lo] == all[0] && src[b] == all[j];
    }
  }

  lemma SurvivorsAreInjective(cfg: Config, batch: nat)
    requires InjectiveKeys(cfg)
    ensures InjectiveKeys(Remaining(cfg, batch))
  {
    var kept := Survivors(cfg.src, 0, batch);
    forall i, j | 0 <= i < j < |kept| && cfg.convert(kept[i]).Success? && cfg.convert(kept[j]).Success?
      ensures cfg.convert(kept[i]).value.key != cfg.convert(kept[j]).value.key
    {
      SurvivorsInOrder(cfg.src, 0, batch, i, j);
      var a, b :| 0 <= a < b < |cfg.src| && cfg.src[a] == kept[i] && cfg.src[b] == kept[j];
    }
  }

  // What the streams from boundaries carry.

  lemma {:induction false} FlattenHas(ms: seq<Msg>, m: Msg, r: Row)
    requires m in ms && r in m.rows
    ensures r in Flatten(ms)
  {
    if m == ms[0] {
    } else {
      FlattenHas(ms[1..], m, r);
    }
  }

  lemma StreamRowsSurvive(src: seq<Row>, p: nat, batch: nat, m: Msg, r: Row)
    requires batch >= 1 && p <= |src| && Boundary(p, batch)
    requires m in Stream(src, FetchedExtra, p, batch) && r in m.rows
    ensures r in Survivors(src, 0, batch)
  {
    FlattenHas(Stream(src, FetchedExtra, p, batch), m, r);
    FetchedExtraReadsSurvivors(src, p, batch);
    SurvivorMembers(src, p, batch, r);
    SurvivorMembers(src, 0, batch, r);
  }

  /** The rows between two positions that survive. */
  ghost predicate Carries(rows: seq<Row>, src: seq<Row>, lo: nat, hi: nat, batch: nat)
    requires hi <= |src|
  {
    forall i :: lo <= i < hi && Survives(i, batch) ==> src[i] in rows
  }

  /** Where the chunk from a boundary ends, and that it carries the survivors up to there. */
  lemma FirstChunkCarries(src: seq<Row>, p: nat, batch: nat)
    requires batch >= 1 && p < |src| && Boundary(p, batch)
    ensures var m := Chunk(src, FetchedExtra, p, batch);
            if m.next.Top? then Carries(m.rows, src, p, |src|, batch)
            else p + batch + 1 <= |src| && m.next == After(src[p + batch].key) && Carries(m.rows, src, p, p + batch + 1, batch)
    ensures var m := Chunk(src, FetchedExtra, p, batch);
            |m.rows| == SurvivorsBelow(if m.next.Top? then |src| else p + batch + 1, batch) - SurvivorsBelow(p, batch)
  {
    var m := Chunk(src, FetchedExtra, p, batch);
    if m.next.Top? { PartCount(p, |src|, batch); } else { BlockCount(p, batch); }
    NextBoundary(p, batch);
    forall i | p <= i < |src| && i < p + batch ensures src[i] in m.rows {
      assert src[i] == m.rows[i - p];
    }
  }

  /** Where reading and writing n messages from p comes to: behind whole blocks, or to the end. */
  ghost predicate CarriedTo(src: seq<Row>, batch: nat, p: nat, hi: nat, rows: seq<Row>, next: Cursor) {
    && hi <= |src| && Carries(rows, src, p, hi, batch)
    && |rows| == SurvivorsBelow(hi, batch) - SurvivorsBelow(p, batch)
    && if next.Top? then hi == |src| else hi > 0 && Boundary(hi, batch) && next == After(src[hi - 1].key)
  }

  lemma FirstIsCarried(src: seq<Row>, p: nat, batch: nat) returns (hi: nat)
    requires batch >= 1 && p < |src| && Boundary(p, batch)
    ensures var m := Chunk(src, FetchedExtra, p, batch); CarriedTo(src, batch, p, hi, m.rows, m.next)
  {
    FirstChunkCarries(src, p, batch);
    NextBoundary(p, batch);
    hi := if Chunk(src, FetchedExtra, p, batch).next.Top? then |src| else p + batch + 1;
  }

  /** The first n messages carry every survivor up to where the n-th message's cursor stands. */
  lemma {:induction false} ExtraPrefix(src: seq<Row>, p: nat, batch: nat, n: nat) returns (hi: nat)
    requires batch >= 1 && p <= |src| && Boundary(p, batch)
    requires 1 <= n <= |Stream(src, FetchedExtra, p, batch)|
    ensures var ms := Stream(src, FetchedExtra, p, batch); CarriedTo(src, batch, p, hi, Flatten(ms[..n]), ms[n - 1].next)
    decreases n
  {
    var m := Chunk(src, FetchedExtra, p, batch);
    var rest := if m.next.Top? then [] else Stream(src, FetchedExtra, p + batch + 1, batch);
    if n == 1 {
      FirstOf(m, rest);
      hi := FirstIsCarried(src, p, batch);
    } else {
      FirstChunkCarries(src, p, batch);
      NextBoundary(p, batch);
      hi := ExtraPrefix(src, p + batch + 1, batch, n - 1);
      FirstAndMore(m, rest, n);
      CarriesBoth(m.rows, Flatten(rest[..n - 1]), src, p, p + batch + 1, hi, batch);
    }
  }

  lemma FirstOf(m: Msg, rest: seq<Msg>)
    ensures Flatten(([m] + rest)[..1]) == m.rows
  {
    assert ([m] + rest)[..1] == [m] + [];
    FlattenCons(m, []);
  }

  lemma FirstAndMore(m: Msg, rest: seq<Msg>, n: nat)
    requires 2 <= n <= |rest| + 1
    ensures Flatten(([m] + rest)[..n]) == m.rows + Flatten(rest[..n - 1])
    ensures ([m] + rest)[n - 1] == rest[n - 2]
  {
    assert ([m] + rest)[..n] == [m] + rest[..n - 1];
    FlattenCons(m, rest[..n - 1]);
  }

  lemma CarriesBoth(a: seq<Row>, b: seq<Row>, src: seq<Row>, lo: nat, mid: nat, hi: nat, batch: nat)
    requires mid <= |src| && hi <= |src| && Carries(a, src, lo, mid, batch) && Carries(b, src, mid, hi, batch)
    ensures Carries(a + b, src, lo, hi, batch)
  {}

  // The invariant over all runs with this batch size.

  ghost predicate SurvivorsHeld(cfg: Config, t: Table, batch: nat, n: nat)
    requires n <= |cfg.src|
  {
    forall i :: 0 <= i < n && Survives(i, batch) ==> Held(cfg, t, cfg.src[i])
  }

  ghost predicate CheckpointHolds(cfg: Config, batch: nat, s: State) {
    match s.ckpt
    case NoRow => true
    case InProgress(c, _) =>
      if c.Top? then SurvivorsHeld(cfg, s.table, batch, |cfg.src|)
      else Boundary(Pos(cfg.src, c), batch) && SurvivorsHeld(cfg, s.table, batch, Pos(cfg.src, c))
    case Completed(_) => SurvivorsHeld(cfg, s.table, batch, |cfg.src|)
  }

  ghost predicate WorkerHolds(cfg: Config, batch: nat, w: Worker, t: Table) {
    && w.batch == batch && Boundary(Pos(cfg.src, w.start), batch)
    && SurvivorsHeld(cfg, t, batch, Pos(cfg.src, w.start))
    && forall r :: r in Written(w) ==> Held(cfg, t, r)
  }

  ghost predicate LossSafe(cfg: Config, batch: nat, s: State) {
    && FlowInv(cfg, s)
    && FromSource(Remaining(cfg, batch), s.table)
    && CheckpointHolds(cfg, batch, s)
    && (s.proc.Up? ==> WorkerHolds(cfg, batch, s.proc.w, s.table))
  }

  ghost predicate FixedBatch(cfg: Config, batch: nat) {
    && ValidConfig(cfg) && cfg.choice.FetchedExtra? && batch >= 1
    && InjectiveKeys(cfg) && ResumesBehind(cfg)
  }

  lemma SurvivorIsRemaining(cfg: Config, batch: nat, i: nat)
    requires i < |cfg.src| && Survives(i, batch)
    ensures cfg.src[i] in Remaining(cfg, batch).src
  {
    SurvivorMembers(cfg.src, 0, batch, cfg.src[i]);
  }

  lemma SurvivorsStayHeld(cfg: Config, batch: nat, t: Table, t': Table, n: nat)
    requires KeepsHeld(Remaining(cfg, batch), t, t') && n <= |cfg.src| && SurvivorsHeld(cfg, t, batch, n)
    ensures SurvivorsHeld(cfg, t', batch, n)
  {
    forall i | 0 <= i < n && Survives(i, batch) ensures Held(cfg, t', cfg.src[i]) {
      SurvivorIsRemaining(cfg, batch, i);
      assert Held(Remaining(cfg, batch), t, cfg.src[i]);
    }
  }

  lemma CheckpointStaysHeld(cfg: Config, batch: nat, s: State, s': State)
    requires KeepsHeld(Remaining(cfg, batch), s.table, s'.table) && CheckpointHolds(cfg, batch, s) && s'.ckpt == s.ckpt
    ensures CheckpointHolds(cfg, batch, s')
  {
    var n := match s.ckpt
      case InProgress(c, _) => if c.Top? then |cfg.src| else Pos(cfg.src, c)
      case Completed(_) => |cfg.src|
      case NoRow => 0;
    if !s.ckpt.NoRow? { SurvivorsStayHeld(cfg, batch, s.table, s'.table, n); }
  }

  /** The chunk in the consumer's hands and the chunks before it are survivors. */
  lemma HandledRowsSurvive(cfg: Config, batch: nat, w: Worker, m: Msg, r: Row)
    requires cfg.choice.FetchedExtra? && batch >= 1 && w.batch == batch && Boundary(Pos(cfg.src, w.start), batch)
    requires AllMsgs(cfg, w) == StreamAfter(cfg, w.batch, w.start)
    requires (m in w.done || m in InHand(w.cons)) && r in m.rows
    ensures r in Remaining(cfg, batch).src
  {
    assert m in AllMsgs(cfg, w);
    StreamRowsSurvive(cfg.src, Pos(cfg.src, w.start), batch, m, r);
  }

  lemma WrittenRowsSurvive(cfg: Config, batch: nat, w: Worker)
    requires cfg.choice.FetchedExtra? && batch >= 1 && w.batch == batch && Boundary(Pos(cfg.src, w.start), batch)
    requires AllMsgs(cfg, w) == StreamAfter(cfg, w.batch, w.start)
    ensures forall r :: r in Flatten(w.done) ==> r in Remaining(cfg, batch).src
    ensures InHand(w.cons) != [] ==> forall r :: r in w.cons.msg.rows ==> r in Remaining(cfg, batch).src
  {
    forall m, r | m in w.done && r in m.rows ensures r in Remaining(cfg, batch).src {
      HandledRowsSurvive(cfg, batch, w, m, r);
    }
    FlattenMembers(w.done, Remaining(cfg, batch).src);
    if InHand(w.cons) != [] {
      forall r | r in w.cons.msg.rows ensures r in Remaining(cfg, batch).src {
        HandledRowsSurvive(cfg, batch, w, w.cons.msg, r);
      }
    }
  }

  /** A write of survivors: what the safety of writes says for the migration of the survivors alone. */
  lemma WriteIsLossSafe(cfg: Config, batch: nat, t: Table, rows: seq<Row>)
    requires InjectiveKeys(cfg) && FromSource(Remaining(cfg, batch), t) && ConvertAll(cfg, rows).Success?
    requires forall r :: r in rows ==> r in Remaining(cfg, batch).src
    ensures var t' := UpsertAll(t, Sent(cfg, rows));
            && FromSource(Remaining(cfg, batch), t')
            && (forall r :: r in rows ==> Held(cfg, t', r))
            && KeepsHeld(Remaining(cfg, batch), t, t')
  {
    var kept := Remaining(cfg, batch);
    SurvivorsAreInjective(cfg, batch);
    ConversionIsShared(cfg, kept, rows);
    WriteIsSafe(kept, t, rows);
    forall r | r in rows ensures Held(cfg, UpsertAll(t, Sent(cfg, rows)), r) {
      assert Held(kept, UpsertAll(t, Sent(kept, rows)), r);
    }
  }

  lemma PartialIsLossSafe(cfg: Config, batch: nat, t: Table, rows: seq<Row>, t': Table)
    requires InjectiveKeys(cfg) && FromSource(Remaining(cfg, batch), t) && Partial(t, Sent(cfg, rows), t')
    requires forall r :: r in rows ==> r in Remaining(cfg, batch).src
    ensures FromSource(Remaining(cfg, batch), t') && KeepsHeld(Remaining(cfg, batch), t, t')
  {
    SurvivorsAreInjective(cfg, batch);
    ConversionIsShared(cfg, Remaining(cfg, batch), rows);
    PartialWriteIsSafe(Remaining(cfg, batch), t, rows, t');
  }

  lemma HeldStays(cfg: Config, batch: nat, t: Table, t': Table, rows: seq<Row>)
    requires KeepsHeld(Remaining(cfg, batch), t, t')
    requires forall r :: r in rows ==> r in Remaining(cfg, batch).src && Held(cfg, t, r)
    ensures forall r :: r in rows ==> Held(cfg, t', r)
  {
    forall r | r in rows ensures Held(cfg, t', r) {
      assert Held(Remaining(cfg, batch), t, r);
    }
  }

  lemma WriteKeepsLossSafe(cfg: Config, batch: nat, s: State, s': State)
    requires FixedBatch(cfg, batch) && LossSafe(cfg, batch, s) && Next(cfg, s, Write, s')
    ensures LossSafe(cfg, batch, s')
  {
    var w := s.proc.w;
    StepKeepsFlow(cfg, s, Write, s');
    WrittenRowsSurvive(cfg, batch, w);
    WriteIsLossSafe(cfg, batch, s.table, w.cons.msg.rows);
    CheckpointStaysHeld(cfg, batch, s, s');
    SurvivorsStayHeld(cfg, batch, s.table, s'.table, Pos(cfg.src, w.start));
    assert Written(w) == Flatten(w.done);
    HeldStays(cfg, batch, s.table, s'.table, Flatten(w.done));
  }

  lemma FailedWriteKeepsLossSafe(cfg: Config, batch: nat, s: State, a: Action, s': State)
    requires FixedBatch(cfg, batch) && LossSafe(cfg, batch, s) && a.WriteFail? && Next(cfg, s, a, s')
    ensures LossSafe(cfg, batch, s')
  {
    var w := s.proc.w;
    StepKeepsFlow(cfg, s, a, s');
    WrittenRowsSurvive(cfg, batch, w);
    PartialIsLossSafe(cfg, batch, s.table, w.cons.msg.rows, a.left);
    CheckpointStaysHeld(cfg, batch, s, s');
    SurvivorsStayHeld(cfg, batch, s.table, s'.table, Pos(cfg.src, w.start));
    assert Written(w) == Flatten(w.done);
    assert Written(s'.proc.w) == Flatten(w.done);
    HeldStays(cfg, batch, s.table, s'.table, Flatten(w.done));
  }

  lemma CarriedIsHeld(cfg: Config, batch: nat, t: Table, p: nat, hi: nat, rows: seq<Row>)
    requires p <= |cfg.src| && hi <= |cfg.src| && SurvivorsHeld(cfg, t, batch, p) && Carries(rows, cfg.src, p, hi, batch)
    requires forall r :: r in rows ==> Held(cfg, t, r)
    ensures SurvivorsHeld(cfg, t, batch, hi)
  {}

  lemma SavingCarried(cfg: Config, batch: nat, w: Worker) returns (hi: nat)
    requires cfg.choice.FetchedExtra? && batch >= 1 && w.batch == batch && Boundary(Pos(cfg.src, w.start), batch)
    requires AllMsgs(cfg, w) == StreamAfter(cfg, w.batch, w.start) && w.cons.Saving?
    ensures CarriedTo(cfg.src, batch, Pos(cfg.src, w.start), hi, Written(w), w.cons.msg.next)
  {
    var ms := AllMsgs(cfg, w);
    var n := |w.done| + 1;
    assert ms[..n] == w.done + [w.cons.msg] && ms[n - 1] == w.cons.msg;
    hi := ExtraPrefix(cfg.src, Pos(cfg.src, w.start), batch, n);
    FlattenAppend(w.done, w.cons.msg);
  }

  /** What a checkpoint saves is behind whole blocks whose survivors are all in the target. */
  lemma SaveHolds(cfg: Config, batch: nat, s: State)
    requires FixedBatch(cfg, batch) && LossSafe(cfg, batch, s) && s.proc.Up? && s.proc.w.cons.Saving?
    ensures var c := SavedCursor(cfg, s.proc.w.cons.msg.next);
            if c.Top? then SurvivorsHeld(cfg, s.table, batch, |cfg.src|)
            else Boundary(Pos(cfg.src, c), batch) && SurvivorsHeld(cfg, s.table, batch, Pos(cfg.src, c))
  {
    var w := s.proc.w;
    var hi := SavingCarried(cfg, batch, w);
    CarriedIsHeld(cfg, batch, s.table, Pos(cfg.src, w.start), hi, Written(w));
  }

  lemma SaveKeepsLossSafe(cfg: Config, batch: nat, s: State, a: Action, s': State)
    requires FixedBatch(cfg, batch) && LossSafe(cfg, batch, s) && (a.Save? || a.SaveFail?) && Next(cfg, s, a, s')
    ensures LossSafe(cfg, batch, s')
  {
    StepKeepsFlow(cfg, s, a, s');
    SaveHolds(cfg, batch, s);
    SaveKeepsWritten(cfg, s, a, s');
  }

  lemma DrainedHolds(cfg: Config, batch: nat, s: State)
    requires FixedBatch(cfg, batch) && LossSafe(cfg, batch, s) && s.proc.Up? && s.proc.w.cons.Drained?
    ensures SurvivorsHeld(cfg, s.table, batch, |cfg.src|)
  {
    var w := s.proc.w;
    var p := Pos(cfg.src, w.start);
    DrainedWrote(cfg, w, s.table);
    FetchedExtraReadsSurvivors(cfg.src, p, batch);
    forall i | p <= i < |cfg.src| && Survives(i, batch) ensures cfg.src[i] in Written(w) {
      SurvivorMembers(cfg.src, p, batch, cfg.src[i]);
    }
    CarriedIsHeld(cfg, batch, s.table, p, |cfg.src|, Written(w));
  }

  lemma QuietStepKeepsLossSafe(cfg: Config, batch: nat, s: State, a: Action, s': State)
    requires FixedBatch(cfg, batch) && LossSafe(cfg, batch, s) && Next(cfg, s, a, s') && Quiet(a)
    ensures LossSafe(cfg, batch, s')
  {
    StepKeepsFlow(cfg, s, a, s');
    QuietStepsKeep(cfg, s, a, s');
  }

  lemma StartKeepsLossSafe(cfg: Config, batch: nat, s: State, a: Action, s': State)
    requires FixedBatch(cfg, batch) && LossSafe(cfg, batch, s) && Next(cfg, s, a, s') && a.Start? && a.batch == batch
    ensures LossSafe(cfg, batch, s')
  {
    StepKeepsFlow(cfg, s, a, s');
    assert Written(s'.proc.w) == [];
  }

  lemma MarkKeepsLossSafe(cfg: Config, batch: nat, s: State, a: Action, s': State)
    requires FixedBatch(cfg, batch) && LossSafe(cfg, batch, s) && Next(cfg, s, a, s') && (a.Mark? || a.MarkFail?)
    ensures LossSafe(cfg, batch, s')
  {
    DrainedHolds(cfg, batch, s);
  }

  lemma StepKeepsLossSafe(cfg: Config, batch: nat, s: State, a: Action, s': State)
    requires FixedBatch(cfg, batch) && LossSafe(cfg, batch, s) && Next(cfg, s, a, s') && (a.Start? ==> a.batch == batch)
    ensures LossSafe(cfg, batch, s')
  {
    match a
    case Write => WriteKeepsLossSafe(cfg, batch, s, s');
    case WriteFail(_) => FailedWriteKeepsLossSafe(cfg, batch, s, a, s');
    case Save => SaveKeepsLossSafe(cfg, batch, s, a, s');
    case SaveFail(_) => SaveKeepsLossSafe(cfg, batch, s, a, s');
    case Mark => MarkKeepsLossSafe(cfg, batch, s, a, s');
    case MarkFail(_) => MarkKeepsLossSafe(cfg, batch, s, a, s');
    case Start(_, _) => StartKeepsLossSafe(cfg, batch, s, a, s');
    case _ => QuietStepKeepsLossSafe(cfg, batch, s, a, s');
  }

  /** Runs in which every process uses the same batch size. */
  ghost predicate RunWithBatch(cfg: Config, tr: seq<State>, acts: seq<Action>, batch: nat) {
    Run(cfg, tr, acts) && tr[0] == INITIAL && forall i :: 0 <= i < |acts| && acts[i].Start? ==> acts[i].batch == batch
  }

  lemma {:induction false} RunKeepsLossSafe(cfg: Config, tr: seq<State>, acts: seq<Action>, batch: nat, n: nat)
    requires FixedBatch(cfg, batch) && RunWithBatch(cfg, tr, acts, batch) && n <= |acts|
    ensures LossSafe(cfg, batch, tr[n])
  {
    if n == 0 {
    } else {
      RunKeepsLossSafe(cfg, tr, acts, batch, n - 1);
      StepKeepsLossSafe(cfg, batch, tr[n - 1], acts[n - 1], tr[n]);
    }
  }

  // The row count.

  /** Where a checkpoint stands, in surviving rows. */
  function SurvivorsUpTo(cfg: Config, batch: nat, c: Cursor): nat {
    SurvivorsBelow(if c.Top? then |cfg.src| else Pos(cfg.src, c), batch)
  }

  function WholePass(cfg: Config, batch: nat): nat {
    SurvivorsBelow(|cfg.src|, batch)
  }

  ghost predicate CountsPasses(cfg: Config, batch: nat, s: State) {
    && (s.ckpt.InProgress? ==> s.ckpt.rows == SurvivorsUpTo(cfg, batch, s.ckpt.cursor) + s.passes * WholePass(cfg, batch))
    && (s.ckpt.Completed? ==> s.ckpt.rows == WholePass(cfg, batch) + s.passes * WholePass(cfg, batch))
    && (s.proc.Up? ==> StartCounted(cfg, batch, s.proc.w))
  }

  ghost predicate StartCounted(cfg: Config, batch: nat, w: Worker) {
    w.startTotal == SurvivorsBelow(Pos(cfg.src, w.start), batch) + w.pass * WholePass(cfg, batch)
  }

  lemma SaveCounts(cfg: Config, batch: nat, s: State)
    requires FixedBatch(cfg, batch) && LossSafe(cfg, batch, s) && s.proc.Up? && s.proc.w.cons.Saving?
    requires StartCounted(cfg, batch, s.proc.w)
    ensures var w := s.proc.w;
            w.total == SurvivorsUpTo(cfg, batch, SavedCursor(cfg, w.cons.msg.next)) + w.pass * WholePass(cfg, batch)
  {
    var hi := SavingCarried(cfg, batch, s.proc.w);
  }

  lemma DrainedCounts(cfg: Config, batch: nat, s: State)
    requires FixedBatch(cfg, batch) && LossSafe(cfg, batch, s) && s.proc.Up? && s.proc.w.cons.Drained?
    requires StartCounted(cfg, batch, s.proc.w)
    ensures s.proc.w.total == WholePass(cfg, batch) + s.proc.w.pass * WholePass(cfg, batch)
  {
    var w := s.proc.w;
    DrainedWrote(cfg, w, s.table);
    FetchedExtraReadsSurvivors(cfg.src, Pos(cfg.src, w.start), batch);
    SurvivorCount(cfg.src, Pos(cfg.src, w.start), batch);
  }

  lemma OneMore(k: nat, n: nat)
    ensures (k + 1) * n == n + k * n
  {}

  lemma StartCounts(cfg: Config, batch: nat, s: State, a: Action, s': State)
    requires CountsPasses(cfg, batch, s) && Next(cfg, s, a, s') && a.Start?
    ensures CountsPasses(cfg, batch, s')
  {
    OneMore(s.passes, WholePass(cfg, batch));
  }

  lemma StepCountsPasses(cfg: Config, batch: nat, s: State, a: Action, s': State)
    requires FixedBatch(cfg, batch) && LossSafe(cfg, batch, s) && CountsPasses(cfg, batch, s) && Next(cfg, s, a, s')
    ensures CountsPasses(cfg, batch, s')
  {
    match a
    case Start(_, _) => StartCounts(cfg, batch, s, a, s');
    case Save => SaveCounts(cfg, batch, s);
    case SaveFail(_) => SaveCounts(cfg, batch, s);
    case Mark => DrainedCounts(cfg, batch, s);
    case MarkFail(_) => DrainedCounts(cfg, batch, s);
    case _ =>
  }

  lemma {:induction false} RunCountsPasses(cfg: Config, tr: seq<State>, acts: seq<Action>, batch: nat, n: nat)
    requires FixedBatch(cfg, batch) && RunWithBatch(cfg, tr, acts, batch) && n <= |acts|
    ensures CountsPasses(cfg, batch, tr[n])
  {
    if n == 0 {
    } else {
      RunCountsPasses(cfg, tr, acts, batch, n - 1);
      RunKeepsLossSafe(cfg, tr, acts, batch, n - 1);
      StepCountsPasses(cfg, batch, tr[n - 1], acts[n - 1], tr[n]);
    }
  }

  lemma RecordedRows(cfg: Config, tr: seq<State>, acts: seq<Action>, batch: nat, n: nat)
    requires FixedBatch(cfg, batch) && RunWithBatch(cfg, tr, acts, batch) && n <= |acts| && tr[n].ckpt.Completed?
    ensures tr[n].ckpt.rows == (tr[n].passes + 1) * (|cfg.src| - |cfg.src| / (batch + 1))
  {
    RunCountsPasses(cfg, tr, acts, batch, n);
    OneMore(tr[n].passes, WholePass(cfg, batch));
  }

  /** The exact loss over all runs: however often the process died, a completed table holds row i if and only if
      (i+1) mod (B+1) != 0, and nothing else, and its recorded count is N - N div (B+1) for every pass over it. */
  lemma CrashesLoseExactly(cfg: Config, tr: seq<State>, acts: seq<Action>, batch: nat, n: nat)
    requires FixedBatch(cfg, batch) && RunWithBatch(cfg, tr, acts, batch) && n <= |acts| && tr[n].ckpt.Completed?
    ensures ConvertAll(cfg, Survivors(cfg.src, 0, batch)).Success?
    ensures tr[n].table == UpsertAll(map[], Sent(cfg, Survivors(cfg.src, 0, batch)))
    ensures forall i :: 0 <= i < |cfg.src| && cfg.convert(cfg.src[i]).Success? ==>
              (Held(cfg, tr[n].table, cfg.src[i]) <==> Survives(i, batch))
    ensures tr[n].ckpt.rows == (tr[n].passes + 1) * (|cfg.src| - |cfg.src| / (batch + 1))
  {
    var kept := Remaining(cfg, batch);
    RecordedRows(cfg, tr, acts, batch, n);
    RunKeepsLossSafe(cfg, tr, acts, batch, n);
    SurvivorsAreInjective(cfg, batch);
    forall j | 0 <= j < |kept.src| ensures Held(kept, tr[n].table, kept.src[j]) {
      SurvivorMembers(cfg.src, 0, batch, kept.src[j]);
      var i :| 0 <= i < |cfg.src| && Survives(i, batch) && cfg.src[i] == kept.src[j];
      assert Held(cfg, tr[n].table, cfg.src[i]);
    }
    CopyIsUnique(kept, tr[n].table);
    ConversionIsShared(cfg, kept, kept.src);
    forall i | 0 <= i < |cfg.src| && cfg.convert(cfg.src[i]).Success?
      ensures Held(cfg, tr[n].table, cfg.src[i]) <==> Survives(i, batch)
    {
      SurvivorHeld(cfg, batch, i);
    }
  }

  lemma OnePageSurvives(src: seq<Row>, batch: nat)
    requires |src| <= batch
    ensures Survivors(src, 0, batch) == src
  {
    LastBlockSurvives(src, 0, batch);
  }

  lemma LostRowIsNotACopy(cfg: Config, batch: nat, t: Table)
    requires InjectiveKeys(cfg) && AllConvertible(cfg) && batch < |cfg.src| && !Held(cfg, t, cfg.src[batch])
    ensures t != Converted(cfg)
  {
    assert forall i :: 0 <= i < |cfg.src| ==> cfg.src[i] in cfg.src;
    ConvertedIsACopy(cfg);
  }

  /** So the copy is complete if and only if the table fits into one batch. */
  lemma CopyIsCompleteIffOneBatch(cfg: Config, tr: seq<State>, acts: seq<Action>, batch: nat, n: nat)
    requires FixedBatch(cfg, batch) && AllConvertible(cfg)
    requires RunWithBatch(cfg, tr, acts, batch) && n <= |acts| && tr[n].ckpt.Completed?
    ensures tr[n].table == Converted(cfg) <==> |cfg.src| <= batch
  {
    CrashesLoseExactly(cfg, tr, acts, batch, n);
    if |cfg.src| <= batch {
      OnePageSurvives(cfg.src, batch);
    } else {
      assert cfg.src[batch] in cfg.src;
      BlockArithmetic(0, batch, batch);
      LostRowIsNotACopy(cfg, batch, tr[n].table);
    }
  }
}
