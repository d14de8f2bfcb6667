/** The code's cursor over all runs, whatever the batch sizes: a completed table lacks no row but those whose key was
    saved as a cursor. */
module CursorRows {
  import opened KeyOrder
  import opened Source
  import opened Upsert
  import opened Pipeline
  import opened Resume

  /** Of the first n rows all are in the target but those with a saved key. */
  ghost predicate CoveredBut(cfg: Config, t: Table, saved: set<Key>, n: nat)
    requires n <= |cfg.src|
  {
    forall i :: 0 <= i < n ==> Held(cfg, t, cfg.src[i]) || cfg.src[i].key in saved
  }

  // What the first messages of a stream deliver.

  /** Every row between two positions is delivered, or its key is the cursor of one of the messages. */
  ghost predicate Delivers(ms: seq<Msg>, src: seq<Row>, lo: nat, hi: nat)
    requires hi <= |src|
  {
    forall i :: lo <= i < hi ==> src[i] in Flatten(ms) || exists m :: m in ms && m.next == After(src[i].key)
  }

  /** The messages deliver up to where the last one's cursor stands. */
  ghost predicate DeliversTo(ms: seq<Msg>, src: seq<Row>, lo: nat, hi: nat, next: Cursor) {
    && hi <= |src| && Delivers(ms, src, lo, hi)
    && if next.Top? then hi == |src| else hi > 0 && next == After(src[hi - 1].key)
  }

  /** Where the read after the chunk at p starts. */
  function BlockEnd(src: seq<Row>, p: nat, batch: nat): (mid: nat)
    requires p <= |src|
    ensures p <= mid <= |src|
  {
    if |src| - p <= batch then |src| else p + batch + 1
  }

  lemma StreamGoesOn(src: seq<Row>, p: nat, batch: nat)
    requires batch >= 1 && p < |src|
    ensures var mid := BlockEnd(src, p, batch);
            p < mid && Stream(src, FetchedExtra, p, batch) ==
                         [Chunk(src, FetchedExtra, p, batch)] + Stream(src, FetchedExtra, mid, batch)
  {}

  lemma FirstDelivers(src: seq<Row>, p: nat, batch: nat)
    requires batch >= 1 && p < |src|
    ensures var m := Chunk(src, FetchedExtra, p, batch); DeliversTo([m], src, p, BlockEnd(src, p, batch), m.next)
  {
    var m := Chunk(src, FetchedExtra, p, batch);
    FlattenCons(m, []);
    assert [m] == [m] + [];
    forall i | p <= i < BlockEnd(src, p, batch)
      ensures src[i] in Flatten([m]) || exists x :: x in [m] && x.next == After(src[i].key)
    {
      if i < p + batch { assert src[i] == m.rows[i - p]; } else { assert m in [m] && m.next == After(src[i].key); }
    }
  }

  lemma DeliversBoth(m: Msg, rest: seq<Msg>, src: seq<Row>, lo: nat, mid: nat, hi: nat)
    requires mid <= |src| && hi <= |src| && Delivers([m], src, lo, mid) && Delivers(rest, src, mid, hi)
    ensures Delivers([m] + rest, src, lo, hi)
  {
    FlattenCons(m, rest);
    FlattenCons(m, []);
    assert [m] == [m] + [];
    forall i | lo <= i < hi
      ensures src[i] in Flatten([m] + rest) || exists x :: x in [m] + rest && x.next == After(src[i].key)
    {
      if i < mid {
        if x :| x in [m] && x.next == After(src[i].key) { assert x in [m] + rest; }
      } else {
        if x :| x in rest && x.next == After(src[i].key) { assert x in [m] + rest; }
      }
    }
  }

  lemma MoreDelivers(m: Msg, rest: seq<Msg>, n: nat, src: seq<Row>, lo: nat, mid: nat, hi: nat)
    requires 2 <= n <= |rest| + 1 && mid <= |src| && Delivers([m], src, lo, mid)
    requires DeliversTo(rest[..n - 1], src, mid, hi, rest[n - 2].next)
    ensures DeliversTo(([m] + rest)[..n], src, lo, hi, ([m] + rest)[n - 1].next)
  {
    DeliversBoth(m, rest[..n - 1], src, lo, mid, hi);
    assert ([m] + rest)[..n] == [m] + rest[..n - 1];
  }

  /** The first n messages deliver up to the n-th one's cursor, and all of them to the end. */
  lemma {:induction false} PrefixDelivers(src: seq<Row>, p: nat, batch: nat, n: nat) returns (hi: nat)
    requires batch >= 1 && p <= |src| && 1 <= n <= |Stream(src, FetchedExtra, p, batch)|
    ensures var ms := Stream(src, FetchedExtra, p, batch);
            DeliversTo(ms[..n], src, p, hi, ms[n - 1].next) && (n == |ms| ==> hi == |src|)
    decreases n
  {
    var mid := BlockEnd(src, p, batch);
    var m, rest := Chunk(src, FetchedExtra, p, batch), Stream(src, FetchedExtra, mid, batch);
    StreamGoesOn(src, p, batch);
    FirstDelivers(src, p, batch);
    if n == 1 {
      hi := mid;
      assert ([m] + rest)[..1] == [m];
      EmptyAtTheEnd(src, mid, batch);
    } else {
      hi := PrefixDelivers(src, mid, batch, n - 1);
      MoreDelivers(m, rest, n, src, p, mid, hi);
    }
  }

  lemma EmptyAtTheEnd(src: seq<Row>, p: nat, batch: nat)
    requires batch >= 1 && p <= |src|
    ensures Stream(src, FetchedExtra, p, batch) == [] <==> p == |src|
  {}

  // The invariant.

  /** The keys that the chunks a process has checkpointed gave as cursors. */
  ghost predicate CursorsSaved(w: Worker, saved: set<Key>) {
    forall m :: m in w.done && m.next.After? ==> m.next.key in saved
  }

  ghost predicate CheckpointCovers(cfg: Config, saved: set<Key>, s: State) {
    match s.ckpt
    case NoRow => true
    case InProgress(c, _) => CoveredBut(cfg, s.table, saved, if c.Top? then |cfg.src| else Pos(cfg.src, c))
    case Completed(_) => CoveredBut(cfg, s.table, saved, |cfg.src|)
  }

  ghost predicate SafeBut(cfg: Config, saved: set<Key>, s: State) {
    && FlowInv(cfg, s)
    && FromSource(cfg, s.table)
    && CheckpointCovers(cfg, saved, s)
    && (s.proc.Up? ==>
        && CoveredBut(cfg, s.table, saved, Pos(cfg.src, s.proc.w.start))
        && CursorsSaved(s.proc.w, saved)
        && forall r :: r in Written(s.proc.w) ==> Held(cfg, s.table, r))
  }

  /** The keys saved by the first n steps of a run, acknowledged or not. */
  function SavedKeys(tr: seq<State>, acts: seq<Action>, n: nat): set<Key>
    requires n <= |acts| <= |tr|
  {
    if n == 0 then {} else SavedKeys(tr, acts, n - 1) + SavedBy(tr[n - 1], acts[n - 1])
  }

  function SavedBy(s: State, a: Action): set<Key> {
    if (a.Save? || (a.SaveFail? && a.applied)) && s.proc.Up? && s.proc.w.cons.Saving? && s.proc.w.cons.msg.next.After?
    then {s.proc.w.cons.msg.next.key} else {}
  }

  ghost predicate LossySetting(cfg: Config) {
    ValidConfig(cfg) && cfg.choice.FetchedExtra? && InjectiveKeys(cfg) && NoSkip(cfg)
  }

  lemma CoveredButStays(cfg: Config, t: Table, t': Table, saved: set<Key>, more: set<Key>, n: nat)
    requires KeepsHeld(cfg, t, t') && n <= |cfg.src| && CoveredBut(cfg, t, saved, n)
    ensures CoveredBut(cfg, t', saved + more, n)
  {
    forall i | 0 <= i < n ensures Held(cfg, t', cfg.src[i]) || cfg.src[i].key in saved + more {
      assert cfg.src[i] in cfg.src;
    }
  }

  lemma CheckpointStaysCovered(cfg: Config, saved: set<Key>, s: State, s': State)
    requires KeepsHeld(cfg, s.table, s'.table) && CheckpointCovers(cfg, saved, s) && s'.ckpt == s.ckpt
    ensures CheckpointCovers(cfg, saved, s')
  {
    if !s.ckpt.NoRow? {
      var n := if s.ckpt.InProgress? && s.ckpt.cursor.After? then Pos(cfg.src, s.ckpt.cursor) else |cfg.src|;
      CoveredButStays(cfg, s.table, s'.table, saved, {}, n);
      assert saved + {} == saved;
    }
  }

  lemma WriteKeepsSafeBut(cfg: Config, saved: set<Key>, s: State, s': State)
    requires LossySetting(cfg) && SafeBut(cfg, saved, s) && Next(cfg, s, Write, s')
    ensures SafeBut(cfg, saved, s')
  {
    var w := s.proc.w;
    StepKeepsFlow(cfg, s, Write, s');
    forall r | r in w.cons.msg.rows ensures r in cfg.src { InHandIsSource(cfg, w, r); }
    WrittenIsSource(cfg, w);
    WriteIsSafe(cfg, s.table, w.cons.msg.rows);
    assert Written(w) == Flatten(w.done);
    CheckpointStaysCovered(cfg, saved, s, s');
    CoveredButStays(cfg, s.table, s'.table, saved, {}, Pos(cfg.src, w.start));
    assert saved + {} == saved;
  }

  lemma FailedWriteKeepsSafeBut(cfg: Config, saved: set<Key>, s: State, a: Action, s': State)
    requires LossySetting(cfg) && SafeBut(cfg, saved, s) && a.WriteFail? && Next(cfg, s, a, s')
    ensures SafeBut(cfg, saved, s')
  {
    var w := s.proc.w;
    StepKeepsFlow(cfg, s, a, s');
    forall r | r in w.cons.msg.rows ensures r in cfg.src { InHandIsSource(cfg, w, r); }
    WrittenIsSource(cfg, w);
    PartialWriteIsSafe(cfg, s.table, w.cons.msg.rows, a.left);
    CheckpointStaysCovered(cfg, saved, s, s');
    CoveredButStays(cfg, s.table, s'.table, saved, {}, Pos(cfg.src, w.start));
    assert saved + {} == saved;
  }

  lemma DeliveredIsCovered(cfg: Config, t: Table, ms: seq<Msg>, saved: set<Key>, p: nat, hi: nat)
    requires p <= |cfg.src| && hi <= |cfg.src| && CoveredBut(cfg, t, saved, p) && Delivers(ms, cfg.src, p, hi)
    requires forall r :: r in Flatten(ms) ==> Held(cfg, t, r)
    requires forall m :: m in ms && m.next.After? ==> m.next.key in saved
    ensures CoveredBut(cfg, t, saved, hi)
  {}

  /** What a checkpoint saves is covered, but for the keys saved with it and before. */
  lemma SaveCovers(cfg: Config, saved: set<Key>, s: State)
    requires LossySetting(cfg) && SafeBut(cfg, saved, s) && s.proc.Up? && s.proc.w.cons.Saving?
    ensures var c := SavedCursor(cfg, s.proc.w.cons.msg.next);
            CoveredBut(cfg, s.table, saved + SavedBy(s, Save), if c.Top? then |cfg.src| else Pos(cfg.src, c))
  {
    var w := s.proc.w;
    var ms, n := AllMsgs(cfg, w), |w.done| + 1;
    var all := saved + SavedBy(s, Save);
    assert ms[..n] == w.done + [w.cons.msg] && ms[n - 1] == w.cons.msg;
    var hi := PrefixDelivers(cfg.src, Pos(cfg.src, w.start), w.batch, n);
    FlattenAppend(w.done, w.cons.msg);
    CoveredButStays(cfg, s.table, s.table, saved, SavedBy(s, Save), Pos(cfg.src, w.start));
    DeliveredIsCovered(cfg, s.table, ms[..n], all, Pos(cfg.src, w.start), hi);
    if w.cons.msg.next.After? && hi < |cfg.src| { CountUpToSplits(cfg.src, cfg.codec(cfg.src[hi - 1].key), hi); }
  }

  lemma SaveKeepsSafeBut(cfg: Config, saved: set<Key>, s: State, a: Action, s': State)
    requires LossySetting(cfg) && SafeBut(cfg, saved, s) && (a.Save? || a.SaveFail?) && Next(cfg, s, a, s')
    ensures SafeBut(cfg, saved + SavedBy(s, a), s')
  {
    StepKeepsFlow(cfg, s, a, s');
    SaveCovers(cfg, saved, s);
    SaveKeepsWritten(cfg, s, a, s');
    CheckpointGrows(cfg, saved, SavedBy(s, a), s);
    CoveredButStays(cfg, s.table, s.table, saved, SavedBy(s, a), Pos(cfg.src, s.proc.w.start));
  }

  lemma CheckpointGrows(cfg: Config, saved: set<Key>, more: set<Key>, s: State)
    requires CheckpointCovers(cfg, saved, s)
    ensures CheckpointCovers(cfg, saved + more, s)
  {}

  lemma DrainedCovers(cfg: Config, saved: set<Key>, s: State)
    requires LossySetting(cfg) && SafeBut(cfg, saved, s) && s.proc.Up? && s.proc.w.cons.Drained?
    ensures CoveredBut(cfg, s.table, saved, |cfg.src|)
  {
    var w := s.proc.w;
    var p := Pos(cfg.src, w.start);
    assert AllMsgs(cfg, w) == w.done;
    DrainedWrote(cfg, w, s.table);
    EmptyAtTheEnd(cfg.src, p, w.batch);
    if p < |cfg.src| {
      var hi := PrefixDelivers(cfg.src, p, w.batch, |w.done|);
      assert w.done[..|w.done|] == w.done;
      DeliveredIsCovered(cfg, s.table, w.done, saved, p, hi);
    }
  }

  lemma QuietStepKeepsSafeBut(cfg: Config, saved: set<Key>, s: State, a: Action, s': State)
    requires LossySetting(cfg) && SafeBut(cfg, saved, s) && Quiet(a) && Next(cfg, s, a, s')
    ensures SafeBut(cfg, saved, s')
  {
    StepKeepsFlow(cfg, s, a, s');
    QuietStepsKeep(cfg, s, a, s');
  }

  lemma StartKeepsSafeBut(cfg: Config, saved: set<Key>, s: State, a: Action, s': State)
    requires LossySetting(cfg) && SafeBut(cfg, saved, s) && a.Start? && Next(cfg, s, a, s')
    ensures SafeBut(cfg, saved, s')
  {
    StepKeepsFlow(cfg, s, a, s');
    assert Written(s'.proc.w) == [];
  }

  lemma MarkKeepsSafeBut(cfg: Config, saved: set<Key>, s: State, a: Action, s': State)
    requires LossySetting(cfg) && SafeBut(cfg, saved, s) && (a.Mark? || a.MarkFail?) && Next(cfg, s, a, s')
    ensures SafeBut(cfg, saved, s')
  {
    DrainedCovers(cfg, saved, s);
  }

  lemma NothingSaved(saved: set<Key>, s: State, a: Action)
    requires !a.Save? && !a.SaveFail?
    ensures saved + SavedBy(s, a) == saved
  {}

  lemma OtherStepKeepsSafeBut(cfg: Config, saved: set<Key>, s: State, a: Action, s': State)
    requires LossySetting(cfg) && SafeBut(cfg, saved, s) && Next(cfg, s, a, s') && !a.Save? && !a.SaveFail?
    ensures SafeBut(cfg, saved, s')
  {
    match a
    case Write => WriteKeepsSafeBut(cfg, saved, s, s');
    case WriteFail(_) => FailedWriteKeepsSafeBut(cfg, saved, s, a, s');
    case Mark => MarkKeepsSafeBut(cfg, saved, s, a, s');
    case MarkFail(_) => MarkKeepsSafeBut(cfg, saved, s, a, s');
    case Start(_, _) => StartKeepsSafeBut(cfg, saved, s, a, s');
    case _ => QuietStepKeepsSafeBut(cfg, saved, s, a, s');
  }

  lemma StepKeepsSafeBut(cfg: Config, saved: set<Key>, s: State, a: Action, s': State)
    requires LossySetting(cfg) && SafeBut(cfg, saved, s) && Next(cfg, s, a, s')
    ensures SafeBut(cfg, saved + SavedBy(s, a), s')
  {
    if a.Save? || a.SaveFail? {
      SaveKeepsSafeBut(cfg, saved, s, a, s');
    } else {
      NothingSaved(saved, s, a);
      OtherStepKeepsSafeBut(cfg, saved, s, a, s');
    }
  }

  lemma {:induction false} RunKeepsSafeBut(cfg: Config, tr: seq<State>, acts: seq<Action>, n: nat)
    requires LossySetting(cfg) && Run(cfg, tr, acts) && tr[0] == INITIAL && n <= |acts|
    ensures SafeBut(cfg, SavedKeys(tr, acts, n), tr[n])
  {
    if n == 0 {
    } else {
      RunKeepsSafeBut(cfg, tr, acts, n - 1);
      StepKeepsSafeBut(cfg, SavedKeys(tr, acts, n - 1), tr[n - 1], acts[n - 1], tr[n]);
    }
  }

  /** After any crashes and restarts with any batch sizes, a completed table lacks at most rows whose key was saved as
      a cursor, and holds nothing that is not a converted source row. */
  lemma OnlyCursorRowsAreLost(cfg: Config, tr: seq<State>, acts: seq<Action>, n: nat)
    requires LossySetting(cfg) && Run(cfg, tr, acts) && tr[0] == INITIAL && n <= |acts| && tr[n].ckpt.Completed?
    ensures forall i :: 0 <= i < |cfg.src| ==> Held(cfg, tr[n].table, cfg.src[i]) || cfg.src[i].key in SavedKeys(tr, acts, n)
    ensures FromSource(cfg, tr[n].table)
  {
    RunKeepsSafeBut(cfg, tr, acts, n);
  }
}
