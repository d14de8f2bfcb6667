/** What one process that runs from start to completion writes, and what that means for the cursor
    choice in the code. */
module SingleProcess {
  import opened Arithmetic
  import opened Source
  import opened Upsert
  import opened Pipeline
  import opened Resume
  import opened Completion

  /** A run of a single process: one start, then no other. */
  ghost predicate Uninterrupted(cfg: Config, tr: seq<State>, acts: seq<Action>, batch: nat) {
    && Run(cfg, tr, acts) && acts != []
    && acts[0].Start? && acts[0].batch == batch
    && forall i :: 1 <= i < |acts| ==> !acts[i].Start?
  }

  /** The rows the process reads, whatever the interleaving. */
  function RowsRead(cfg: Config, s0: State, batch: nat): seq<Row>
    requires batch >= 1
  {
    Flatten(StreamAfter(cfg, batch, StartCursor(s0.ckpt)))
  }

  ghost predicate WorksFor(cfg: Config, s0: State, batch: nat, s: State) {
    && batch >= 1
    && FlowInv(cfg, s)
    && (s.proc.Up? ==>
        && s.proc.w.batch == batch && s.proc.w.start == StartCursor(s0.ckpt)
        && s.proc.w.startTotal == StartTotal(s0.ckpt) && s.proc.w.startTable == s0.table)
    && (s.ckpt.Completed? ==>
        && s.proc.Down?
        && ConvertAll(cfg, RowsRead(cfg, s0, batch)).Success?
        && s.table == UpsertAll(s0.table, Sent(cfg, RowsRead(cfg, s0, batch)))
        && s.ckpt.rows == StartTotal(s0.ckpt) + |RowsRead(cfg, s0, batch)|)
  }

  lemma StepKeepsOrigin(cfg: Config, s: State, a: Action, s': State)
    requires Next(cfg, s, a, s') && !a.Start? && s'.proc.Up?
    ensures s.proc.Up? && s'.proc.w.batch == s.proc.w.batch && s'.proc.w.start == s.proc.w.start
    ensures s'.proc.w.startTotal == s.proc.w.startTotal && s'.proc.w.startTable == s.proc.w.startTable
  {}

  lemma OnlyMarksComplete(cfg: Config, s: State, a: Action, s': State)
    requires Next(cfg, s, a, s') && !a.Start? && !a.Mark? && !a.MarkFail?
    ensures s'.ckpt.Completed? ==> s.ckpt == s'.ckpt
    ensures s.proc.Up?
  {}

  lemma MarkWorksFor(cfg: Config, s0: State, batch: nat, s: State, a: Action, s': State)
    requires WorksFor(cfg, s0, batch, s) && Next(cfg, s, a, s') && (a.Mark? || a.MarkFail?)
    ensures WorksFor(cfg, s0, batch, s')
  {
    DrainedWrote(cfg, s.proc.w, s.table);
  }

  lemma StepWorksFor(cfg: Config, s0: State, batch: nat, s: State, a: Action, s': State)
    requires ValidConfig(cfg) && WorksFor(cfg, s0, batch, s) && Next(cfg, s, a, s') && !a.Start?
    ensures WorksFor(cfg, s0, batch, s')
  {
    if a.Mark? || a.MarkFail? {
      MarkWorksFor(cfg, s0, batch, s, a, s');
    } else {
      StepKeepsFlow(cfg, s, a, s');
      if s'.proc.Up? { StepKeepsOrigin(cfg, s, a, s'); }
      OnlyMarksComplete(cfg, s, a, s');
    }
  }

  lemma {:induction false} RunWorksFor(cfg: Config, tr: seq<State>, acts: seq<Action>, batch: nat, i: nat)
    requires ValidConfig(cfg) && Uninterrupted(cfg, tr, acts, batch) && 1 <= i <= |acts|
    requires tr[0].proc.Down? && !tr[0].ckpt.Completed?
    ensures WorksFor(cfg, tr[0], batch, tr[i])
  {
    if i == 1 {
      StepKeepsFlow(cfg, tr[0], acts[0], tr[1]);
    } else {
      RunWorksFor(cfg, tr, acts, batch, i - 1);
      StepWorksFor(cfg, tr[0], batch, tr[i - 1], acts[i - 1], tr[i]);
    }
  }

  /** Whatever the interleaving, an uninterrupted run that completes has written exactly the rows that
      sequential paging reads, in order, and recorded their number. */
  lemma UninterruptedOutcome(cfg: Config, tr: seq<State>, acts: seq<Action>, batch: nat)
    requires ValidConfig(cfg) && Uninterrupted(cfg, tr, acts, batch) && batch >= 1
    requires tr[0].proc.Down? && !tr[0].ckpt.Completed? && tr[|acts|].ckpt.Completed?
    ensures tr[|acts|].table == UpsertAll(tr[0].table, Sent(cfg, RowsRead(cfg, tr[0], batch)))
    ensures ConvertAll(cfg, RowsRead(cfg, tr[0], batch)).Success?
    ensures tr[|acts|].ckpt.rows == StartTotal(tr[0].ckpt) + |RowsRead(cfg, tr[0], batch)|
  {
    RunWorksFor(cfg, tr, acts, batch, |acts|);
  }

  /** Row i (0-based) survives paging by the fetched-extra cursor. */
  predicate Survives(i: nat, batch: nat) {
    (i + 1) % (batch + 1) != 0
  }

  /** The surviving rows from position lo on. */
  function Survivors(src: seq<Row>, lo: nat, batch: nat): seq<Row>
    requires lo <= |src|
    decreases |src| - lo
  {
    if lo == |src| then []
    else (if Survives(lo, batch) then [src[lo]] else []) + Survivors(src, lo + 1, batch)
  }

  /** Where a block of batch+1 rows begins. */
  predicate Boundary(p: nat, batch: nat) {
    p % (batch + 1) == 0
  }

  /** Of the rows from a boundary, the batch-th is the first that does not survive. */
  lemma BlockArithmetic(p: nat, i: nat, batch: nat)
    requires Boundary(p, batch) && p <= i <= p + batch
    ensures Survives(i, batch) <==> i < p + batch
  {
    var b := batch + 1;
    var q := p / b;
    if i < p + batch {
      DivModUnique(i + 1, q, i - p + 1, b);
    } else {
      assert i + 1 == (q + 1) * b + 0;
      DivModUnique(i + 1, q + 1, 0, b);
    }
  }

  lemma NextBoundary(p: nat, batch: nat)
    requires Boundary(p, batch)
    ensures Boundary(p + batch + 1, batch)
  {
    var b := batch + 1;
    var q := p / b;
    assert p + b == (q + 1) * b + 0;
    DivModUnique(p + b, q + 1, 0, b);
  }

  lemma SurvivorsStep(src: seq<Row>, lo: nat, batch: nat)
    requires lo < |src|
    ensures Survivors(src, lo, batch) ==
            if Survives(lo, batch) then [src[lo]] + Survivors(src, lo + 1, batch) else Survivors(src, lo + 1, batch)
  {}

  lemma SliceCons(src: seq<Row>, lo: nat, hi: nat, tail: seq<Row>)
    requires lo < hi <= |src|
    ensures [src[lo]] + (src[lo + 1..hi] + tail) == src[lo..hi] + tail
  {}

  /** Within a block of batch+1 rows the first `batch` survive. */
  lemma {:induction false} SurvivorsOfBlock(src: seq<Row>, p: nat, lo: nat, batch: nat, hi: nat)
    requires Boundary(p, batch) && p <= lo <= hi <= |src| && hi <= p + batch
    ensures Survivors(src, lo, batch) == src[lo..hi] + Survivors(src, hi, batch)
    decreases hi - lo
  {
    if lo == hi {
    } else {
      BlockArithmetic(p, lo, batch);
      SurvivorsOfBlock(src, p, lo + 1, batch, hi);
      SurvivorsStep(src, lo, batch);
      SliceCons(src, lo, hi, Survivors(src, hi, batch));
    }
  }

  lemma SurvivorsSkipOne(src: seq<Row>, p: nat, batch: nat)
    requires Boundary(p, batch) && p + batch < |src|
    ensures Survivors(src, p, batch) == src[p..p + batch] + Survivors(src, p + batch + 1, batch)
  {
    SurvivorsOfBlock(src, p, p, batch, p + batch);
    BlockArithmetic(p, p + batch, batch);
    SurvivorsStep(src, p + batch, batch);
  }

  lemma LastBlockSurvives(src: seq<Row>, p: nat, batch: nat)
    requires Boundary(p, batch) && p <= |src| <= p + batch
    ensures Survivors(src, p, batch) == src[p..]
  {
    SurvivorsOfBlock(src, p, p, batch, |src|);
    assert src[p..|src|] + [] == src[p..];
  }

  lemma LastPageReads(src: seq<Row>, p: nat, batch: nat)
    requires p < |src| <= p + batch
    ensures Flatten(Stream(src, FetchedExtra, p, batch)) == src[p..]
  {
    FlattenStream(src, FetchedExtra, p, batch);
    assert src[p..] + [] == src[p..];
  }

  lemma FullPageReads(src: seq<Row>, p: nat, batch: nat)
    requires batch >= 1 && p + batch < |src|
    ensures Flatten(Stream(src, FetchedExtra, p, batch)) ==
            src[p..p + batch] + Flatten(Stream(src, FetchedExtra, p + batch + 1, batch))
  {
    FlattenStream(src, FetchedExtra, p, batch);
  }

  /** Fetched-extra paging from a boundary reads exactly the survivors. */
  lemma {:induction false} FetchedExtraReadsSurvivors(src: seq<Row>, p: nat, batch: nat)
    requires batch >= 1 && p <= |src| && Boundary(p, batch)
    ensures Flatten(Stream(src, FetchedExtra, p, batch)) == Survivors(src, p, batch)
    decreases |src| - p
  {
    if p == |src| {
    } else if |src| - p <= batch {
      LastBlockSurvives(src, p, batch);
      LastPageReads(src, p, batch);
    } else {
      var next := p + batch + 1;
      NextBoundary(p, batch);
      FetchedExtraReadsSurvivors(src, next, batch);
      SurvivorsSkipOne(src, p, batch);
      FullPageReads(src, p, batch);
    }
  }

  /** How many of the first n rows survive. */
  function SurvivorsBelow(n: nat, batch: nat): nat {
    n - n / (batch + 1)
  }

  /** A block of batch+1 rows has `batch` survivors, and a part of one that leaves out its last row has no other. */
  lemma BlockCount(p: nat, batch: nat)
    requires Boundary(p, batch)
    ensures SurvivorsBelow(p + batch + 1, batch) == SurvivorsBelow(p, batch) + batch
  {
    var b := batch + 1;
    var q := p / b;
    assert p + b == (q + 1) * b + 0;
    DivModUnique(p + b, q + 1, 0, b);
  }

  lemma PartCount(p: nat, n: nat, batch: nat)
    requires Boundary(p, batch) && p <= n <= p + batch
    ensures SurvivorsBelow(n, batch) == SurvivorsBelow(p, batch) + (n - p)
  {
    var b := batch + 1;
    DivModUnique(n, p / b, n - p, b);
  }

  lemma DivStep(n: nat, b: nat)
    requires b >= 2
    ensures (n + 1) / b == n / b + if (n + 1) % b == 0 then 1 else 0
  {
    var q, r := n / b, n % b;
    if r + 1 < b {
      DivModUnique(n + 1, q, r + 1, b);
    } else {
      assert (q + 1) * b == q * b + b;
      DivModUnique(n + 1, q + 1, 0, b);
    }
  }

  lemma {:induction false} SurvivorCount(src: seq<Row>, lo: nat, batch: nat)
    requires batch >= 1 && lo <= |src|
    ensures |Survivors(src, lo, batch)| == (|src| - |src| / (batch + 1)) - (lo - lo / (batch + 1))
    decreases |src| - lo
  {
    if lo == |src| {
    } else {
      SurvivorCount(src, lo + 1, batch);
      DivStep(lo, batch + 1);
    }
  }

  lemma {:induction false} SurvivorMembers(src: seq<Row>, lo: nat, batch: nat, r: Row)
    requires lo <= |src|
    ensures r in Survivors(src, lo, batch) <==> exists i :: lo <= i < |src| && Survives(i, batch) && src[i] == r
    decreases |src| - lo
  {
    if lo == |src| {
    } else {
      SurvivorMembers(src, lo + 1, batch, r);
      if r == src[lo] && Survives(lo, batch) { assert src[lo] == r; }
    }
  }

  lemma SurvivorHeld(cfg: Config, batch: nat, i: nat)
    requires ValidConfig(cfg) && InjectiveKeys(cfg) && i < |cfg.src| && cfg.convert(cfg.src[i]).Success?
    requires ConvertAll(cfg, Survivors(cfg.src, 0, batch)).Success?
    ensures Held(cfg, UpsertAll(map[], Sent(cfg, Survivors(cfg.src, 0, batch))), cfg.src[i]) <==> Survives(i, batch)
  {
    var kept := Survivors(cfg.src, 0, batch);
    forall r | r in kept ensures exists j :: 0 <= j < |cfg.src| && Survives(j, batch) && cfg.src[j] == r {
      SurvivorMembers(cfg.src, 0, batch, r);
    }
    if Survives(i, batch) {
      SurvivorMembers(cfg.src, 0, batch, cfg.src[i]);
      WriteIsSafe(cfg, map[], kept);
    } else {
      NotSent(cfg, kept, i);
    }
  }

  /** A row that is not in the batch and has a key of its own is not in the target afterwards. */
  lemma NotSent(cfg: Config, rows: seq<Row>, i: nat)
    requires InjectiveKeys(cfg) && i < |cfg.src| && cfg.convert(cfg.src[i]).Success?
    requires forall r :: r in rows ==> exists j :: 0 <= j < |cfg.src| && j != i && cfg.src[j] == r
    ensures !Held(cfg, UpsertAll(map[], Sent(cfg, rows)), cfg.src[i])
  {
    var y := cfg.convert(cfg.src[i]).value;
    var t := UpsertAll(map[], Sent(cfg, rows));
    if Holds(t, y) {
      UpsertOnlyAdds(map[], Sent(cfg, rows), y.key);
      OtherRowsDiffer(cfg, i, rows, y);
    }
  }

  /** What fetched-extra paging with batch B leaves in an empty target, and what it counts. */
  ghost predicate ExactLoss(cfg: Config, batch: nat, s: State) {
    && (forall i :: 0 <= i < |cfg.src| && cfg.convert(cfg.src[i]).Success? ==>
         (Held(cfg, s.table, cfg.src[i]) <==> Survives(i, batch)))
    && s.ckpt == Completed(|cfg.src| - |cfg.src| / (batch + 1))
  }

  lemma ReadingSurvivorsIsTheLoss(cfg: Config, batch: nat, s: State)
    requires ValidConfig(cfg) && cfg.choice.FetchedExtra? && InjectiveKeys(cfg) && batch >= 1
    requires var rows := RowsRead(cfg, INITIAL, batch);
             && ConvertAll(cfg, rows).Success?
             && s.table == UpsertAll(map[], Sent(cfg, rows)) && s.ckpt == Completed(|rows|)
    ensures ExactLoss(cfg, batch, s)
  {
    FetchedExtraReadsSurvivors(cfg.src, 0, batch);
    SurvivorCount(cfg.src, 0, batch);
    forall i | 0 <= i < |cfg.src| && cfg.convert(cfg.src[i]).Success?
      ensures Held(cfg, s.table, cfg.src[i]) <==> Survives(i, batch)
    {
      SurvivorHeld(cfg, batch, i);
    }
  }

  /** The exact loss of the code's cursor: an uninterrupted run with batch B over an empty target copies
      row i iff (i+1) mod (B+1) != 0, and records N - N div (B+1) rows as the complete table. */
  lemma FetchedExtraLosesExactly(cfg: Config, tr: seq<State>, acts: seq<Action>, batch: nat)
    requires ValidConfig(cfg) && cfg.choice.FetchedExtra? && InjectiveKeys(cfg) && batch >= 1
    requires Uninterrupted(cfg, tr, acts, batch) && tr[0] == INITIAL && tr[|acts|].ckpt.Completed?
    ensures ExactLoss(cfg, batch, tr[|acts|])
  {
    UninterruptedOutcome(cfg, tr, acts, batch);
    ReadingSurvivorsIsTheLoss(cfg, batch, tr[|acts|]);
  }

  /** With the cursor of the last kept row the same run copies the whole table. */
  lemma KeptLastCopiesAll(cfg: Config, tr: seq<State>, acts: seq<Action>, batch: nat)
    requires ValidConfig(cfg) && cfg.choice.KeptLast? && batch >= 1
    requires Uninterrupted(cfg, tr, acts, batch) && tr[0] == INITIAL && tr[|acts|].ckpt.Completed?
    ensures tr[|acts|].table == Converted(cfg) && tr[|acts|].ckpt == Completed(|cfg.src|)
  {
    UninterruptedOutcome(cfg, tr, acts, batch);
    KeptLastStreamIsComplete(cfg.src, 0, batch);
  }
}
