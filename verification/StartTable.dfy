/** Runs over a target that is not empty at first, as after -data-only: each is a run over an empty target with the
    first content underneath. */
module StartTable {
  import opened Values
  import opened Upsert
  import opened Pipeline
  import opened Resume
  import opened Completion

  /** The state with t0 put under its tables. */
  function Over(t0: Table, s: State): State {
    s.(table := t0 + s.table,
       proc := if s.proc.Down? then Down else Up(s.proc.w.(startTable := t0 + s.proc.w.startTable)))
  }

  function StartOver(t0: Table): State {
    INITIAL.(table := t0)
  }

  lemma UpsertOver(t0: Table, t: Table, rows: seq<YRow>)
    ensures UpsertAll(t0 + t, rows) == t0 + UpsertAll(t, rows)
  {
    UpsertIsOverlay(t0 + t, rows);
    UpsertIsOverlay(t, rows);
    assert (t0 + t) + UpsertAll(map[], rows) == t0 + (t + UpsertAll(map[], rows));
  }

  /** What a failed write over t0 leaves of the chunk, without t0. */
  function LeftAlone(t0: Table, t: Table, left: Table): Table {
    map k | k in left && (k in t || !(k in t0 && left[k] == t0[k])) :: left[k]
  }

  lemma PartOver(t0: Table, t: Table, rows: seq<YRow>, left: Table)
    requires Partial(t0 + t, rows, left)
    ensures Partial(t, rows, LeftAlone(t0, t, left)) && left == t0 + LeftAlone(t0, t, left)
  {
    assert (t0 + t).Keys == t0.Keys + t.Keys;
  }

  lemma PartUnder(t0: Table, t: Table, rows: seq<YRow>, left: Table)
    requires Partial(t, rows, left)
    ensures Partial(t0 + t, rows, t0 + left)
  {}

  function StartTableOf(s: State): Table {
    match s.proc
    case Down => map[]
    case Up(w) => w.startTable
  }

  /** u with the tables of s. */
  function WithTablesOf(u: State, s: State): State {
    u.(table := s.table,
       proc := match u.proc case Down => Down case Up(w) => Up(w.(startTable := StartTableOf(s))))
  }

  /** Steps that leave the tables alone. */
  lemma PlainStepOver(cfg: Config, t0: Table, s: State, a: Action, u: State)
    requires Next(cfg, Over(t0, s), a, u) && !a.Write? && !a.WriteFail? && !a.Start?
    ensures Next(cfg, s, a, WithTablesOf(u, s)) && u == Over(t0, WithTablesOf(u, s))
  {}

  lemma WriteStepOver(cfg: Config, t0: Table, s: State, u: State) returns (s': State)
    requires Next(cfg, Over(t0, s), Write, u)
    ensures Next(cfg, s, Write, s') && u == Over(t0, s')
  {
    s' := Stored(cfg, s, s.proc.w.cons.msg);
    UpsertOver(t0, s.table, Sent(cfg, s.proc.w.cons.msg.rows));
  }

  lemma WriteFailStepOver(cfg: Config, t0: Table, s: State, left: Table, u: State) returns (part: Table, s': State)
    requires Next(cfg, Over(t0, s), WriteFail(left), u)
    ensures Next(cfg, s, WriteFail(part), s') && u == Over(t0, s')
  {
    var w := s.proc.w;
    part := LeftAlone(t0, s.table, left);
    PartOver(t0, s.table, Sent(cfg, w.cons.msg.rows), left);
    s' := s.(proc := Up(w.(cons := Broken(w.cons.msg))), table := part);
  }

  /** A step over t0 is a step over nothing. */
  lemma StepOver(cfg: Config, t0: Table, s: State, a: Action, u: State) returns (b: Action, s': State)
    requires Next(cfg, Over(t0, s), a, u)
    ensures Next(cfg, s, b, s') && u == Over(t0, s')
  {
    match a
    case Write =>
      b := a;
      s' := WriteStepOver(cfg, t0, s, u);
    case WriteFail(left) =>
      var part, after := WriteFailStepOver(cfg, t0, s, left, u);
      b, s' := WriteFail(part), after;
    case Start(batch, _) =>
      b, s' := a, Begun(s, batch);
    case _ =>
      PlainStepOver(cfg, t0, s, a, u);
      b, s' := a, WithTablesOf(u, s);
  }

  /** And the other way around. */
  lemma StepUnder(cfg: Config, t0: Table, s: State, a: Action, s': State) returns (b: Action)
    requires Next(cfg, s, a, s')
    ensures Next(cfg, Over(t0, s), b, Over(t0, s'))
  {
    match a
    case Write =>
      b := a;
      UpsertOver(t0, s.table, Sent(cfg, s.proc.w.cons.msg.rows));
    case WriteFail(left) =>
      b := WriteFail(t0 + left);
      PartUnder(t0, s.table, Sent(cfg, s.proc.w.cons.msg.rows), left);
    case _ =>
      b := a;
  }

  lemma {:induction false} RunOver(cfg: Config, t0: Table, tr: seq<State>, acts: seq<Action>, n: nat) returns (s: State)
    requires Run(cfg, tr, acts) && tr[0] == StartOver(t0) && n <= |acts|
    ensures Reachable(cfg, s) && tr[n] == Over(t0, s)
  {
    if n == 0 {
      s := INITIAL;
      ReachesSelf(cfg, s);
      assert t0 + map[] == t0;
    } else {
      var before := RunOver(cfg, t0, tr, acts, n - 1);
      var b, after := StepOver(cfg, t0, before, acts[n - 1], tr[n]);
      ReachesThenStep(cfg, INITIAL, before, b, after);
      s := after;
    }
  }

  lemma {:induction false} RunUnder(cfg: Config, t0: Table, tr: seq<State>, acts: seq<Action>, n: nat)
    requires Run(cfg, tr, acts) && tr[0] == INITIAL && n <= |acts|
    ensures Reaches(cfg, StartOver(t0), Over(t0, tr[n]))
  {
    if n == 0 {
      assert t0 + map[] == t0;
      ReachesSelf(cfg, StartOver(t0));
    } else {
      RunUnder(cfg, t0, tr, acts, n - 1);
      var b := StepUnder(cfg, t0, tr[n - 1], acts[n - 1], tr[n]);
      ReachesThenStep(cfg, StartOver(t0), Over(t0, tr[n - 1]), b, Over(t0, tr[n]));
    }
  }

  /** What can be reached over t0 is what can be reached over nothing, with t0 underneath. */
  lemma ReachableOver(cfg: Config, t0: Table, u: State)
    ensures Reaches(cfg, StartOver(t0), u) <==> exists s :: Reachable(cfg, s) && u == Over(t0, s)
  {
    if Reaches(cfg, StartOver(t0), u) {
      var tr, acts :| Run(cfg, tr, acts) && tr[0] == StartOver(t0) && tr[|acts|] == u;
      var s := RunOver(cfg, t0, tr, acts, |acts|);
    } else if s :| Reachable(cfg, s) && u == Over(t0, s) {
      var tr, acts :| Run(cfg, tr, acts) && tr[0] == INITIAL && tr[|acts|] == s;
      RunUnder(cfg, t0, tr, acts, |acts|);
    }
  }

  /** Completeness over any first content: a completed table is that content with the copy laid over it. */
  lemma CompletedIsExactOver(cfg: Config, t0: Table, u: State)
    requires ValidConfig(cfg) && cfg.choice.KeptLast? && InjectiveKeys(cfg) && NoSkip(cfg)
    requires Reaches(cfg, StartOver(t0), u) && u.ckpt.Completed?
    ensures ConvertAll(cfg, cfg.src).Success? && u.table == t0 + Converted(cfg)
  {
    ReachableOver(cfg, t0, u);
    var s :| Reachable(cfg, s) && u == Over(t0, s);
    CompletedIsExact(cfg, s);
  }

  /** Checkpoint safety over any first content. */
  lemma CheckpointsAreSafeOver(cfg: Config, t0: Table, u: State)
    requires ValidConfig(cfg) && cfg.choice.KeptLast? && InjectiveKeys(cfg) && NoSkip(cfg)
    requires Reaches(cfg, StartOver(t0), u)
    ensures CheckpointSafe(cfg, u)
    ensures exists t: Table :: u.table == t0 + t && FromSource(cfg, t)
  {
    ReachableOver(cfg, t0, u);
    var s :| Reachable(cfg, s) && u == Over(t0, s);
    CheckpointsAreSafe(cfg, s);
    assert u.table == t0 + s.table;
    forall r | r in cfg.src && Held(cfg, s.table, r) ensures Held(cfg, u.table, r) {}
    CheckpointStaysSafe(cfg, s, u);
  }
}
