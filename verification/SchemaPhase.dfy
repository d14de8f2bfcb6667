/** The schema phase of main, over runs that can die between any two statements: is it sound to skip all DDL
    because the state table exists? */
module SchemaPhase {

  datatype Flags = Flags(forceRecreate: bool, dataOnly: bool, schemaOnly: bool)

  /** Where a run is: before statement i of a loop, or past it. */
  datatype Pc =
    | Idle
    | Dropping(i: nat)
    | Creating(i: nat)
    | Altering(i: nat)
    | Ensuring
    | Ready

  /** Tables with an AUTO_INCREMENT value to carry over get their sequence set by a second statement. */
  datatype Config = Config(tables: seq<string>, sequenced: set<string>)

  datatype State = State(pc: Pc, flags: Flags, exist: set<string>, sequences: set<string>, stateTable: bool)

  datatype Action =
    | Start(flags: Flags)
    | DropTable
    | DropState
    | CreateTable
    | AlterSequence
    | CreateState
    | EnsureState
    | Exit
    | Crash

  ghost predicate ValidConfig(cfg: Config) {
    forall i, j :: 0 <= i < j < |cfg.tables| ==> cfg.tables[i] != cfg.tables[j]
  }

  predicate Intact(cfg: Config, s: State, t: string) {
    t in s.exist && (t in cfg.sequenced ==> t in s.sequences)
  }

  predicate Complete(cfg: Config, s: State) {
    forall i :: 0 <= i < |cfg.tables| ==> Intact(cfg, s, cfg.tables[i])
  }

  /** The first statement of a run, by its flags and the state table it finds. */
  function FirstPc(s: State, f: Flags): Pc {
    if f.forceRecreate && !f.dataOnly then Dropping(0)
    else if !f.dataOnly && !s.stateTable then Creating(0)
    else Ensuring
  }

  predicate Next(cfg: Config, s: State, a: Action, s': State) {
    match a
    case Start(f) => s.pc == Idle && s' == s.(pc := FirstPc(s, f), flags := f)
    case DropTable =>
      && s.pc.Dropping? && s.pc.i < |cfg.tables|
      && s' == s.(pc := Dropping(s.pc.i + 1), exist := s.exist - {cfg.tables[s.pc.i]},
                  sequences := s.sequences - {cfg.tables[s.pc.i]})
    case DropState => s.pc == Dropping(|cfg.tables|) && s' == s.(pc := Creating(0), stateTable := false)
    case CreateTable =>
      && s.pc.Creating? && s.pc.i < |cfg.tables|
      && s' == s.(pc := if cfg.tables[s.pc.i] in cfg.sequenced then Altering(s.pc.i) else Creating(s.pc.i + 1),
                  exist := s.exist + {cfg.tables[s.pc.i]})
    case AlterSequence =>
      && s.pc.Altering? && s.pc.i < |cfg.tables|
      && s' == s.(pc := Creating(s.pc.i + 1), sequences := s.sequences + {cfg.tables[s.pc.i]})
    case CreateState => s.pc == Creating(|cfg.tables|) && s' == s.(pc := Ensuring, stateTable := true)
    case EnsureState => s.pc == Ensuring && !s.flags.schemaOnly && s' == s.(pc := Ready, stateTable := true)
    case Exit => (s.pc == Ready || (s.pc == Ensuring && s.flags.schemaOnly)) && s' == s.(pc := Idle)
    case Crash => s.pc != Idle && s' == s.(pc := Idle)
  }

  /** The state table vouches for the user tables, except while they are being dropped; a transfer finds them
      all. */
  ghost predicate Sound(cfg: Config, s: State) {
    match s.pc
    case Idle => s.stateTable ==> Complete(cfg, s)
    case Dropping(n) =>
      && n <= |cfg.tables|
      && (forall i :: 0 <= i < n ==> cfg.tables[i] !in s.exist)
      && (s.stateTable ==> forall i :: n <= i < |cfg.tables| ==> Intact(cfg, s, cfg.tables[i]))
    case Creating(n) =>
      && n <= |cfg.tables| && !s.stateTable
      && (forall i :: 0 <= i < n ==> Intact(cfg, s, cfg.tables[i]))
    case Altering(n) =>
      && n < |cfg.tables| && !s.stateTable && cfg.tables[n] in s.exist
      && (forall i :: 0 <= i < n ==> Intact(cfg, s, cfg.tables[i]))
    case Ensuring => if s.flags.dataOnly then s.stateTable ==> Complete(cfg, s) else s.stateTable && Complete(cfg, s)
    case Ready => s.stateTable && Complete(cfg, s)
  }

  /** What must not happen: dying in the drop loop after a table and before the state table is gone, and a
      -data-only run on an incomplete schema. */
  ghost predicate Allowed(cfg: Config, s: State, a: Action) {
    match a
    case Crash => s.pc.Dropping? && s.pc.i > 0 ==> !s.stateTable
    case EnsureState => s.flags.dataOnly ==> Complete(cfg, s)
    case _ => true
  }

  lemma DropKeeps(cfg: Config, s: State, s': State)
    requires ValidConfig(cfg) && Sound(cfg, s) && Next(cfg, s, DropTable, s')
    ensures Sound(cfg, s')
  {
    var n := s.pc.i;
    forall i | n < i < |cfg.tables| && s.stateTable ensures Intact(cfg, s', cfg.tables[i]) {
      assert Intact(cfg, s, cfg.tables[i]) && cfg.tables[i] != cfg.tables[n];
    }
  }

  lemma CreateKeeps(cfg: Config, s: State, a: Action, s': State)
    requires Sound(cfg, s) && Next(cfg, s, a, s') && (a.CreateTable? || a.AlterSequence? || a.CreateState?)
    ensures Sound(cfg, s')
  {
    forall i | 0 <= i < s.pc.i ensures Intact(cfg, s', cfg.tables[i]) {
      assert Intact(cfg, s, cfg.tables[i]);
    }
  }

  /** Dying after i drops leaves the state table without the first table it vouches for. */
  lemma CrashWhileDropping(cfg: Config, s: State, s': State)
    requires Sound(cfg, s) && Next(cfg, s, Crash, s') && s.pc.Dropping?
    ensures Sound(cfg, s') <==> Allowed(cfg, s, Crash)
  {
    if s.pc.i > 0 && s.stateTable {
      assert !Intact(cfg, s', cfg.tables[0]);
    } else if s.stateTable {
      assert forall i :: 0 <= i < |cfg.tables| ==> Intact(cfg, s, cfg.tables[i]) ==> Intact(cfg, s', cfg.tables[i]);
    }
  }

  /** Every other statement, and dying anywhere else, keeps the schema sound: exactly the steps that are not
      allowed break it. */
  lemma StepKeepsSoundExactly(cfg: Config, s: State, a: Action, s': State)
    requires ValidConfig(cfg) && Sound(cfg, s) && Next(cfg, s, a, s')
    ensures Sound(cfg, s') <==> Allowed(cfg, s, a)
  {
    match a
    case DropTable => DropKeeps(cfg, s, s');
    case CreateTable => CreateKeeps(cfg, s, a, s');
    case AlterSequence => CreateKeeps(cfg, s, a, s');
    case CreateState => CreateKeeps(cfg, s, a, s');
    case Crash => if s.pc.Dropping? { CrashWhileDropping(cfg, s, s'); } else { SameTables(cfg, s, s'); }
    case _ => SameTables(cfg, s, s');
  }

  lemma SameTables(cfg: Config, s: State, s': State)
    requires s'.exist == s.exist && s'.sequences == s.sequences
    ensures forall t :: Intact(cfg, s', t) == Intact(cfg, s, t)
    ensures Complete(cfg, s') == Complete(cfg, s)
  {
    forall t ensures Intact(cfg, s', t) == Intact(cfg, s, t) {}
  }

  // Runs.

  ghost predicate IsRun(cfg: Config, states: seq<State>, acts: seq<Action>) {
    && |states| == |acts| + 1
    && forall i :: 0 <= i < |acts| ==> Next(cfg, states[i], acts[i], states[i + 1])
  }

  ghost predicate AllAllowed(cfg: Config, states: seq<State>, acts: seq<Action>)
    requires |states| == |acts| + 1
  {
    forall i :: 0 <= i < |acts| ==> Allowed(cfg, states[i], acts[i])
  }

  lemma {:induction false} RunsStaySound(cfg: Config, states: seq<State>, acts: seq<Action>, n: nat)
    requires ValidConfig(cfg) && IsRun(cfg, states, acts) && AllAllowed(cfg, states, acts)
    requires Sound(cfg, states[0]) && n <= |acts|
    ensures Sound(cfg, states[n])
  {
    if n == 0 {
    } else {
      RunsStaySound(cfg, states, acts, n - 1);
      StepKeepsSoundExactly(cfg, states[n - 1], acts[n - 1], states[n]);
    }
  }

  /** Skipping DDL is sound: over any number of runs and crashes, none of them inside a drop loop that has begun
      and none with -data-only, a transfer starts only with every listed table in place. */
  lemma TransfersFindEveryTable(cfg: Config, states: seq<State>, acts: seq<Action>, n: nat)
    requires ValidConfig(cfg) && IsRun(cfg, states, acts) && n <= |acts|
    requires states[0].pc == Idle && !states[0].stateTable
    requires forall i :: 0 <= i < |acts| && acts[i].Start? ==> !acts[i].flags.dataOnly
    requires forall i :: 0 <= i < |acts| && acts[i].Crash? ==> !states[i].pc.Dropping? || states[i].pc.i == 0
    ensures states[n].pc == Ready ==> Complete(cfg, states[n])
    ensures states[n].pc == Idle && states[n].stateTable ==> Complete(cfg, states[n])
  {
    forall i | 0 <= i < |acts| ensures Allowed(cfg, states[i], acts[i]) {
      assert Next(cfg, states[i], acts[i], states[i + 1]);
      FlagsOfRun(cfg, states, acts, i);
    }
    RunsStaySound(cfg, states, acts, n);
  }

  /** A run works with the flags it was started with. */
  lemma {:induction false} FlagsOfRun(cfg: Config, states: seq<State>, acts: seq<Action>, n: nat)
    requires IsRun(cfg, states, acts) && n <= |acts|
    requires states[0].pc == Idle
    requires forall i :: 0 <= i < |acts| && acts[i].Start? ==> !acts[i].flags.dataOnly
    ensures states[n].pc != Idle ==> !states[n].flags.dataOnly
  {
    if n == 0 {
    } else {
      FlagsOfRun(cfg, states, acts, n - 1);
      assert Next(cfg, states[n - 1], acts[n - 1], states[n]);
    }
  }

  // What a broken schema comes to.

  /** The state table vouches for a table that is not there. */
  ghost predicate Lost(s: State, t: string) {
    s.stateTable && t !in s.exist && (s.pc == Idle || s.pc == Ensuring || s.pc == Ready)
  }

  /** The start of a run that recreates the schema. */
  predicate Recreates(a: Action) {
    a.Start? && a.flags.forceRecreate && !a.flags.dataOnly
  }

  /** Only a -force-recreate brings a lost table back. */
  lemma {:induction false} LostStaysLost(cfg: Config, states: seq<State>, acts: seq<Action>, n: nat, t: string)
    requires IsRun(cfg, states, acts) && n <= |acts| && Lost(states[0], t)
    requires forall i :: 0 <= i < |acts| ==> !Recreates(acts[i])
    ensures Lost(states[n], t)
  {
    if n == 0 {
    } else {
      LostStaysLost(cfg, states, acts, n - 1, t);
      assert Next(cfg, states[n - 1], acts[n - 1], states[n]);
    }
  }

  /** After a -force-recreate that died behind a drop and before the state table was gone, the dropped tables
      are missing in every later state, transfers included, until a -force-recreate. */
  lemma InterruptedDropIsNeverRepaired(cfg: Config, s: State, states: seq<State>, acts: seq<Action>, n: nat, i: nat)
    requires Sound(cfg, s) && s.pc.Dropping? && s.stateTable && i < s.pc.i
    requires IsRun(cfg, states, acts) && Next(cfg, s, Crash, states[0]) && n <= |acts|
    requires forall j :: 0 <= j < |acts| ==> !Recreates(acts[j])
    ensures states[n].stateTable && cfg.tables[i] !in states[n].exist
  {
    LostStaysLost(cfg, states, acts, n, cfg.tables[i]);
  }

  /** After a -data-only run that created the state table, so are the tables that did not exist. */
  lemma DataOnlyFirstIsNeverRepaired(cfg: Config, s: State, states: seq<State>, acts: seq<Action>, n: nat, t: string)
    requires s.pc == Ensuring && s.flags.dataOnly && t !in s.exist
    requires IsRun(cfg, states, acts) && Next(cfg, s, EnsureState, states[0]) && n <= |acts|
    requires forall j :: 0 <= j < |acts| ==> !Recreates(acts[j])
    ensures states[n].stateTable && t !in states[n].exist
  {
    LostStaysLost(cfg, states, acts, n, t);
  }

  /** Both happen, and an ordinary run then gets as far as the transfer: from any finished schema, and on a
      database without tables. */
  lemma ADroppedTableIsTransferred(cfg: Config, s: State) returns (states: seq<State>, acts: seq<Action>)
    requires cfg.tables != [] && s.pc == Idle && s.stateTable && Complete(cfg, s)
    ensures IsRun(cfg, states, acts) && states[0] == s
    ensures states[|acts|].pc == Ready && cfg.tables[0] !in states[|acts|].exist
  {
    var force, plain := Flags(true, false, false), Flags(false, false, false);
    var s1 := s.(pc := Dropping(0), flags := force);
    var s2 := s1.(pc := Dropping(1), exist := s.exist - {cfg.tables[0]}, sequences := s.sequences - {cfg.tables[0]});
    var s3 := s2.(pc := Idle);
    var s4 := s3.(pc := Ensuring, flags := plain);
    var s5 := s4.(pc := Ready);
    states := [s, s1, s2, s3, s4, s5];
    acts := [Start(force), DropTable, Crash, Start(plain), EnsureState];
  }

  lemma ATableNeverCreatedIsTransferred(cfg: Config, s: State) returns (states: seq<State>, acts: seq<Action>)
    requires cfg.tables != [] && s.pc == Idle && !s.stateTable && cfg.tables[0] !in s.exist
    ensures IsRun(cfg, states, acts) && states[0] == s
    ensures states[|acts|].pc == Ready && !states[|acts|].flags.dataOnly && cfg.tables[0] !in states[|acts|].exist
  {
    var data, plain := Flags(false, true, false), Flags(false, false, false);
    var s1 := s.(pc := Ensuring, flags := data);
    var s2 := s1.(pc := Ready, stateTable := true);
    var s3 := s2.(pc := Idle);
    var s4 := s3.(pc := Ensuring, flags := plain);
    var s5 := s4.(pc := Ready);
    states := [s, s1, s2, s3, s4, s5];
    acts := [Start(data), EnsureState, Exit, Start(plain), EnsureState];
  }
}
