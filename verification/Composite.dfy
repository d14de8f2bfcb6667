/** Tables with a composite primary key under the code's positional arguments: the first page can be
    read, no later one can. */
module Composite {
  import opened Source
  import opened Pipeline
  import opened Completion

  /** A producer that has not reached, and cannot reach, the end of the table. */
  ghost predicate ShortOfTheEnd(w: Worker) {
    && (w.prod.Sending? ==> w.prod.msg.next.After?)
    && !w.prod.Closing? && !w.prod.Closed?
    && (forall m :: m in w.ch ==> m.next.After?)
    && (forall m :: m in InHand(w.cons) ==> m.next.After?)
    && !w.cons.Drained?
  }

  ghost predicate NeverDone(cfg: Config, s: State) {
    && !s.ckpt.Completed?
    && (s.ckpt.InProgress? ==> s.ckpt.cursor.After?)
    && (s.proc.Up? ==> 1 <= s.proc.w.batch <= cfg.maxBatch && ShortOfTheEnd(s.proc.w))
  }

  lemma StepKeepsNeverDone(cfg: Config, s: State, a: Action, s': State)
    requires cfg.binding.Positional? && cfg.pkWidth >= 2 && cfg.maxBatch < |cfg.src|
    requires NeverDone(cfg, s) && Next(cfg, s, a, s')
    ensures NeverDone(cfg, s')
  {}

  lemma {:induction false} RunKeepsNeverDone(cfg: Config, tr: seq<State>, acts: seq<Action>, i: nat)
    requires cfg.binding.Positional? && cfg.pkWidth >= 2 && cfg.maxBatch < |cfg.src|
    requires Run(cfg, tr, acts) && tr[0] == INITIAL && i <= |acts|
    ensures NeverDone(cfg, tr[i])
  {
    if i == 0 {
    } else {
      RunKeepsNeverDone(cfg, tr, acts, i - 1);
      StepKeepsNeverDone(cfg, tr[i - 1], acts[i - 1], tr[i]);
    }
  }

  /** With positional arguments and a composite key, some run completes the table if and only if the
      table fits into the largest batch a process may use. */
  lemma CompositeCompletesIffOnePage(cfg: Config)
    requires ValidConfig(cfg) && cfg.binding.Positional? && cfg.pkWidth >= 2 && AllConvertible(cfg)
    ensures (exists s: State :: Reachable(cfg, s) && s.ckpt.Completed?) <==> |cfg.src| <= cfg.maxBatch
  {
    if |cfg.src| <= cfg.maxBatch {
      var s1 := Begun(INITIAL, cfg.maxBatch);
      ReachesSelf(cfg, INITIAL);
      ReachesThenStep(cfg, INITIAL, INITIAL, Start(cfg.maxBatch, false), s1);
      FaultFreeRunCompletes(cfg, INITIAL, s1, Top);
    } else if s: State :| Reachable(cfg, s) && s.ckpt.Completed? {
      var tr, acts :| Run(cfg, tr, acts) && tr[0] == INITIAL && tr[|acts|] == s;
      RunKeepsNeverDone(cfg, tr, acts, |acts|);
    }
  }
}
