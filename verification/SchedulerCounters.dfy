/**
  The two shared counters over any run: what `queue_length` adds up, and what raises and lowers `worker_state`.
 */
module SchedulerCounters {
  import opened Widths
  import opened Scheduler
  import opened SchedulerInvariant
  import opened SchedulerLoad
  import opened SchedulerIdle
  import opened SchedulerReplies

  // ----- queue_length -----

  /** A new request counted for queue `c`: 1 in Horus, its microseconds in track_us. */
  ghost function Adds(cfg: Config, s: State, a: Action, c: nat): nat
    requires Enabled(cfg, s, a)
  {
    if a.Dispatch? && s.d.NetCount? && s.types[s.d.k] == c then
      if cfg.variant.Horus? then 1 else s.reqs[s.d.k].us
    else 0
  }

  /** The same for a task that is finished. */
  ghost function Takes(cfg: Config, s: State, a: Action, c: nat): nat
    requires Enabled(cfg, s, a)
  {
    if a.Dispatch? && s.d.FinishCount? && s.w[s.d.i].slot.port == c then
      if cfg.variant.Horus? then 1 else s.w[s.d.i].slot.req.us
    else 0
  }

  ghost function Added(cfg: Config, s: State, run: seq<Action>, c: nat): nat
    decreases |run|
  {
    if |run| == 0 || !Enabled(cfg, s, run[0]) then 0
    else Adds(cfg, s, run[0], c) + Added(cfg, Next(cfg, s, run[0]), run[1..], c)
  }

  ghost function TakenOff(cfg: Config, s: State, run: seq<Action>, c: nat): nat
    decreases |run|
  {
    if |run| == 0 || !Enabled(cfg, s, run[0]) then 0
    else Takes(cfg, s, run[0], c) + TakenOff(cfg, Next(cfg, s, run[0]), run[1..], c)
  }

  lemma DeltaAmounts(cfg: Config, s: State, a: Action, c: nat)
    requires WorkersOk(cfg, s) && Enabled(cfg, s, a)
    ensures Delta(cfg, s, a, c) == Adds(cfg, s, a, c) - Takes(cfg, s, a, c)
  {
    if s.d.FinishCount? { assert WorkerOk(cfg, s.d, s.w[s.d.i], s.d.i); }
  }

  lemma LoadStep(cfg: Config, s: State, a: Action, c: nat)
    requires Inv(cfg, s) && Enabled(cfg, s, a) && c < cfg.ports
    ensures Inv(cfg, Next(cfg, s, a)) && Shape(cfg, s) && Shape(cfg, Next(cfg, s, a))
    ensures Load(cfg, Next(cfg, s, a), c) == Load(cfg, s, c) + Adds(cfg, s, a, c) - Takes(cfg, s, a, c)
  {
    StepKeepsInv(cfg, s, a);
    StepCarries(cfg, s, a, c);
    DeltaAmounts(cfg, s, a, c);
  }

  lemma {:induction false} LoadFrom(cfg: Config, s: State, run: seq<Action>, t: State, c: nat)
    requires Inv(cfg, s) && RunsTo(cfg, s, run, t) && c < cfg.ports
    ensures Shape(cfg, s) && Shape(cfg, t)
    ensures Load(cfg, t, c) == Load(cfg, s, c) + Added(cfg, s, run, c) - TakenOff(cfg, s, run, c)
    decreases |run|
  {
    if |run| > 0 {
      LoadStep(cfg, s, run[0], c);
      LoadFrom(cfg, Next(cfg, s, run[0]), run[1..], t, c);
    }
  }

  lemma NoLoadYet(cfg: Config, s: State, c: nat)
    requires Initial(cfg, s) && c < cfg.ports
    ensures Load(cfg, s, c) == 0
  {
    NoSlotsLoad(cfg, s.w, c, |s.w|);
  }

  lemma StartsInv(cfg: Config, s: State)
    requires Initial(cfg, s)
    ensures Inv(cfg, s)
  {
    InitialStructure(cfg, s);
    InitialLoad(cfg, s);
    if cfg.variant.Horus? { InitialIdle(cfg, s); }
  }

  lemma CounterIs(cfg: Config, t: State, c: nat)
    requires Inv(cfg, t) && c < cfg.ports
    ensures c < |t.qlen| && c < |t.tskq| && t.qlen[c] == Load(cfg, t, c) % 0x1_0000_0000
  {
  }

  /** `queue_length` is, modulo 2^32, what was counted in less what was counted out since the start: requests in Horus,
      microseconds in track_us, and nothing for a task that is preempted and dispatched again. */
  lemma CounterOverRun(cfg: Config, s: State, run: seq<Action>, t: State, c: nat)
    requires Initial(cfg, s) && RunsTo(cfg, s, run, t) && c < cfg.ports
    ensures c < |t.qlen| && c < |t.tskq| && Load(cfg, t, c) == Added(cfg, s, run, c) - TakenOff(cfg, s, run, c)
    ensures t.qlen[c] == (Added(cfg, s, run, c) - TakenOff(cfg, s, run, c)) % 0x1_0000_0000
  {
    StartsInv(cfg, s);
    NoLoadYet(cfg, s, c);
    LoadFrom(cfg, s, run, t, c);
    RunKeepsInv(cfg, s, run, t);
    CounterIs(cfg, t, c);
  }

  // ----- worker_state -----

  /** A request for which the leaf scheduler took the worker off its idle list. */
  ghost predicate Raises(cfg: Config, s: State, a: Action, c: nat)
    requires Enabled(cfg, s, a)
  {
    a.Dispatch? && s.d.NetState? && s.types[s.d.k] == c && s.reqs[s.d.k].idle
  }

  /** The worker starts up, or the dispatcher finishes its last task. */
  ghost predicate Lowers(s: State, a: Action, c: nat)
  {
    (a.Work? && a.i == c && c < |s.w| && s.w[c].pc == StartState) || (a.Dispatch? && s.d == FinishLower(c))
  }

  /** Whether the last of these in the run was the first kind; `was` if there is none. */
  ghost predicate RaisedLast(cfg: Config, s: State, run: seq<Action>, c: nat, was: bool)
    decreases |run|
  {
    if |run| == 0 || !Enabled(cfg, s, run[0]) then was
    else
      RaisedLast(cfg, Next(cfg, s, run[0]), run[1..], c,
                 Raises(cfg, s, run[0], c) || (was && !Lowers(s, run[0], c)))
  }

  lemma NetStateStep(cfg: Config, s: State, a: Action, c: nat)
    requires Enabled(cfg, s, a) && cfg.variant.Horus? && a.Dispatch? && s.d.NetState? && c < cfg.ports
    ensures c < |Next(cfg, s, a).wstate|
    ensures Next(cfg, s, a).wstate[c] == if Raises(cfg, s, a, c) && s.wstate[c] == 0 then 1 else s.wstate[c]
  {
  }

  lemma LowerStep(cfg: Config, s: State, a: Action, c: nat)
    requires Enabled(cfg, s, a) && a.Dispatch? && s.d.FinishLower? && c < cfg.ports
    requires s.w[s.d.i].response.port == s.d.i
    ensures c < |Next(cfg, s, a).wstate|
    ensures Next(cfg, s, a).wstate[c] == if s.d == FinishLower(c) then s.wstate[c] - 1 else s.wstate[c]
  {
  }

  lemma WorkStep(cfg: Config, s: State, a: Action, c: nat)
    requires Enabled(cfg, s, a) && cfg.variant.Horus? && !a.Dispatch? && c < cfg.ports
    ensures c < |Next(cfg, s, a).wstate|
    ensures Next(cfg, s, a).wstate[c] == if Lowers(s, a, c) then 0 else s.wstate[c]
  {
  }

  lemma QuietStep(cfg: Config, s: State, a: Action)
    requires Enabled(cfg, s, a) && a.Dispatch? && !s.d.NetState? && !s.d.FinishLower?
    ensures Next(cfg, s, a).wstate == s.wstate
  {
  }

  lemma StateStep(cfg: Config, s: State, a: Action, c: nat)
    requires Inv(cfg, s) && cfg.variant.Horus? && Enabled(cfg, s, a) && c < cfg.ports
    ensures c < |s.wstate| && c < |Next(cfg, s, a).wstate|
    ensures Next(cfg, s, a).wstate[c] > 0 <==> Raises(cfg, s, a, c) || (s.wstate[c] > 0 && !Lowers(s, a, c))
  {
    if !a.Dispatch? {
      WorkStep(cfg, s, a, c);
    } else if s.d.NetState? {
      NetStateStep(cfg, s, a, c);
    } else if s.d.FinishLower? {
      OwnResponse(cfg, s, s.d.i);
      LowerStep(cfg, s, a, c);
    } else {
      QuietStep(cfg, s, a);
    }
  }

  lemma {:induction false} StateFrom(cfg: Config, s: State, run: seq<Action>, t: State, c: nat)
    requires Inv(cfg, s) && cfg.variant.Horus? && RunsTo(cfg, s, run, t) && c < cfg.ports
    ensures c < |s.wstate| && c < |t.wstate| && t.wstate[c] <= 1
    ensures t.wstate[c] > 0 <==> RaisedLast(cfg, s, run, c, s.wstate[c] > 0)
    decreases |run|
  {
    if |run| > 0 {
      StateStep(cfg, s, run[0], c);
      StepKeepsInv(cfg, s, run[0]);
      StateFrom(cfg, Next(cfg, s, run[0]), run[1..], t, c);
    }
  }

  /** A worker's state is 1 exactly when a request marked idle came for it since the worker started up and the
      dispatcher last lowered the state, and 0 otherwise. */
  lemma StateOverRun(cfg: Config, s: State, run: seq<Action>, t: State, c: nat)
    requires Initial(cfg, s) && cfg.variant.Horus? && RunsTo(cfg, s, run, t) && c < cfg.ports
    ensures c < |t.wstate| && t.wstate[c] == if RaisedLast(cfg, s, run, c, false) then 1 else 0
  {
    StartsInv(cfg, s);
    StateFrom(cfg, s, run, t, c);
  }
}
