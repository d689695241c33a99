/**
  From a worker's look at its queue length to the dispatcher's test of it, in Horus: over any run in between, the
  load has lost the worker's own task and gained what was counted in, so that the worker's state is lowered exactly
  when it said it was idle, had no other work when it looked, and none has come since.
 */
module SchedulerSince {
  import opened Scheduler
  import opened SchedulerInvariant
  import opened SchedulerLoad
  import opened SchedulerIdle
  import opened SchedulerReplies
  import opened SchedulerTheorems

  ghost predicate CountsIn(cfg: Config, s: State, a: Action, c: nat)
  {
    a.Dispatch? && s.d.NetCount? && s.d.k < |s.reqs| && s.d.k < |s.types| && s.types[s.d.k] == c
  }

  ghost predicate CountsOut(s: State, a: Action, c: nat)
  {
    a.Dispatch? && s.d == FinishCount(c)
  }

  /** How many requests a run counts into queue `c`. */
  ghost function Came(cfg: Config, s: State, run: seq<Action>, c: nat): nat
    decreases |run|
  {
    if |run| == 0 || !Enabled(cfg, s, run[0]) then 0
    else (if CountsIn(cfg, s, run[0], c) then 1 else 0) + Came(cfg, Next(cfg, s, run[0]), run[1..], c)
  }

  /** How many it counts out. */
  ghost function Gone(cfg: Config, s: State, run: seq<Action>, c: nat): nat
    decreases |run|
  {
    if |run| == 0 || !Enabled(cfg, s, run[0]) then 0
    else (if CountsOut(s, run[0], c) then 1 else 0) + Gone(cfg, Next(cfg, s, run[0]), run[1..], c)
  }

  lemma DeltaIs(cfg: Config, s: State, a: Action, c: nat)
    requires WorkersOk(cfg, s) && cfg.variant.Horus?
    ensures Delta(cfg, s, a, c) == (if CountsIn(cfg, s, a, c) then 1 else 0) - (if CountsOut(s, a, c) then 1 else 0)
  {
    if s.d.FinishCount? { assert WorkerOk(cfg, s.d, s.w[s.d.i], s.d.i); }
  }

  lemma {:induction false} LoadOverRun(cfg: Config, s: State, run: seq<Action>, t: State, c: nat)
    requires Inv(cfg, s) && cfg.variant.Horus? && RunsTo(cfg, s, run, t) && c < cfg.ports
    ensures Shape(cfg, s) && Shape(cfg, t)
    ensures Load(cfg, t, c) == Load(cfg, s, c) + Came(cfg, s, run, c) - Gone(cfg, s, run, c)
    decreases |run|
  {
    if |run| > 0 {
      StepKeepsInv(cfg, s, run[0]);
      StepCarries(cfg, s, run[0], c);
      DeltaIs(cfg, s, run[0], c);
      LoadOverRun(cfg, Next(cfg, s, run[0]), run[1..], t, c);
    }
  }

  // ----- One count out for every finished dispatch -----

  /** Finished dispatches of worker `i` that have been counted out. */
  ghost function Counted(s: State, i: nat): int
    requires i < |s.w|
  {
    s.w[i].finishes +
      if s.d == FinishTest(i) || s.d == FinishLower(i) || s.d == FinishEnqueue(i) || s.d == FinishAck(i) then 1 else 0
  }

  /** A step at which worker `i` is counted out, or not, and its counters grow together. */
  ghost predicate Counting(s: State, t: State, i: nat, out: bool)
  {
    && i < |s.w| == |t.w| && Counted(t, i) == Counted(s, i) + (if out then 1 else 0)
    && t.w[i].handled - t.w[i].finishes >= s.w[i].handled - s.w[i].finishes && t.w[i].finishes >= s.w[i].finishes
  }

  lemma DispatchCounted(cfg: Config, s: State, from: nat, some: bool, i: nat)
    requires DispatchEnabled(cfg, s, from, some) && !AtNetworker(s.d) && i < |s.w|
    ensures Counting(s, DispatchWorker(cfg, s, from, some), i, s.d == FinishCount(i))
  {
  }

  lemma WorkCounted(cfg: Config, s: State, j: nat, preempted: bool, i: nat)
    requires WorkEnabled(cfg, s, j) && i < |s.w|
    ensures Counting(s, Work1(cfg, s, j, preempted), i, false)
  {
  }

  lemma NetCounted(cfg: Config, s: State, a: Action, i: nat)
    requires Enabled(cfg, s, a) && !a.Work? && (a.Dispatch? ==> AtNetworker(s.d)) && i < |s.w|
    ensures Counting(s, Next(cfg, s, a), i, false)
  {
    WorkersUntouched(cfg, s, a);
  }

  lemma StepCounted(cfg: Config, s: State, a: Action, i: nat)
    requires Enabled(cfg, s, a) && i < |s.w|
    ensures Counting(s, Next(cfg, s, a), i, CountsOut(s, a, i))
  {
    if a.Work? {
      WorkCounted(cfg, s, a.i, a.preempted, i);
    } else if a.Dispatch? && !AtNetworker(s.d) {
      DispatchCounted(cfg, s, a.from, a.some, i);
    } else {
      NetCounted(cfg, s, a, i);
    }
  }

  lemma {:induction false} CountedOverRun(cfg: Config, s: State, run: seq<Action>, t: State, i: nat)
    requires RunsTo(cfg, s, run, t) && i < |s.w|
    ensures |t.w| == |s.w| && Counted(t, i) == Counted(s, i) + Gone(cfg, s, run, i)
    ensures t.w[i].handled - t.w[i].finishes >= s.w[i].handled - s.w[i].finishes && t.w[i].finishes >= s.w[i].finishes
    decreases |run|
  {
    if |run| > 0 {
      StepCounted(cfg, s, run[0], i);
      CountedOverRun(cfg, Next(cfg, s, run[0]), run[1..], t, i);
    }
  }

  /** Within one dispatch, from the look at the queue length to the test. */
  ghost predicate SameDispatch(s: State, t: State, i: nat)
  {
    i < |s.w| == |t.w| && s.w[i].pc == ReadLength && t.d == FinishTest(i) && t.w[i].dispatched == s.w[i].dispatched
  }

  lemma GoneOnce(cfg: Config, s: State, run: seq<Action>, t: State, i: nat)
    requires Inv(cfg, s) && Inv(cfg, t) && RunsTo(cfg, s, run, t) && SameDispatch(s, t, i)
    ensures Gone(cfg, s, run, i) == 1
  {
    CountedOverRun(cfg, s, run, t, i);
    assert WorkerOk(cfg, s.d, s.w[i], i) && WorkerOk(cfg, t.d, t.w[i], i);
    AtLook(cfg, s, i);
    AtTest(cfg, t, i);
  }

  lemma AtLook(cfg: Config, s: State, i: nat)
    requires i < |s.w| && s.w[i].pc == ReadLength && WorkerOk(cfg, s.d, s.w[i], i)
    ensures Counted(s, i) == s.w[i].finishes && s.w[i].dispatched == s.w[i].handled + 1
  {
  }

  lemma AtTest(cfg: Config, t: State, i: nat)
    requires i < |t.w| && t.d == FinishTest(i) && WorkerOk(cfg, t.d, t.w[i], i)
    ensures Counted(t, i) == t.w[i].finishes + 1 && t.w[i].dispatched == t.w[i].handled + 1
  {
  }

  /** What the dispatcher finds when it tests, against what the worker found. */
  lemma LoadSince(cfg: Config, s: State, run: seq<Action>, t: State, i: nat)
    requires Reachable(cfg, s) && cfg.variant.Horus? && RunsTo(cfg, s, run, t) && SameDispatch(s, t, i)
    ensures Reachable(cfg, t) && i < |s.tskq| && i < |t.tskq|
    ensures Load(cfg, t, i) == Load(cfg, s, i) - 1 + Came(cfg, s, run, i)
  {
    ReachableInv(cfg, s);
    RunKeepsInv(cfg, s, run, t);
    ReachOn(cfg, s, run, t);
    assert WorkerOk(cfg, s.d, s.w[i], i);
    LoadOverRun(cfg, s, run, t, i);
    GoneOnce(cfg, s, run, t, i);
  }

  lemma ReachOn(cfg: Config, s: State, run: seq<Action>, t: State)
    requires Reachable(cfg, s) && RunsTo(cfg, s, run, t)
    ensures Reachable(cfg, t)
  {
    var z, before :| Initial(cfg, z) && RunsTo(cfg, z, before, s);
    RunsJoined(cfg, z, before, s, run, t);
  }

  lemma {:induction false} RunsJoined(cfg: Config, z: State, before: seq<Action>, s: State, run: seq<Action>, t: State)
    requires RunsTo(cfg, z, before, s) && RunsTo(cfg, s, run, t)
    ensures RunsTo(cfg, z, before + run, t)
    decreases |before|
  {
    if before == [] {
      assert before + run == run;
    } else {
      assert (before + run)[0] == before[0] && (before + run)[1..] == before[1..] + run;
      RunsJoined(cfg, Next(cfg, z, before[0]), before[1..], s, run, t);
    }
  }

  /** The dispatcher decides to lower a worker's state exactly when the reply it finishes was TASK_DONE_IDLE, the worker
      had no other work when it read its queue length, and none has been counted in since. */
  lemma LowersIffNoneCame(cfg: Config, s: State, run: seq<Action>, t: State, i: nat, a: Action)
    requires Reachable(cfg, s) && cfg.variant.Horus? && RunsTo(cfg, s, run, t) && SameDispatch(s, t, i)
    requires a.Dispatch? && Enabled(cfg, t, a)
    ensures i < |s.tskq|
    ensures Next(cfg, t, a).d == FinishLower(i) <==>
              t.w[i].reply == Reply(t.w[i].slot.req, true, t.w[i].newQlen)
              && Load(cfg, s, i) == 1 && Came(cfg, s, run, i) == 0
  {
    LoadSince(cfg, s, run, t, i);
    LowersExactlyForIdleReplies(cfg, t, i, a);
    ReachableInv(cfg, s);
    assert WorkerOk(cfg, s.d, s.w[i], i);
    CountedLoad(cfg, s, i);
  }
}
