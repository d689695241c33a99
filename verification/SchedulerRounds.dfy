/**
  What a round of the dispatcher does for every worker, over any run in which workers and networker go on meanwhile:
  it deals with every answer that was there when the round began, and in Horus leaves no worker without a task that
  has one queued; and what it does for the networker.
 */
module SchedulerRounds {
  import opened Scheduler
  import opened SchedulerInvariant
  import opened SchedulerIdle
  import opened SchedulerReplies

  /** From a state of a round to its end, when the dispatcher turns to the networker. */
  ghost predicate Round(cfg: Config, s: State, run: seq<Action>, t: State)
    decreases |run|
  {
    if |run| == 0 then s == t && s.d == Net
    else !AtNetworker(s.d) && Enabled(cfg, s, run[0]) && Round(cfg, Next(cfg, s, run[0]), run[1..], t)
  }

  /** The dispatcher has not come to worker `j` yet. */
  ghost predicate Before(d: DispatcherPc, j: nat)
  {
    if d.Scan? then d.i <= j else 0 <= Attending(d) < j
  }

  /** It has dealt with the worker. */
  ghost predicate Past(d: DispatcherPc, j: nat)
  {
    if d.Scan? then j < d.i else j < Attending(d) || AtNetworker(d)
  }

  ghost predicate Answered(x: Worker)
  {
    x.responseFlag == Finished || x.responseFlag == Preempted
  }

  lemma {:induction false} RoundEnds(cfg: Config, s: State, run: seq<Action>, t: State)
    requires Round(cfg, s, run, t)
    ensures t.d == Net
    decreases |run|
  {
    if |run| > 0 { RoundEnds(cfg, Next(cfg, s, run[0]), run[1..], t); }
  }

  lemma OwnQueue(cfg: Config, s: State, j: nat)
    requires Shape(cfg, s) && cfg.variant.Horus? && j < |s.w|
    ensures j < |s.tskq|
  {
  }

  // ----- Answers -----

  /** The answer of worker `j`, its number `h`, is there until the dispatcher has dealt with it. */
  ghost predicate Serving(s: State, j: nat, h: nat)
  {
    && j < |s.w|
    && if Before(s.d, j) then s.w[j].handled == h && Answered(s.w[j])
       else if Past(s.d, j) || s.d.Dequeue? || s.d.Mark? || s.d.FillSlot? || s.d.Activate? then s.w[j].handled == h + 1
       else s.w[j].handled == h
  }

  lemma Served(t: State, j: nat, h: nat)
    requires Serving(t, j, h) && t.d == Net
    ensures t.w[j].handled == h + 1
  {
  }

  /** A worker with an answer waits, and a worker's step leaves the count alone. */
  lemma WorkServing(cfg: Config, s: State, i: nat, preempted: bool, j: nat, h: nat)
    requires WorkersOk(cfg, s) && WorkEnabled(cfg, s, i) && Serving(s, j, h)
    ensures Serving(Work1(cfg, s, i, preempted), j, h)
  {
    assert WorkerOk(cfg, s.d, s.w[j], j);
  }

  lemma OtherServing(cfg: Config, s: State, from: nat, some: bool, j: nat, h: nat)
    requires WorkersOk(cfg, s) && DispatchEnabled(cfg, s, from, some) && !AtNetworker(s.d) && Serving(s, j, h)
    requires Attending(s.d) != j
    ensures Serving(DispatchWorker(cfg, s, from, some), j, h)
  {
    OthersStay(cfg, s, from, some, j);
  }

  lemma OwnServing(cfg: Config, s: State, from: nat, some: bool, j: nat, h: nat)
    requires WorkersOk(cfg, s) && DispatchEnabled(cfg, s, from, some) && !AtNetworker(s.d) && Serving(s, j, h)
    requires Attending(s.d) == j
    ensures Serving(DispatchWorker(cfg, s, from, some), j, h)
  {
  }

  lemma StepServing(cfg: Config, s: State, a: Action, j: nat, h: nat)
    requires WorkersOk(cfg, s) && Enabled(cfg, s, a) && !AtNetworker(s.d) && Serving(s, j, h)
    ensures Serving(Next(cfg, s, a), j, h)
  {
    match a
    case Work(i, preempted) => WorkServing(cfg, s, i, preempted, j, h);
    case Network(_, _, _) =>
    case Dispatch(_, from, some) =>
      if Attending(s.d) == j { OwnServing(cfg, s, from, some, j, h); } else { OtherServing(cfg, s, from, some, j, h); }
  }

  lemma {:induction false} RoundServing(cfg: Config, s: State, run: seq<Action>, t: State, j: nat, h: nat)
    requires Inv(cfg, s) && Round(cfg, s, run, t) && Serving(s, j, h)
    ensures Serving(t, j, h)
    decreases |run|
  {
    if |run| > 0 {
      StepServing(cfg, s, run[0], j, h);
      StepKeepsInv(cfg, s, run[0]);
      RoundServing(cfg, Next(cfg, s, run[0]), run[1..], t, j, h);
    }
  }

  /** A round deals, once, with every answer that is there when it begins. */
  lemma RoundServes(cfg: Config, s: State, run: seq<Action>, t: State, j: nat)
    requires Reachable(cfg, s) && s.d == Scan(0) && Round(cfg, s, run, t)
    requires j < |s.w| && (s.w[j].responseFlag == Finished || s.w[j].responseFlag == Preempted)
    ensures j < |t.w| && t.w[j].handled == s.w[j].handled + 1
  {
    ReachableInv(cfg, s);
    RoundEnds(cfg, s, run, t);
    RoundServing(cfg, s, run, t, j, s.w[j].handled);
    Served(t, j, s.w[j].handled);
  }

  // ----- Tasks -----

  /** A worker that has started, and has no task when the dispatcher has dealt with it only if none is queued. */
  ghost predicate Supplied(s: State, j: nat)
  {
    && j < |s.w| && j < |s.tskq| && s.w[j].pc != Start
    && (Past(s.d, j) && s.w[j].responseFlag == Processed ==> s.tskq[j] == [])
  }

  lemma WorkSupplied(cfg: Config, s: State, i: nat, preempted: bool, j: nat)
    requires WorkEnabled(cfg, s, i) && Supplied(s, j)
    ensures Supplied(Work1(cfg, s, i, preempted), j)
  {
  }

  lemma OtherSupplied(cfg: Config, s: State, from: nat, some: bool, j: nat)
    requires WorkersOk(cfg, s) && DispatchEnabled(cfg, s, from, some) && !AtNetworker(s.d) && Supplied(s, j)
    requires cfg.variant.Horus? && Attending(s.d) != j
    ensures Supplied(DispatchWorker(cfg, s, from, some), j)
  {
    OthersStay(cfg, s, from, some, j);
    if s.d.PreemptEnqueue? { assert WorkerOk(cfg, s.d, s.w[s.d.i], s.d.i); }
  }

  lemma OwnSupplied(cfg: Config, s: State, from: nat, some: bool, j: nat)
    requires WorkersOk(cfg, s) && DispatchEnabled(cfg, s, from, some) && !AtNetworker(s.d) && Supplied(s, j)
    requires cfg.variant.Horus? && Attending(s.d) == j
    ensures Supplied(DispatchWorker(cfg, s, from, some), j)
  {
    assert WorkerOk(cfg, s.d, s.w[j], j);
  }

  lemma StepSupplied(cfg: Config, s: State, a: Action, j: nat)
    requires WorkersOk(cfg, s) && cfg.variant.Horus? && Enabled(cfg, s, a) && !AtNetworker(s.d) && Supplied(s, j)
    ensures Supplied(Next(cfg, s, a), j)
  {
    match a
    case Work(i, preempted) => WorkSupplied(cfg, s, i, preempted, j);
    case Network(_, _, _) =>
    case Dispatch(_, from, some) =>
      if Attending(s.d) == j { OwnSupplied(cfg, s, from, some, j); } else { OtherSupplied(cfg, s, from, some, j); }
  }

  lemma {:induction false} RoundSupplied(cfg: Config, s: State, run: seq<Action>, t: State, j: nat)
    requires Inv(cfg, s) && cfg.variant.Horus? && Round(cfg, s, run, t) && Supplied(s, j)
    ensures Supplied(t, j)
    decreases |run|
  {
    if |run| > 0 {
      StepSupplied(cfg, s, run[0], j);
      StepKeepsInv(cfg, s, run[0]);
      RoundSupplied(cfg, Next(cfg, s, run[0]), run[1..], t, j);
    }
  }

  /** When a round of Horus ends, a worker that had started before it has a task, an answer, or nothing queued. */
  lemma NoIdleWithWork(cfg: Config, s: State, run: seq<Action>, t: State, j: nat)
    requires Reachable(cfg, s) && cfg.variant.Horus? && s.d == Scan(0) && Round(cfg, s, run, t)
    requires j < |s.w| && s.w[j].pc != Start
    ensures j < |t.w| && j < |t.tskq| && (t.w[j].responseFlag == Processed ==> t.tskq[j] == [])
  {
    ReachableInv(cfg, s);
    RoundEnds(cfg, s, run, t);
    OwnQueue(cfg, s, j);
    RoundSupplied(cfg, s, run, t, j);
  }

  // ----- The networker -----

  /** When the dispatcher turns to the workers again, it has taken over every request of the batch; and before it lets
      the networker go on, it has handed back as many finished requests as there are, or as the array holds. */
  lemma NetworkerServed(cfg: Config, s: State, a: Action)
    requires Reachable(cfg, s) && Enabled(cfg, s, a) && a.Dispatch? && AtNetworker(s.d)
    ensures var t := Next(cfg, s, a);
            && (!AtNetworker(t.d) ==>
                  t.d == Scan(0) && t.cnt == 0
                  && forall r :: r in t.place && t.place[r].Batch? ==> t.n.Build? && t.place[r].k < t.n.k)
            && (t.d == NetDone ==> t.frq == [] || t.freeCnt == cfg.batch)
  {
    var t := Next(cfg, s, a);
    ReachableInv(cfg, s);
    StepKeepsInv(cfg, s, a);
    forall r | r in t.place && t.place[r].Batch? && t.cnt == 0
      ensures t.n.Build? && t.place[r].k < t.n.k
    {
      assert Holds(t, r, t.place[r]);
    }
  }
}
