/**
  Where a request is served: in the queue of the core it arrived for, and in Horus by that worker, however often it is
  preempted.
 */
module SchedulerRoutes {
  import opened Scheduler
  import opened SchedulerInvariant
  import opened SchedulerIdle

  /** Wherever request `r` is, it is for queue `c`. */
  ghost predicate Bound(s: State, r: Req, c: nat)
  {
    && r in s.place
    && match s.place[r]
       case Batch(k) => k < |s.types| && s.types[k] == c
       case Queued(q) => q == c
       case Held => InHand(s.d).Task? && InHand(s.d).task.port == c
       case Slot(i) => i < |s.w| && s.w[i].slot.port == c
       case Done(_) => true
       case Returned(_) => true
  }

  lemma SameBound(s: State, t: State, r: Req, c: nat)
    requires Bound(s, r, c) && t.place == s.place && t.types == s.types && InHand(t.d) == InHand(s.d)
    requires |t.w| == |s.w| && forall i :: 0 <= i < |s.w| ==> t.w[i].slot == s.w[i].slot
    ensures Bound(t, r, c)
  {
  }

  lemma WorkBound(cfg: Config, s: State, i: nat, preempted: bool, r: Req, c: nat)
    requires WorkEnabled(cfg, s, i) && Bound(s, r, c)
    ensures Bound(Work1(cfg, s, i, preempted), r, c)
  {
    SameBound(s, Work1(cfg, s, i, preempted), r, c);
  }

  lemma NetworkBound(cfg: Config, s: State, arrival: bool, req: Req, core: nat, r: Req, c: nat)
    requires Structure(cfg, s) && NetworkEnabled(cfg, s, arrival, req, core) && Bound(s, r, c)
    requires r in Network1(cfg, s, arrival, req, core).place
    ensures Bound(Network1(cfg, s, arrival, req, core), r, c)
  {
    assert Holds(s, r, s.place[r]);
  }

  lemma PutBound(cfg: Config, s: State, granted: bool, r: Req, c: nat)
    requires Structure(cfg, s) && DispatchEnabled(cfg, s, 0, false) && s.d.NetPut? && Bound(s, r, c)
    ensures Bound(DispatchNet(cfg, s, granted), r, c)
  {
    assert InBatch(s, s.d.k);
  }

  lemma HandedBackBound(cfg: Config, s: State, granted: bool, r: Req, c: nat)
    requires DispatchEnabled(cfg, s, 0, false) && (s.d.NetBack? || s.d.NetTake?) && Bound(s, r, c)
    ensures Bound(DispatchNet(cfg, s, granted), r, c)
  {
  }

  lemma NetBound(cfg: Config, s: State, granted: bool, r: Req, c: nat)
    requires Structure(cfg, s) && DispatchEnabled(cfg, s, 0, false) && AtNetworker(s.d) && Bound(s, r, c)
    ensures Bound(DispatchNet(cfg, s, granted), r, c)
  {
    if s.d.NetPut? {
      PutBound(cfg, s, granted, r, c);
    } else if s.d.NetBack? || s.d.NetTake? {
      HandedBackBound(cfg, s, granted, r, c);
    } else {
      SameBound(s, DispatchNet(cfg, s, granted), r, c);
    }
  }

  lemma PreemptBound(cfg: Config, s: State, from: nat, some: bool, r: Req, c: nat)
    requires Structure(cfg, s) && DispatchEnabled(cfg, s, from, some) && s.d.PreemptEnqueue? && Bound(s, r, c)
    ensures Bound(DispatchWorker(cfg, s, from, some), r, c)
  {
    assert WorkerOk(cfg, s.d, s.w[s.d.i], s.d.i);
  }

  lemma DequeueBound(cfg: Config, s: State, from: nat, some: bool, r: Req, c: nat)
    requires Structure(cfg, s) && DispatchEnabled(cfg, s, from, some) && s.d.Dequeue? && Bound(s, r, c)
    ensures Bound(DispatchWorker(cfg, s, from, some), r, c)
  {
    if some { assert QueueOk(s.place, s.tskq[from], from); }
  }

  lemma FillBound(cfg: Config, s: State, from: nat, some: bool, r: Req, c: nat)
    requires Structure(cfg, s) && DispatchEnabled(cfg, s, from, some) && s.d.FillSlot? && Bound(s, r, c)
    ensures Bound(DispatchWorker(cfg, s, from, some), r, c)
  {
    assert WorkerOk(cfg, s.d, s.w[s.d.i], s.d.i);
    assert Holds(s, r, s.place[r]);
  }

  lemma FinishBound(cfg: Config, s: State, from: nat, some: bool, r: Req, c: nat)
    requires Structure(cfg, s) && DispatchEnabled(cfg, s, from, some) && s.d.FinishEnqueue? && Bound(s, r, c)
    ensures Bound(DispatchWorker(cfg, s, from, some), r, c)
  {
  }

  lemma QuietBound(cfg: Config, s: State, from: nat, some: bool, r: Req, c: nat)
    requires DispatchEnabled(cfg, s, from, some) && !AtNetworker(s.d) && Bound(s, r, c)
    requires !s.d.PreemptEnqueue? && !s.d.Dequeue? && !s.d.FillSlot? && !s.d.FinishEnqueue?
    ensures Bound(DispatchWorker(cfg, s, from, some), r, c)
  {
    SameBound(s, DispatchWorker(cfg, s, from, some), r, c);
  }

  lemma StepBound(cfg: Config, s: State, a: Action, r: Req, c: nat)
    requires Structure(cfg, s) && Enabled(cfg, s, a) && Bound(s, r, c) && r in Next(cfg, s, a).place
    ensures Bound(Next(cfg, s, a), r, c)
  {
    match a
    case Work(i, preempted) => WorkBound(cfg, s, i, preempted, r, c);
    case Network(arrival, req, core) => NetworkBound(cfg, s, arrival, req, core, r, c);
    case Dispatch(granted, from, some) =>
      if AtNetworker(s.d) {
        NetBound(cfg, s, granted, r, c);
      } else if s.d.PreemptEnqueue? {
        PreemptBound(cfg, s, from, some, r, c);
      } else if s.d.Dequeue? {
        DequeueBound(cfg, s, from, some, r, c);
      } else if s.d.FillSlot? {
        FillBound(cfg, s, from, some, r, c);
      } else if s.d.FinishEnqueue? {
        FinishBound(cfg, s, from, some, r, c);
      } else {
        QuietBound(cfg, s, from, some, r, c);
      }
  }

  /** The request is not freed during the run. */
  ghost predicate Live(cfg: Config, s: State, run: seq<Action>, r: Req)
    decreases |run|
  {
    r in s.place && (|run| > 0 && Enabled(cfg, s, run[0]) ==> Live(cfg, Next(cfg, s, run[0]), run[1..], r))
  }

  lemma {:induction false} RunBound(cfg: Config, s: State, run: seq<Action>, t: State, r: Req, c: nat)
    requires Inv(cfg, s) && RunsTo(cfg, s, run, t) && Live(cfg, s, run, r) && Bound(s, r, c)
    ensures Inv(cfg, t) && Bound(t, r, c)
    decreases |run|
  {
    if |run| > 0 {
      StepBound(cfg, s, run[0], r, c);
      StepKeepsInv(cfg, s, run[0]);
      RunBound(cfg, Next(cfg, s, run[0]), run[1..], t, r, c);
    }
  }

  /** From its arrival until it is freed, a request is queued nowhere but in the queue of the core it arrived for, and
      runs with that queue as its own; in Horus no other worker ever gets it. */
  lemma ServedWhereItArrived(cfg: Config, s: State, req: Req, core: nat, run: seq<Action>, t: State)
    requires Reachable(cfg, s) && s.n.Build? && Enabled(cfg, s, Network(true, req, core))
    requires RunsTo(cfg, Next(cfg, s, Network(true, req, core)), run, t)
    requires Live(cfg, Next(cfg, s, Network(true, req, core)), run, req)
    ensures forall c, a :: 0 <= c < |t.tskq| && 0 <= a < |t.tskq[c]| && t.tskq[c][a].req == req ==> c == core
    ensures forall i :: 0 <= i < |t.w| && t.w[i].busy && t.w[i].slot.req == req ==>
              t.w[i].slot.port == core && (cfg.variant.Horus? ==> i == core)
  {
    var u := Next(cfg, s, Network(true, req, core));
    ReachableInv(cfg, s);
    StepKeepsInv(cfg, s, Network(true, req, core));
    assert Bound(u, req, core);
    RunBound(cfg, u, run, t, req, core);
    forall c, a | 0 <= c < |t.tskq| && 0 <= a < |t.tskq[c]| && t.tskq[c][a].req == req
      ensures c == core
    {
      assert QueueOk(t.place, t.tskq[c], c);
    }
    forall i | 0 <= i < |t.w| && t.w[i].busy && t.w[i].slot.req == req
      ensures t.w[i].slot.port == core && (cfg.variant.Horus? ==> i == core)
    {
      assert WorkerOk(cfg, t.d, t.w[i], i) && At(t.place, req, Place.Slot(i));
    }
  }
}
