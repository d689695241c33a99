/**
  What the scheduler's invariant says about every reachable state and step: conservation of requests, exact
  accounting, the path of a request, idle signals, and that no party can get stuck.
 */
module SchedulerTheorems {
  import opened Widths
  import opened Scheduler
  import opened SchedulerInvariant
  import opened SchedulerLoad
  import opened SchedulerIdle

  /** A request is live exactly when some structure holds it, and then exactly one place does. */
  lemma ExactlyOnePlace(cfg: Config, s: State, r: Req, p: Place)
    requires Reachable(cfg, s)
    ensures Holds(s, r, p) <==> r in s.place && s.place[r] == p
  {
    ReachableInv(cfg, s);
    if Holds(s, r, p) {
      HeldIsRecorded(cfg, s, r, p);
    }
  }

  lemma HeldIsRecorded(cfg: Config, s: State, r: Req, p: Place)
    requires Recorded(cfg, s) && Holds(s, r, p)
    ensures At(s.place, r, p)
  {
    if p.Queued? {
      assert QueueOk(s.place, s.tskq[p.c], p.c);
    }
  }

  /** No request is twice in a queue. */
  lemma OnceInQueue(cfg: Config, s: State, c: nat, a: nat, b: nat)
    requires Reachable(cfg, s) && c < |s.tskq| && a < |s.tskq[c]| && b < |s.tskq[c]|
    requires s.tskq[c][a].req == s.tskq[c][b].req
    ensures a == b
  {
    ReachableInv(cfg, s);
    assert QueueOk(s.place, s.tskq[c], c);
  }

  /** `queue_length` is the work queued, in hand and in flight, modulo 2^32; in Horus it is exact. */
  lemma ExactAccounting(cfg: Config, s: State, c: nat)
    requires Reachable(cfg, s) && Shape(cfg, s) && c < cfg.ports
    ensures s.qlen[c] == Load(cfg, s, c) % WRAP32
    ensures cfg.variant.Horus? ==> s.qlen[c] == Load(cfg, s, c)
  {
    ReachableInv(cfg, s);
    if cfg.variant.Horus? {
      LoadBounded(cfg, s, c);
      BelowWrap(Load(cfg, s, c));
    }
  }

  lemma BelowWrap(x: nat)
    requires x < WRAP32
    ensures x % WRAP32 == x
  {
  }

  /** Where a request may go next. */
  ghost predicate Follows(p: Place, q: Place)
  {
    match p
    case Batch(_) => q.Queued? || q.Done?
    case Queued(_) => q.Held?
    case Held => q.Slot?
    case Slot(_) => q.Queued? || q.Done?
    case Done(_) => q.Returned?
    case Returned(_) => false
  }

  /** What one step may do to one request: arrive into the batch, stay, move on, or be freed after its return. */
  ghost predicate LegalStep(was: map<Req, Place>, now: map<Req, Place>, r: Req)
  {
    if r in was && r in now then was[r] == now[r] || Follows(was[r], now[r])
    else if r in was then was[r].Returned?
    else r in now ==> now[r].Batch?
  }

  lemma NetMoves(cfg: Config, s: State, a: Action, r: Req)
    requires Structure(cfg, s) && Enabled(cfg, s, a) && a.Dispatch? && AtNetworker(s.d)
    ensures LegalStep(s.place, Next(cfg, s, a).place, r)
  {
    if s.d.NetTake? || s.d.NetPut? {
      assert s.d.k < s.cnt ==> InBatch(s, s.d.k);
    } else if s.d.NetBack? && s.frq != [] {
      assert At(s.place, s.frq[|s.frq| - 1], Done(|s.frq| - 1));
    }
  }

  /** Most steps of handle_worker move no request. */
  lemma NothingMoves(cfg: Config, s: State, from: nat, some: bool)
    requires DispatchEnabled(cfg, s, from, some) && !AtNetworker(s.d)
    requires !s.d.FinishEnqueue? && !s.d.PreemptEnqueue? && !s.d.Dequeue? && !s.d.FillSlot?
    ensures DispatchWorker(cfg, s, from, some).place == s.place
  {
  }

  lemma SlotLeft(cfg: Config, s: State, from: nat, some: bool, r: Req)
    requires Structure(cfg, s) && DispatchEnabled(cfg, s, from, some) && (s.d.FinishEnqueue? || s.d.PreemptEnqueue?)
    ensures LegalStep(s.place, DispatchWorker(cfg, s, from, some).place, r)
  {
    assert WorkerOk(cfg, s.d, s.w[s.d.i], s.d.i);
  }

  lemma QueueLeft(cfg: Config, s: State, from: nat, some: bool, r: Req)
    requires Structure(cfg, s) && DispatchEnabled(cfg, s, from, some) && s.d.Dequeue?
    ensures LegalStep(s.place, DispatchWorker(cfg, s, from, some).place, r)
  {
    if some { assert QueueOk(s.place, s.tskq[from], from); }
  }

  lemma HandLeft(cfg: Config, s: State, from: nat, some: bool, r: Req)
    requires Structure(cfg, s) && DispatchEnabled(cfg, s, from, some) && s.d.FillSlot?
    ensures LegalStep(s.place, DispatchWorker(cfg, s, from, some).place, r)
  {
  }

  lemma WorkerMoves(cfg: Config, s: State, a: Action, r: Req)
    requires Structure(cfg, s) && Enabled(cfg, s, a) && a.Dispatch? && !AtNetworker(s.d)
    ensures LegalStep(s.place, Next(cfg, s, a).place, r)
  {
    if s.d.FinishEnqueue? || s.d.PreemptEnqueue? {
      SlotLeft(cfg, s, a.from, a.some, r);
    } else if s.d.Dequeue? {
      QueueLeft(cfg, s, a.from, a.some, r);
    } else if s.d.FillSlot? {
      HandLeft(cfg, s, a.from, a.some, r);
    } else {
      NothingMoves(cfg, s, a.from, a.some);
    }
  }

  /** Every request goes batch, queue, hand, slot, finished queue, return batch, and only then is freed; a
      preempted one goes back from slot to queue. */
  lemma RequestPath(cfg: Config, s: State, a: Action, r: Req)
    requires Reachable(cfg, s) && Enabled(cfg, s, a)
    ensures LegalStep(s.place, Next(cfg, s, a).place, r)
  {
    ReachableInv(cfg, s);
    match a
    case Work(_, _) =>
    case Network(_, _, _) =>
      if s.n.Free? && s.n.k < s.freeCnt {
        assert InReturn(s, s.n.k) && At(s.place, s.reqs[s.n.k], Returned(s.n.k));
      }
    case Dispatch(_, _, _) =>
      if AtNetworker(s.d) {
        NetMoves(cfg, s, a, r);
      } else {
        WorkerMoves(cfg, s, a, r);
      }
  }

  /** Every dispatch is handled once, and what the dispatcher then reads is the task it dispatched. */
  lemma DispatchedHandledOnce(cfg: Config, s: State, i: nat)
    requires Reachable(cfg, s) && Shape(cfg, s) && i < |s.w|
    ensures s.w[i].handled <= s.w[i].dispatched <= s.w[i].handled + 1
    ensures s.w[i].busy ==> s.w[i].dispatched == s.w[i].handled + 1
    ensures s.d == FinishCount(i) || s.d == FinishEnqueue(i) || s.d == PreemptEnqueue(i) ==>
              s.w[i].busy && s.w[i].response.req == s.w[i].slot.req && s.w[i].response.port == s.w[i].slot.port
  {
    ReachableInv(cfg, s);
    assert WorkerOk(cfg, s.d, s.w[i], i);
  }

  /** The dispatcher decides to lower a worker's state exactly when the reply to the task it is finishing was
      TASK_DONE_IDLE and nothing is queued, in hand or in flight for that worker. */
  lemma LowersExactlyForIdleReplies(cfg: Config, s: State, i: nat, a: Action)
    requires Reachable(cfg, s) && cfg.variant.Horus? && s.d == FinishTest(i) && a.Dispatch? && Enabled(cfg, s, a)
    ensures i < |s.w| && i < |s.tskq|
    ensures Next(cfg, s, a).d == FinishLower(i) <==>
            s.w[i].reply == Reply(s.w[i].slot.req, true, s.w[i].newQlen) && Load(cfg, s, i) == 0
  {
    ReachableInv(cfg, s);
    assert WorkerOk(cfg, s.d, s.w[i], i);
    LoadBounded(cfg, s, i);
    TestMeansIdle(cfg, s, i);
  }

  lemma NetKeepsStates(cfg: Config, s: State, a: Action, c: nat)
    requires Structure(cfg, s) && Enabled(cfg, s, a) && a.Dispatch? && AtNetworker(s.d) && c < cfg.ports
    ensures s.wstate[c] <= Next(cfg, s, a).wstate[c]
  {
  }

  lemma DispatchKeepsStates(cfg: Config, s: State, from: nat, some: bool)
    requires DispatchEnabled(cfg, s, from, some) && !AtNetworker(s.d) && !s.d.FinishLower?
    ensures DispatchWorker(cfg, s, from, some).wstate == s.wstate
  {
  }

  /** No silent idle reset, over all interleavings: a worker's state goes down only when the worker starts up,
      or when the dispatcher finishes a task whose reply said the worker is idle. */
  lemma NoSilentReset(cfg: Config, s: State, a: Action, c: nat)
    requires Reachable(cfg, s) && cfg.variant.Horus? && Enabled(cfg, s, a) && Shape(cfg, s) && c < cfg.ports
    requires Next(cfg, s, a).wstate[c] < s.wstate[c]
    ensures c < |s.w|
    ensures if a.Work? then a.i == c && s.w[c].pc == StartState
            else a.Dispatch? && s.d == FinishLower(c)
                 && s.w[c].reply == Reply(s.w[c].response.req, true, s.w[c].newQlen)
  {
    ReachableInv(cfg, s);
    StepKeepsStructure(cfg, s, a);
    if a.Dispatch? {
      DispatchLowers(cfg, s, a, c);
    } else {
      OthersKeepStates(cfg, s, a, c);
    }
  }

  /** A worker lowers its own state when it starts up, and nobody but the dispatcher does otherwise. */
  lemma OthersKeepStates(cfg: Config, s: State, a: Action, c: nat)
    requires cfg.variant.Horus? && Enabled(cfg, s, a) && !a.Dispatch? && c < |s.wstate|
    ensures c < |Next(cfg, s, a).wstate|
    ensures Next(cfg, s, a).wstate[c] < s.wstate[c] ==> a.Work? && a.i == c && c < |s.w| && s.w[c].pc == StartState
  {
  }

  lemma DispatchLowers(cfg: Config, s: State, a: Action, c: nat)
    requires Inv(cfg, s) && cfg.variant.Horus? && Enabled(cfg, s, a) && a.Dispatch? && Shape(cfg, s) && c < cfg.ports
    requires Shape(cfg, Next(cfg, s, a)) && Next(cfg, s, a).wstate[c] < s.wstate[c]
    ensures c < |s.w| && s.d == FinishLower(c) && s.w[c].reply == Reply(s.w[c].response.req, true, s.w[c].newQlen)
  {
    if AtNetworker(s.d) {
      NetKeepsStates(cfg, s, a, c);
    } else if s.d.FinishLower? {
      assert WorkerOk(cfg, s.d, s.w[s.d.i], s.d.i);
    } else {
      DispatchKeepsStates(cfg, s, a.from, a.some);
    }
  }

  // ----- Nobody gets stuck -----

  lemma NetNotStuck(cfg: Config, s: State)
    requires Structure(cfg, s) && AtNetworker(s.d)
    ensures DispatchEnabled(cfg, s, 0, false)
  {
    if s.d.NetCount? || s.d.NetState? || s.d.NetPut? { assert InBatch(s, s.d.k); }
  }

  lemma AttendingNotStuck(cfg: Config, s: State)
    requires Inv(cfg, s) && !AtNetworker(s.d) && (s.d.Dequeue? ==> cfg.variant.TrackUs?)
    ensures DispatchEnabled(cfg, s, 0, false)
  {
    if !s.d.Scan? { assert WorkerOk(cfg, s.d, s.w[Attending(s.d)], Attending(s.d)); }
  }

  lemma DispatcherNeverStuck(cfg: Config, s: State) returns (from: nat, some: bool)
    requires Reachable(cfg, s) && Shape(cfg, s)
    ensures DispatchEnabled(cfg, s, from, some)
  {
    ReachableInv(cfg, s);
    from, some := 0, false;
    if AtNetworker(s.d) {
      NetNotStuck(cfg, s);
    } else if s.d.Dequeue? && cfg.variant.Horus? {
      assert WorkerOk(cfg, s.d, s.w[s.d.i], s.d.i);
      if s.tskq[s.d.i] != [] { from, some := s.d.i, true; }
    } else {
      AttendingNotStuck(cfg, s);
    }
  }

  /** A worker waits only for its request flag, the networker only for `cnt`. */
  lemma OthersWaitOnlyForFlags(cfg: Config, s: State, i: nat, req: Req)
    requires Reachable(cfg, s) && Shape(cfg, s) && i < |s.w|
    ensures WorkEnabled(cfg, s, i) <==> s.w[i].pc == Wait ==> s.w[i].requestFlag == Active
    ensures NetworkEnabled(cfg, s, false, req, 0) <==> s.n == Spin ==> s.cnt == 0
  {
    ReachableInv(cfg, s);
    assert WorkerOk(cfg, s.d, s.w[i], i);
  }
}
