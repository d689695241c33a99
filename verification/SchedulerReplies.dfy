/**
  What the workers' replies say, in both variants: one reply for every finished dispatch, for the dispatched
  request, with a queue length that is what was read less the task itself; and, in Horus, no worker that has run
  out of work keeps its state.
 */
module SchedulerReplies {
  import opened Widths
  import opened Scheduler
  import opened SchedulerInvariant
  import opened SchedulerLoad
  import opened SchedulerIdle

  /** The reply to the open dispatch has been sent, and the dispatcher has not acknowledged it. */
  ghost predicate HasReplied(x: Worker)
  {
    ((x.pc == Fill || x.pc == Publish) && x.finished) || x.responseFlag == Finished
  }

  /** The worker has computed the queue length it reports. */
  ghost predicate HasLength(x: Worker)
  {
    x.pc == ReadState || x.pc == Send || HasReplied(x)
  }

  /** The queue length that stands for `load` without the request the worker runs. */
  function Reported(cfg: Config, load: nat, r: Req): nat
  {
    if cfg.variant.Horus? then (load - 1) % WRAP16 else (load - cfg.Weight(r)) % WRAP32
  }

  ghost predicate LengthOk(cfg: Config, x: Worker)
  {
    && cfg.Weight(x.slot.req) <= x.readLoad && (cfg.variant.Horus? ==> x.readLoad <= cfg.pool)
    && x.newQlen == Reported(cfg, x.readLoad, x.slot.req)
  }

  /** One reply for each finished dispatch, for the request that was dispatched. */
  ghost predicate ReplyOk(cfg: Config, x: Worker)
  {
    && x.replies == x.finishes + (if HasReplied(x) then 1 else 0)
    && (HasReplied(x) ==> x.reply == Reply(x.slot.req, x.idle, x.newQlen))
    && (HasLength(x) ==> LengthOk(cfg, x))
    && (x.pc == Send || HasReplied(x) ==> x.idle == (cfg.variant.Horus? && x.newQlen == 0 && x.readState > 0))
  }

  // ----- Every step keeps it -----

  lemma {:induction false} SlotIncluded(cfg: Config, w: seq<Worker>, i: nat, c: nat, m: nat)
    requires i < m <= |w|
    ensures WorkerLoad(cfg, w[i], c) <= SlotsLoad(cfg, w, c, m)
  {
    if i < m - 1 { SlotIncluded(cfg, w, i, c, m - 1); }
  }

  /** What a worker about to read the queue length finds. */
  lemma LengthFound(cfg: Config, s: State, i: nat)
    requires Structure(cfg, s) && LoadOk(cfg, s) && i < |s.w| && s.w[i].pc == ReadLength
    ensures var c := ReportedQueue(cfg, i, s.w[i]);
            && c < cfg.ports && s.qlen[c] == Load(cfg, s, c) % WRAP32 && cfg.Weight(s.w[i].slot.req) <= Load(cfg, s, c)
            && (cfg.variant.Horus? ==> Load(cfg, s, c) <= cfg.pool < WRAP32)
  {
    assert WorkerOk(cfg, s.d, s.w[i], i);
    var c := s.w[i].slot.port;
    SlotIncluded(cfg, s.w, i, c, |s.w|);
    if cfg.variant.Horus? { LoadBounded(cfg, s, c); }
  }

  lemma AdvanceReply(cfg: Config, d: DispatcherPc, x: Worker, i: nat, q: nat, ws: nat, load: nat, preempted: bool)
    requires Phase(d, x, i) && ReplyOk(cfg, x) && (x.pc == Wait ==> x.requestFlag == Active)
    requires x.pc == ReadLength ==>
               && q == load % WRAP32 && cfg.Weight(x.slot.req) <= load
                   && (cfg.variant.Horus? ==> load <= cfg.pool < WRAP32)
    ensures ReplyOk(cfg, Advance(cfg, x, q, ws, load, preempted))
  {
    if x.pc == ReadLength { AddWraps(load, 0 - cfg.Weight(x.slot.req)); }
  }

  lemma WorkReply(cfg: Config, s: State, i: nat, preempted: bool, j: nat)
    requires Structure(cfg, s) && LoadOk(cfg, s) && WorkEnabled(cfg, s, i) && j < |s.w| && ReplyOk(cfg, s.w[j])
    ensures ReplyOk(cfg, Work1(cfg, s, i, preempted).w[j])
  {
    if i == j {
      assert WorkerOk(cfg, s.d, s.w[i], i);
      if s.w[i].pc == ReadLength { LengthFound(cfg, s, i); }
      var c := ReportedQueue(cfg, i, s.w[i]);
      if c < cfg.ports {
        AdvanceReply(cfg, s.d, s.w[i], i, s.qlen[c], s.wstate[c], Load(cfg, s, c), preempted);
      } else {
        AdvanceReply(cfg, s.d, s.w[i], i, 0, 0, 0, preempted);
      }
    }
  }

  /** handle_worker changes no worker but the one it attends to. */
  lemma OthersStay(cfg: Config, s: State, from: nat, some: bool, j: nat)
    requires DispatchEnabled(cfg, s, from, some) && !AtNetworker(s.d) && j < |s.w| && Attending(s.d) != j
    ensures j < |DispatchWorker(cfg, s, from, some).w| && DispatchWorker(cfg, s, from, some).w[j] == s.w[j]
  {
  }

  lemma AttendedReply(cfg: Config, s: State, from: nat, some: bool, j: nat)
    requires DispatchEnabled(cfg, s, from, some) && !AtNetworker(s.d) && j < |s.w| && ReplyOk(cfg, s.w[j])
    requires Attending(s.d) == j && Phase(s.d, s.w[j], j)
    ensures j < |DispatchWorker(cfg, s, from, some).w| && ReplyOk(cfg, DispatchWorker(cfg, s, from, some).w[j])
  {
  }

  lemma DispatchReply(cfg: Config, s: State, from: nat, some: bool, j: nat)
    requires DispatchEnabled(cfg, s, from, some) && !AtNetworker(s.d) && j < |s.w| && ReplyOk(cfg, s.w[j])
    requires Attending(s.d) == j ==> Phase(s.d, s.w[j], j)
    ensures j < |DispatchWorker(cfg, s, from, some).w| && ReplyOk(cfg, DispatchWorker(cfg, s, from, some).w[j])
  {
    if Attending(s.d) == j {
      AttendedReply(cfg, s, from, some, j);
    } else {
      OthersStay(cfg, s, from, some, j);
    }
  }

  ghost predicate RepliesOk(cfg: Config, s: State)
  {
    forall j :: 0 <= j < |s.w| ==> ReplyOk(cfg, s.w[j])
  }

  /** The networker, and the dispatcher while it serves it, touch no worker. */
  lemma WorkersUntouched(cfg: Config, s: State, a: Action)
    requires Enabled(cfg, s, a) && !a.Work? && (a.Dispatch? ==> AtNetworker(s.d))
    ensures Next(cfg, s, a).w == s.w
  {
  }

  lemma AsManyWorkers(cfg: Config, s: State, a: Action)
    requires Enabled(cfg, s, a)
    ensures |Next(cfg, s, a).w| == |s.w|
  {
    if !a.Work? && (a.Dispatch? ==> AtNetworker(s.d)) {
      WorkersUntouched(cfg, s, a);
    }
  }

  lemma StepReply(cfg: Config, s: State, a: Action, j: nat)
    requires Structure(cfg, s) && LoadOk(cfg, s) && Enabled(cfg, s, a) && j < |s.w| && ReplyOk(cfg, s.w[j])
    ensures j < |Next(cfg, s, a).w| && ReplyOk(cfg, Next(cfg, s, a).w[j])
  {
    if a.Work? {
      WorkReply(cfg, s, a.i, a.preempted, j);
    } else if a.Dispatch? && !AtNetworker(s.d) {
      assert WorkerOk(cfg, s.d, s.w[j], j);
      DispatchReply(cfg, s, a.from, a.some, j);
    } else {
      WorkersUntouched(cfg, s, a);
    }
  }

  lemma StepKeepsReplies(cfg: Config, s: State, a: Action)
    requires Structure(cfg, s) && LoadOk(cfg, s) && RepliesOk(cfg, s) && Enabled(cfg, s, a)
    ensures RepliesOk(cfg, Next(cfg, s, a))
  {
    AsManyWorkers(cfg, s, a);
    forall j | 0 <= j < |s.w|
      ensures ReplyOk(cfg, Next(cfg, s, a).w[j])
    {
      StepReply(cfg, s, a, j);
    }
  }

  // ----- Nobody is forgotten -----

  /** A worker the leaf scheduler counts as busy has work, or its last task is being finished. */
  ghost predicate Remembered(cfg: Config, s: State)
    requires Shape(cfg, s)
  {
    forall c :: 0 <= c < cfg.ports && s.wstate[c] > 0 ==>
          Load(cfg, s, c) > 0 || s.d == FinishTest(c) || s.d == FinishLower(c)
  }

  lemma SameRemembered(cfg: Config, s: State, t: State)
    requires Shape(cfg, s) && Shape(cfg, t) && Remembered(cfg, s)
    requires !s.d.FinishTest? && !s.d.FinishLower?
    requires forall c :: 0 <= c < cfg.ports ==> t.wstate[c] <= s.wstate[c] || Load(cfg, t, c) > 0
    requires forall c :: 0 <= c < cfg.ports ==> Load(cfg, s, c) <= Load(cfg, t, c) || t.d == FinishTest(c)
    ensures Remembered(cfg, t)
  {
  }

  lemma WorkRemembered(cfg: Config, s: State, a: Action)
    requires Structure(cfg, s) && cfg.variant.Horus? && Remembered(cfg, s) && Enabled(cfg, s, a) && !a.Dispatch?
    requires Shape(cfg, Next(cfg, s, a))
    ensures Remembered(cfg, Next(cfg, s, a))
  {
    LoadsStay(cfg, s, a);
  }

  lemma NetRemembered(cfg: Config, s: State, a: Action)
    requires Structure(cfg, s) && cfg.variant.Horus? && Remembered(cfg, s) && Enabled(cfg, s, a) && a.Dispatch?
             && AtNetworker(s.d)
    requires Shape(cfg, Next(cfg, s, a))
    ensures Remembered(cfg, Next(cfg, s, a))
  {
    var t := Next(cfg, s, a);
    forall c | 0 <= c < cfg.ports
      ensures Load(cfg, s, c) <= Load(cfg, t, c)
    {
      StepCarries(cfg, s, a, c);
    }
    SameRemembered(cfg, s, t);
  }

  lemma TestFrom(cfg: Config, s: State, t: State, i: nat)
    requires Shape(cfg, s) && Shape(cfg, t) && Remembered(cfg, s) && i < cfg.ports && s.d == FinishTest(i)
    requires t.wstate == s.wstate
    requires t.d == if s.qlen[i] == 0 && s.wstate[i] > 0 then FinishLower(i) else FinishEnqueue(i)
    requires s.qlen[i] == Load(cfg, s, i) && forall c :: 0 <= c < cfg.ports ==> Load(cfg, t, c) == Load(cfg, s, c)
    ensures Remembered(cfg, t)
  {
  }

  lemma TestNext(cfg: Config, s: State, from: nat, some: bool, i: nat)
    requires DispatchEnabled(cfg, s, from, some) && s.d == FinishTest(i) && s.w[i].response.port == i
    ensures DispatchWorker(cfg, s, from, some) ==
            s.(d := if s.qlen[i] == 0 && s.wstate[i] > 0 then FinishLower(i) else FinishEnqueue(i))
  {
  }

  lemma LowerNext(cfg: Config, s: State, from: nat, some: bool, i: nat)
    requires DispatchEnabled(cfg, s, from, some) && s.d == FinishLower(i) && s.w[i].response.port == i
    ensures DispatchWorker(cfg, s, from, some) == s.(wstate := s.wstate[i := s.wstate[i] - 1], d := FinishEnqueue(i))
  {
  }

  lemma OwnResponse(cfg: Config, s: State, i: nat)
    requires WorkersOk(cfg, s) && cfg.variant.Horus? && (s.d == FinishTest(i) || s.d == FinishLower(i))
    ensures i < |s.w| && s.w[i].response.port == i
  {
    assert WorkerOk(cfg, s.d, s.w[i], i);
  }

  lemma OwnLength(cfg: Config, s: State, i: nat)
    requires Structure(cfg, s) && LoadOk(cfg, s) && cfg.variant.Horus? && s.d == FinishTest(i)
    ensures i < |s.w| && i < cfg.ports && s.w[i].response.port == i && s.qlen[i] == Load(cfg, s, i)
  {
    OwnResponse(cfg, s, i);
    LoadBounded(cfg, s, i);
  }

  lemma TestRemembered(cfg: Config, s: State, a: Action, i: nat)
    requires Structure(cfg, s) && LoadOk(cfg, s) && cfg.variant.Horus? && Remembered(cfg, s)
    requires Enabled(cfg, s, a) && a.Dispatch? && s.d == FinishTest(i) && Shape(cfg, Next(cfg, s, a))
    ensures Remembered(cfg, Next(cfg, s, a))
  {
    LoadsStay(cfg, s, a);
    OwnLength(cfg, s, i);
    TestNext(cfg, s, a.from, a.some, i);
    TestFrom(cfg, s, Next(cfg, s, a), i);
  }

  lemma LowerFrom(cfg: Config, s: State, t: State, i: nat)
    requires Shape(cfg, s) && Shape(cfg, t) && Remembered(cfg, s) && i < cfg.ports && s.d == FinishLower(i)
    requires 0 < s.wstate[i] <= 1 && t.wstate == s.wstate[i := s.wstate[i] - 1]
    requires forall c :: 0 <= c < cfg.ports ==> Load(cfg, t, c) == Load(cfg, s, c)
    ensures Remembered(cfg, t)
  {
  }

  lemma LowerRemembered(cfg: Config, s: State, a: Action, i: nat)
    requires Structure(cfg, s) && cfg.variant.Horus? && Remembered(cfg, s)
    requires Enabled(cfg, s, a) && a.Dispatch? && s.d == FinishLower(i) && Shape(cfg, Next(cfg, s, a))
    requires forall c :: 0 <= c < |s.wstate| ==> s.wstate[c] <= 1
    ensures Remembered(cfg, Next(cfg, s, a))
  {
    LoadsStay(cfg, s, a);
    OwnResponse(cfg, s, i);
    LowerNext(cfg, s, a.from, a.some, i);
    LowerFrom(cfg, s, Next(cfg, s, a), i);
  }

  lemma CountRemembered(cfg: Config, s: State, a: Action, i: nat)
    requires Structure(cfg, s) && cfg.variant.Horus? && Remembered(cfg, s) && Enabled(cfg, s, a) && a.Dispatch?
             && s.d == FinishCount(i)
    requires Shape(cfg, Next(cfg, s, a))
    ensures Remembered(cfg, Next(cfg, s, a))
  {
    var t := Next(cfg, s, a);
    assert WorkerOk(cfg, s.d, s.w[i], i);
    forall c | 0 <= c < cfg.ports
      ensures Load(cfg, s, c) <= Load(cfg, t, c) || t.d == FinishTest(c)
    {
      StepCarries(cfg, s, a, c);
    }
    SameRemembered(cfg, s, t);
  }

  lemma StatesStay(cfg: Config, s: State, from: nat, some: bool)
    requires DispatchEnabled(cfg, s, from, some) && !AtNetworker(s.d) && !s.d.FinishLower?
    ensures DispatchWorker(cfg, s, from, some).wstate == s.wstate
  {
  }

  lemma OtherRemembered(cfg: Config, s: State, a: Action)
    requires Structure(cfg, s) && cfg.variant.Horus? && Remembered(cfg, s) && Enabled(cfg, s, a) && a.Dispatch?
             && !AtNetworker(s.d)
    requires !s.d.FinishCount? && !s.d.FinishTest? && !s.d.FinishLower?
    requires Shape(cfg, Next(cfg, s, a))
    ensures Remembered(cfg, Next(cfg, s, a))
  {
    LoadsStay(cfg, s, a);
    StatesStay(cfg, s, a.from, a.some);
    SameRemembered(cfg, s, Next(cfg, s, a));
  }

  lemma StepKeepsRemembered(cfg: Config, s: State, a: Action)
    requires Inv(cfg, s) && cfg.variant.Horus? && Remembered(cfg, s) && Enabled(cfg, s, a)
    ensures Shape(cfg, Next(cfg, s, a)) && Remembered(cfg, Next(cfg, s, a))
  {
    StepKeepsStructure(cfg, s, a);
    if !a.Dispatch? {
      WorkRemembered(cfg, s, a);
    } else if AtNetworker(s.d) {
      NetRemembered(cfg, s, a);
    } else if s.d.FinishCount? {
      CountRemembered(cfg, s, a, s.d.i);
    } else if s.d.FinishTest? {
      TestRemembered(cfg, s, a, s.d.i);
    } else if s.d.FinishLower? {
      LowerRemembered(cfg, s, a, s.d.i);
    } else {
      OtherRemembered(cfg, s, a);
    }
  }

  // ----- Whole runs -----

  ghost predicate FullInv(cfg: Config, s: State)
  {
    Inv(cfg, s) && RepliesOk(cfg, s) && (cfg.variant.Horus? ==> Remembered(cfg, s))
  }

  lemma StepKeepsAll(cfg: Config, s: State, a: Action)
    requires FullInv(cfg, s) && Enabled(cfg, s, a)
    ensures FullInv(cfg, Next(cfg, s, a))
  {
    StepKeepsInv(cfg, s, a);
    StepKeepsReplies(cfg, s, a);
    if cfg.variant.Horus? { StepKeepsRemembered(cfg, s, a); }
  }

  lemma {:induction false} RunKeepsAll(cfg: Config, s: State, run: seq<Action>, t: State)
    requires FullInv(cfg, s) && RunsTo(cfg, s, run, t)
    ensures FullInv(cfg, t)
    decreases |run|
  {
    if |run| > 0 {
      StepKeepsAll(cfg, s, run[0]);
      RunKeepsAll(cfg, Next(cfg, s, run[0]), run[1..], t);
    }
  }

  lemma ReachableAll(cfg: Config, t: State)
    requires Reachable(cfg, t)
    ensures FullInv(cfg, t)
  {
    var s, run :| Initial(cfg, s) && RunsTo(cfg, s, run, t);
    InitialStructure(cfg, s);
    InitialLoad(cfg, s);
    if cfg.variant.Horus? { InitialIdle(cfg, s); }
    RunKeepsAll(cfg, s, run, t);
  }

  lemma ReplyHolds(cfg: Config, s: State, i: nat)
    requires Reachable(cfg, s) && i < |s.w|
    ensures ReplyOk(cfg, s.w[i])
  {
    ReachableAll(cfg, s);
  }

  /** No drained worker keeps its state: in every reachable state, one that is set belongs to a worker with work, or
      to one whose last task the dispatcher is finishing at this moment. */
  lemma NoneForgotten(cfg: Config, s: State, c: nat)
    requires Reachable(cfg, s) && cfg.variant.Horus? && Shape(cfg, s) && c < cfg.ports && s.wstate[c] > 0
    ensures Load(cfg, s, c) > 0 || s.d == FinishTest(c) || s.d == FinishLower(c)
  {
    ReachableAll(cfg, s);
  }

  /** Every dispatch that is finished is answered exactly once, for the request that was dispatched, before the
      dispatcher sees it finished. */
  lemma AnsweredOnce(cfg: Config, s: State, i: nat)
    requires Reachable(cfg, s) && i < |s.w|
    ensures s.w[i].replies == s.w[i].finishes + (if HasReplied(s.w[i]) then 1 else 0)
    ensures HasReplied(s.w[i]) ==> s.w[i].reply.Reply? && s.w[i].reply.req == s.w[i].slot.req
    ensures s.d == FinishCount(i) || s.d == FinishEnqueue(i) || s.d == FinishAck(i) ==> HasReplied(s.w[i])
  {
    ReachableAll(cfg, s);
    assert ReplyOk(cfg, s.w[i]) && WorkerOk(cfg, s.d, s.w[i], i);
  }

  /** What a reply's queue length says: the work there was for the queue when the worker read its counter, without the
      request itself; in Horus modulo 2^16, in track_us modulo 2^32. */
  lemma LengthReported(cfg: Config, s: State, i: nat)
    requires Reachable(cfg, s) && i < |s.w| && HasReplied(s.w[i])
    ensures var x := s.w[i];
            && x.reply.Reply? && (if cfg.variant.Horus? then 1 else x.slot.req.us) <= x.readLoad
            && x.reply.qlen == (if cfg.variant.Horus? then (x.readLoad - 1) % 0x10000
                                else (x.readLoad - x.slot.req.us) % 0x1_0000_0000)
            && x.reply.idle == (cfg.variant.Horus? && x.reply.qlen == 0 && x.readState > 0)
  {
    ReplyHolds(cfg, s, i);
  }

  lemma IdleReply(cfg: Config, x: Worker)
    requires ReplyOk(cfg, x) && HasReplied(x) && x.reply.Reply? && x.reply.idle
    ensures cfg.variant.Horus? && 1 <= x.readLoad <= cfg.pool && (x.readLoad - 1) % WRAP16 == 0
  {
  }

  /** With no more requests than 16 bits can tell apart, an IDLE reply means that the worker had no other work when
      it read its queue length. */
  lemma IdleMeansAlone(cfg: Config, s: State, i: nat)
    requires Reachable(cfg, s) && i < |s.w| && HasReplied(s.w[i]) && cfg.pool <= WRAP16
    requires s.w[i].reply.Reply? && s.w[i].reply.idle
    ensures s.w[i].readLoad == 1
  {
    ReplyHolds(cfg, s, i);
    IdleReply(cfg, s.w[i]);
    OnlyOne(s.w[i].readLoad);
  }

  lemma OnlyOne(load: nat)
    requires 1 <= load <= WRAP16 && (load - 1) % WRAP16 == 0
    ensures load == 1
  {
  }
}
