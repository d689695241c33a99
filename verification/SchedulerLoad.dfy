/**
  Exact accounting: in every reachable state `queue_length[c]`, modulo 2^32, is the work queued, in hand and
  in flight for queue c (tasks in Horus, microseconds in track_us).
 */
module SchedulerLoad {
  import opened Widths
  import opened Scheduler
  import opened SchedulerInvariant

  lemma {:induction false} SlotsLoadUpdate(cfg: Config, w: seq<Worker>, i: nat, y: Worker, c: nat, m: nat)
    requires i < |w| && m <= |w|
    ensures SlotsLoad(cfg, w[i := y], c, m) ==
            SlotsLoad(cfg, w, c, m) + if i < m then WorkerLoad(cfg, y, c) - WorkerLoad(cfg, w[i], c) else 0
  {
    if 0 < m { SlotsLoadUpdate(cfg, w, i, y, c, m - 1); }
  }

  lemma {:induction false} QueueLoadAppend(cfg: Config, q: seq<Task>, t: Task)
    ensures QueueLoad(cfg, q + [t]) == QueueLoad(cfg, q) + cfg.Weight(t.req)
  {
    if q != [] {
      assert (q + [t])[1..] == q[1..] + [t];
      QueueLoadAppend(cfg, q[1..], t);
    }
  }

  lemma QueueLoadRequeue(cfg: Config, q: seq<Task>, t: Task)
    requires t.port < |cfg.headFirst|
    ensures QueueLoad(cfg, Requeue(cfg, q, t)) == QueueLoad(cfg, q) + cfg.Weight(t.req)
  {
    QueueLoadAppend(cfg, q, t);
    assert ([t] + q)[1..] == q;
  }

  lemma AddWraps(x: int, y: int)
    ensures (x % WRAP32 + y) % WRAP32 == (x + y) % WRAP32
  {
  }

  /** What a step does to the load of each queue, and to the counter when it is the step that changes it. */
  ghost predicate Carried(cfg: Config, s: State, t: State, c: nat, delta: int)
    requires Shape(cfg, s) && Shape(cfg, t) && c < cfg.ports
  {
    && Load(cfg, t, c) == Load(cfg, s, c) + delta
    && (s.qlen[c] < WRAP32 ==> t.qlen[c] == (s.qlen[c] + delta) % WRAP32)
  }

  lemma CarriedOk(cfg: Config, s: State, t: State, c: nat, delta: int)
    requires Shape(cfg, s) && Shape(cfg, t) && c < cfg.ports && Carried(cfg, s, t, c, delta)
    requires s.qlen[c] == Load(cfg, s, c) % WRAP32
    ensures t.qlen[c] == Load(cfg, t, c) % WRAP32
  {
    AddWraps(Load(cfg, s, c), delta);
  }

  /** By how much a step changes the load of queue `c`: only counting in and counting out do. */
  function Delta(cfg: Config, s: State, a: Action, c: nat): int
  {
    if !a.Dispatch? then 0
    else match s.d
         case FinishCount(i) =>
           if i < |s.w| && s.w[i].response.port == c then 0 - cfg.Weight(s.w[i].response.req) else 0
         case NetCount(k) =>
           if k < |s.reqs| && k < |s.types| && s.types[k] == c then cfg.Weight(s.reqs[k]) else 0
         case _ => 0
  }

  /** Replacing a worker by one with the same task leaves every load as it is. */
  lemma SameTaskLoad(cfg: Config, s: State, t: State, i: nat, y: Worker, c: nat)
    requires Shape(cfg, s) && i < |s.w| && c < cfg.ports
    requires y.counted == s.w[i].counted && y.slot == s.w[i].slot
    requires t == s.(w := s.w[i := y], wstate := t.wstate)
    ensures Load(cfg, t, c) == Load(cfg, s, c)
  {
    SlotsLoadUpdate(cfg, s.w, i, y, c, |s.w|);
  }

  lemma WorkLoad(cfg: Config, s: State, i: nat, preempted: bool, c: nat)
    requires WorkEnabled(cfg, s, i) && c < cfg.ports
    ensures Carried(cfg, s, Work1(cfg, s, i, preempted), c, 0)
  {
    SameTaskLoad(cfg, s, Work1(cfg, s, i, preempted), i, Advanced(cfg, s, i, preempted), c);
  }

  lemma NetworkLoad(cfg: Config, s: State, arrival: bool, req: Req, core: nat, c: nat)
    requires HandOver(cfg, s) && NetworkEnabled(cfg, s, arrival, req, core) && c < cfg.ports
    ensures Carried(cfg, s, Network1(cfg, s, arrival, req, core), c, 0)
  {
  }

  lemma NetCountLoad(cfg: Config, s: State, a: Action, c: nat)
    requires a.Dispatch? && DispatchEnabled(cfg, s, 0, false) && s.d.NetCount? && c < cfg.ports
    ensures Carried(cfg, s, DispatchNet(cfg, s, a.granted), c, Delta(cfg, s, a, c))
  {
    assert s.d.k < |s.reqs|;
  }

  lemma NetPutLoad(cfg: Config, s: State, a: Action, c: nat)
    requires a.Dispatch? && DispatchEnabled(cfg, s, 0, false) && s.d.NetPut? && c < cfg.ports
    ensures Carried(cfg, s, DispatchNet(cfg, s, a.granted), c, 0)
  {
    var k := s.d.k;
    QueueLoadAppend(cfg, s.tskq[s.types[k]], Scheduler.Task(s.reqs[k], s.types[k], Packet));
  }

  lemma NetQuietLoad(cfg: Config, s: State, a: Action, c: nat)
    requires a.Dispatch? && DispatchEnabled(cfg, s, 0, false) && c < cfg.ports
    requires s.d.Net? || s.d.NetTake? || s.d.NetState? || s.d.NetBack? || s.d.NetDone?
    ensures Carried(cfg, s, DispatchNet(cfg, s, a.granted), c, 0)
  {
  }

  /** Worker `i` of a step, and its phase. */
  ghost predicate At1(cfg: Config, s: State, a: Action, c: nat)
  {
    && Shape(cfg, s) && a.Dispatch? && DispatchEnabled(cfg, s, a.from, a.some) && c < cfg.ports
    && 0 <= Attending(s.d) < |s.w| && WorkerOk(cfg, s.d, s.w[Attending(s.d)], Attending(s.d))
  }

  lemma FinishCountLoad(cfg: Config, s: State, a: Action, c: nat)
    requires At1(cfg, s, a, c) && s.d.FinishCount?
    ensures Carried(cfg, s, DispatchWorker(cfg, s, a.from, a.some), c, Delta(cfg, s, a, c))
  {
    var i := s.d.i;
    SlotsLoadUpdate(cfg, s.w, i, s.w[i].(counted := false), c, |s.w|);
  }

  lemma FinishLoad(cfg: Config, s: State, a: Action, c: nat)
    requires At1(cfg, s, a, c) && (s.d.FinishEnqueue? || s.d.FinishAck? || s.d.PreemptAck?)
    ensures Carried(cfg, s, DispatchWorker(cfg, s, a.from, a.some), c, 0)
  {
    var t := DispatchWorker(cfg, s, a.from, a.some);
    SlotsLoadUpdate(cfg, s.w, s.d.i, t.w[s.d.i], c, |s.w|);
  }

  lemma PreemptLoad(cfg: Config, s: State, a: Action, c: nat)
    requires At1(cfg, s, a, c) && s.d.PreemptEnqueue?
    ensures Carried(cfg, s, DispatchWorker(cfg, s, a.from, a.some), c, 0)
  {
    var x := s.w[s.d.i];
    SlotsLoadUpdate(cfg, s.w, s.d.i, x.(busy := false, counted := false), c, |s.w|);
    QueueLoadRequeue(cfg, s.tskq[x.response.port], x.response);
  }

  lemma FillLoad(cfg: Config, s: State, a: Action, c: nat)
    requires At1(cfg, s, a, c) && s.d.FillSlot?
    ensures Carried(cfg, s, DispatchWorker(cfg, s, a.from, a.some), c, 0)
  {
    var t := DispatchWorker(cfg, s, a.from, a.some);
    SlotsLoadUpdate(cfg, s.w, s.d.i, t.w[s.d.i], c, |s.w|);
  }

  lemma FlagLoad(cfg: Config, s: State, a: Action, c: nat)
    requires At1(cfg, s, a, c) && (s.d.Mark? || s.d.Activate?)
    ensures Carried(cfg, s, DispatchWorker(cfg, s, a.from, a.some), c, 0)
  {
    var t := DispatchWorker(cfg, s, a.from, a.some);
    SlotsLoadUpdate(cfg, s.w, s.d.i, t.w[s.d.i], c, |s.w|);
  }

  lemma QuietLoad(cfg: Config, s: State, a: Action, c: nat)
    requires Shape(cfg, s) && a.Dispatch? && DispatchEnabled(cfg, s, a.from, a.some) && c < cfg.ports
    requires QueuesOk(s.place, s.tskq)
    requires s.d.Scan? || s.d.FinishTest? || s.d.FinishLower? || s.d.Dequeue?
    ensures Carried(cfg, s, DispatchWorker(cfg, s, a.from, a.some), c, 0)
  {
    if s.d.Dequeue? && a.some {
      assert QueueOk(s.place, s.tskq[a.from], a.from);
    }
  }

  lemma NetCarries(cfg: Config, s: State, a: Action, c: nat)
    requires Structure(cfg, s) && a.Dispatch? && DispatchEnabled(cfg, s, 0, false) && AtNetworker(s.d) && c < cfg.ports
    requires Shape(cfg, DispatchNet(cfg, s, a.granted))
    ensures Carried(cfg, s, DispatchNet(cfg, s, a.granted), c, Delta(cfg, s, a, c))
  {
    match s.d
    case NetCount(_) => NetCountLoad(cfg, s, a, c);
    case NetPut(_) => NetPutLoad(cfg, s, a, c);
    case _ => NetQuietLoad(cfg, s, a, c);
  }

  lemma DispatchCarries(cfg: Config, s: State, a: Action, c: nat)
    requires Structure(cfg, s) && a.Dispatch? && DispatchEnabled(cfg, s, a.from, a.some) && !AtNetworker(s.d)
             && c < cfg.ports
    requires Shape(cfg, DispatchWorker(cfg, s, a.from, a.some))
    ensures Carried(cfg, s, DispatchWorker(cfg, s, a.from, a.some), c, Delta(cfg, s, a, c))
  {
    if Attending(s.d) >= 0 {
      assert WorkerOk(cfg, s.d, s.w[Attending(s.d)], Attending(s.d));
    }
    match s.d
    case FinishCount(_) => FinishCountLoad(cfg, s, a, c);
    case PreemptEnqueue(_) => PreemptLoad(cfg, s, a, c);
    case Mark(_, _) => FlagLoad(cfg, s, a, c);
    case FillSlot(_, _) => FillLoad(cfg, s, a, c);
    case Activate(_) => FlagLoad(cfg, s, a, c);
    case Scan(_) => QuietLoad(cfg, s, a, c);
    case FinishTest(_) => QuietLoad(cfg, s, a, c);
    case FinishLower(_) => QuietLoad(cfg, s, a, c);
    case Dequeue(_) => QuietLoad(cfg, s, a, c);
    case _ => FinishLoad(cfg, s, a, c);
  }

  /** The load of a queue and its counter move together, whatever the step. */
  lemma StepCarries(cfg: Config, s: State, a: Action, c: nat)
    requires Structure(cfg, s) && Enabled(cfg, s, a) && c < cfg.ports
    requires Shape(cfg, Next(cfg, s, a))
    ensures Carried(cfg, s, Next(cfg, s, a), c, Delta(cfg, s, a, c))
  {
    match a
    case Work(i, preempted) => WorkLoad(cfg, s, i, preempted, c);
    case Network(arrival, req, core) => NetworkLoad(cfg, s, arrival, req, core, c);
    case Dispatch(_, _, _) =>
      if AtNetworker(s.d) {
        NetCarries(cfg, s, a, c);
      } else {
        DispatchCarries(cfg, s, a, c);
      }
  }

  lemma StepKeepsLoad(cfg: Config, s: State, a: Action)
    requires Structure(cfg, s) && LoadOk(cfg, s) && Enabled(cfg, s, a)
    ensures Shape(cfg, Next(cfg, s, a)) && LoadOk(cfg, Next(cfg, s, a))
  {
    StepKeepsStructure(cfg, s, a);
    forall c | 0 <= c < cfg.ports
      ensures Next(cfg, s, a).qlen[c] == Load(cfg, Next(cfg, s, a), c) % WRAP32
    {
      StepCarries(cfg, s, a, c);
      CarriedOk(cfg, s, Next(cfg, s, a), c, Delta(cfg, s, a, c));
    }
  }

  lemma {:induction false} NoSlotsLoad(cfg: Config, w: seq<Worker>, c: nat, m: nat)
    requires m <= |w| && forall i :: 0 <= i < m ==> !(w[i].counted && w[i].slot.port == c)
    ensures SlotsLoad(cfg, w, c, m) == 0
  {
    if 0 < m { NoSlotsLoad(cfg, w, c, m - 1); }
  }

  lemma InitialLoad(cfg: Config, s: State)
    requires Initial(cfg, s)
    ensures LoadOk(cfg, s)
  {
    forall c | 0 <= c < cfg.ports
      ensures s.qlen[c] == Load(cfg, s, c) % WRAP32
    {
      NoSlotsLoad(cfg, s.w, c, |s.w|);
    }
  }
}
