/**
  Idle signals in Horus: the dispatcher lowers `worker_state[w]` exactly for a reply that told the leaf
  scheduler the worker is idle, although the worker read `queue_length` and `worker_state` separately and
  earlier, and all cores run interleaved.
 */
module SchedulerIdle {
  import opened Widths
  import opened Scheduler
  import opened SchedulerInvariant
  import opened SchedulerLoad

  // ----- In Horus the load of a queue is a number of live requests -----

  lemma {:induction false} HorusSlots(cfg: Config, w: seq<Worker>, c: nat, m: nat)
    requires cfg.variant.Horus? && m <= |w|
    requires forall i :: 0 <= i < |w| && w[i].counted ==> w[i].slot.port == i
    ensures SlotsLoad(cfg, w, c, m) == if c < m && w[c].counted then 1 else 0
  {
    if 0 < m { HorusSlots(cfg, w, c, m - 1); }
  }

  lemma {:induction false} HorusQueue(cfg: Config, q: seq<Task>)
    requires cfg.variant.Horus?
    ensures QueueLoad(cfg, q) == |q|
  {
    if q != [] { HorusQueue(cfg, q[1..]); }
  }

  function Requests(q: seq<Task>): set<Req>
  {
    set a | 0 <= a < |q| :: q[a].req
  }

  lemma {:induction false} RequestsCounted(q: seq<Task>)
    requires forall a, b :: 0 <= a < b < |q| ==> q[a].req != q[b].req
    ensures |Requests(q)| == |q|
  {
    if q != [] {
      var p := q[..|q| - 1];
      RequestsCounted(p);
      assert Requests(q) == Requests(p) + {q[|q| - 1].req};
    }
  }

  lemma CountedOwn(cfg: Config, s: State)
    requires WorkersOk(cfg, s) && cfg.variant.Horus?
    ensures forall i :: 0 <= i < |s.w| && s.w[i].counted ==> s.w[i].busy && s.w[i].slot.port == i
  {
    forall i | 0 <= i < |s.w| && s.w[i].counted
      ensures s.w[i].busy && s.w[i].slot.port == i
    {
      assert WorkerOk(cfg, s.d, s.w[i], i);
    }
  }

  /** The request in the dispatcher's hand for queue c, if any. */
  function HandSet(s: State, c: nat): set<Req>
  {
    match s.d
    case Mark(_, t) => if t.port == c then {t.req} else {}
    case FillSlot(_, t) => if t.port == c then {t.req} else {}
    case NetState(k) => if k < |s.reqs| && k < |s.types| && s.types[k] == c then {s.reqs[k]} else {}
    case NetPut(k) => if k < |s.reqs| && k < |s.types| && s.types[k] == c then {s.reqs[k]} else {}
    case _ => {}
  }

  lemma HandSetPlace(cfg: Config, s: State, c: nat)
    requires Structure(cfg, s)
    ensures forall r :: r in HandSet(s, c) ==> r in s.place && (s.place[r].Held? || s.place[r].Batch?)
  {
    if s.d.NetState? || s.d.NetPut? {
      assert InBatch(s, s.d.k);
    }
  }

  /** The pool of requests bounds what a counter can stand for, so it never wraps. */
  lemma LoadBounded(cfg: Config, s: State, c: nat)
    requires Structure(cfg, s) && cfg.variant.Horus? && c < cfg.ports
    ensures Load(cfg, s, c) <= |s.place| < WRAP32
  {
    var q := s.tskq[c];
    assert QueueOk(s.place, q, c);
    HorusQueue(cfg, q);
    RequestsCounted(q);
    CountedOwn(cfg, s);
    HorusSlots(cfg, s.w, c, |s.w|);
    HandSetPlace(cfg, s, c);
    var slot := if c < |s.w| && s.w[c].counted then {s.w[c].slot.req} else {};
    Together(s.place, Requests(q), slot, HandSet(s, c), c);
  }

  lemma Together(place: map<Req, Place>, a: set<Req>, b: set<Req>, h: set<Req>, c: nat)
    requires forall r :: r in a ==> At(place, r, Queued(c))
    requires forall r :: r in b ==> At(place, r, Slot(c))
    requires forall r :: r in h ==> r in place && (place[r].Held? || place[r].Batch?)
    ensures |a| + |b| + |h| <= |place|
  {
    assert a !! b && (a + b) !! h;
    assert a + b + h <= place.Keys;
    Smaller(a + b + h, place.Keys);
  }

  lemma Smaller(a: set<Req>, b: set<Req>)
    requires a <= b
    ensures |a| <= |b|
  {
    assert b == a + (b - a);
  }

  /** A worker whose task is counted accounts for one. */
  lemma CountedLoad(cfg: Config, s: State, i: nat)
    requires WorkersOk(cfg, s) && Shape(cfg, s) && cfg.variant.Horus? && i < |s.w|
    ensures s.w[i].counted ==> 1 + HandLoad(cfg, s, i) <= Load(cfg, s, i)
  {
    CountedOwn(cfg, s);
    HorusSlots(cfg, s.w, i, |s.w|);
  }

  // ----- What a worker read, and what it means later -----

  /** Worker has read the queue length for the task that is still counted. */
  ghost predicate HasRead(x: Worker)
  {
    || x.pc == ReadState || x.pc == Send
    || ((x.pc == Fill || x.pc == Publish) && x.finished)
    || (x.pc == Wait && x.responseFlag == Finished && x.counted)
  }

  ghost predicate LengthRead(x: Worker)
  {
    1 <= x.readLoad && x.newQlen == (x.readLoad % WRAP32 - 1) % WRAP16
  }

  /** The reply for the task in the slot carries the verdict reached from the two reads. */
  ghost predicate Replied(x: Worker)
  {
    && x.idle == (x.newQlen == 0 && x.readState > 0)
    && (x.pc != Send ==> x.reply == Reply(x.slot.req, x.idle, x.newQlen))
  }

  /** `load` is what is counted for the worker now, `wstate` its state now. Unless more work has come in,
      the state is still the one the worker read. */
  ghost predicate ReadOk(x: Worker, load: nat, wstate: nat)
  {
    HasRead(x) ==>
      && LengthRead(x) && x.readLoad <= load
      && (x.pc != ReadState ==> Replied(x) && (load == 1 ==> wstate == x.readState))
  }

  ghost predicate IdleOk(cfg: Config, s: State)
    requires Shape(cfg, s) && cfg.variant.Horus?
  {
    && (forall c :: 0 <= c < |s.wstate| ==> s.wstate[c] <= 1)
    && (forall i :: 0 <= i < |s.w| ==> ReadOk(s.w[i], Load(cfg, s, i), s.wstate[i]))
    && (s.d.FinishTest? && s.d.i < |s.w| ==>
          var x, load := s.w[s.d.i], Load(cfg, s, s.d.i);
          LengthRead(x) && Replied(x) && x.readLoad <= load + 1 && (load == 0 ==> s.wstate[s.d.i] == x.readState))
    && (s.d.FinishLower? && s.d.i < |s.w| ==>
          var x := s.w[s.d.i];
          Load(cfg, s, s.d.i) == 0 && s.wstate[s.d.i] > 0 && x.idle && x.reply == Reply(x.slot.req, true, x.newQlen))
  }

  lemma InitialIdle(cfg: Config, s: State)
    requires Initial(cfg, s) && cfg.variant.Horus?
    ensures IdleOk(cfg, s)
  {
  }

  /** Everything that holds in every reachable state. */
  ghost predicate Inv(cfg: Config, s: State)
  {
    Structure(cfg, s) && LoadOk(cfg, s) && (if cfg.variant.Horus? then IdleOk(cfg, s) else NoTest(s))
  }

  /** The dispatcher of track_us has no idle state to test. */
  ghost predicate NoTest(s: State)
  {
    !s.d.FinishTest? && !s.d.FinishLower?
  }

  lemma StepKeepsNoTest(cfg: Config, s: State, a: Action)
    requires cfg.variant.TrackUs? && NoTest(s) && Enabled(cfg, s, a)
    ensures NoTest(Next(cfg, s, a))
  {
  }

  lemma AdvanceRead(cfg: Config, d: DispatcherPc, x: Worker, i: nat, q: nat, ws: nat, load: nat, preempted: bool)
    requires cfg.variant.Horus? && Phase(d, x, i) && (x.pc == Wait ==> x.requestFlag == Active)
    requires ReadOk(x, load, ws) && q == load % WRAP32 && (x.counted ==> 1 <= load)
    ensures ReadOk(Advance(cfg, x, q, ws, load, preempted), load, if x.pc == StartState then 0 else ws)
  {
  }

  /** Loads and states of the other workers stay, and the dispatcher is not testing worker `i`. */
  lemma WorkIdleFrom(cfg: Config, s: State, t: State, i: nat)
    requires Shape(cfg, s) && Shape(cfg, t) && cfg.variant.Horus? && IdleOk(cfg, s) && i < |s.w|
    requires t.d == s.d && (s.d.FinishTest? || s.d.FinishLower? ==> s.d.i != i)
    requires forall j :: 0 <= j < |s.w| && j != i ==> t.w[j] == s.w[j]
    requires forall c :: 0 <= c < |s.wstate| && c != i ==> t.wstate[c] == s.wstate[c]
    requires t.wstate[i] <= s.wstate[i]
    requires forall c :: 0 <= c < cfg.ports ==> Load(cfg, t, c) == Load(cfg, s, c)
    requires ReadOk(t.w[i], Load(cfg, s, i), t.wstate[i])
    ensures IdleOk(cfg, t)
  {
    forall j | 0 <= j < |t.w|
      ensures ReadOk(t.w[j], Load(cfg, t, j), t.wstate[j])
    {
      assert ReadOk(s.w[j], Load(cfg, s, j), s.wstate[j]);
    }
  }

  lemma WorkIdle(cfg: Config, s: State, i: nat, preempted: bool)
    requires Inv(cfg, s) && WorkEnabled(cfg, s, i) && cfg.variant.Horus?
    requires Shape(cfg, Work1(cfg, s, i, preempted))
    ensures IdleOk(cfg, Work1(cfg, s, i, preempted))
  {
    var t := Work1(cfg, s, i, preempted);
    assert WorkerOk(cfg, s.d, s.w[i], i);
    CountedLoad(cfg, s, i);
    AdvanceRead(cfg, s.d, s.w[i], i, s.qlen[i], s.wstate[i], Load(cfg, s, i), preempted);
    forall c | 0 <= c < cfg.ports
      ensures Load(cfg, t, c) == Load(cfg, s, c)
    {
      WorkLoad(cfg, s, i, preempted, c);
    }
    WorkIdleFrom(cfg, s, t, i);
  }

  /** A step that leaves the workers' reads alone, takes no load away, and changes a state only together with
      the load, keeps what the reads mean. */
  lemma IdleFrame(cfg: Config, s: State, t: State)
    requires Shape(cfg, s) && Shape(cfg, t) && cfg.variant.Horus? && IdleOk(cfg, s)
    requires !t.d.FinishTest? && !t.d.FinishLower?
    requires forall c :: 0 <= c < |t.wstate| ==> t.wstate[c] <= 1
    requires forall i :: 0 <= i < |s.w| && HasRead(t.w[i]) ==>
               && t.w[i] == s.w[i] && Load(cfg, s, i) <= Load(cfg, t, i)
               && (t.wstate[i] == s.wstate[i] || 1 < Load(cfg, t, i))
    ensures IdleOk(cfg, t)
  {
    forall i | 0 <= i < |t.w|
      ensures ReadOk(t.w[i], Load(cfg, t, i), t.wstate[i])
    {
      assert ReadOk(s.w[i], Load(cfg, s, i), s.wstate[i]);
    }
  }

  /** The counters and positions a dispatcher step starts from, for the worker it attends to. */
  ghost predicate Facing(cfg: Config, s: State)
  {
    && Shape(cfg, s) && cfg.variant.Horus? && IdleOk(cfg, s)
    && 0 <= Attending(s.d) < |s.w| && WorkerOk(cfg, s.d, s.w[Attending(s.d)], Attending(s.d))
  }

  lemma FinishCountIdle(cfg: Config, s: State, t: State, i: nat)
    requires Facing(cfg, s) && Shape(cfg, t) && s.d == FinishCount(i) && t.d == FinishTest(i)
    requires t.w == s.w[i := s.w[i].(counted := false)] && t.wstate == s.wstate
    requires Load(cfg, t, i) == Load(cfg, s, i) - 1
    requires forall c :: 0 <= c < cfg.ports && c != i ==> Load(cfg, t, c) == Load(cfg, s, c)
    ensures IdleOk(cfg, t)
  {
    assert HasRead(s.w[i]) && ReadOk(s.w[i], Load(cfg, s, i), s.wstate[i]);
    forall j | 0 <= j < |t.w|
      ensures ReadOk(t.w[j], Load(cfg, t, j), t.wstate[j])
    {
      assert ReadOk(s.w[j], Load(cfg, s, j), s.wstate[j]);
    }
  }

  /** The test passes only for a worker that said it is idle, and always when nothing has come in since. */
  lemma TestMeansIdle(cfg: Config, s: State, i: nat)
    requires Facing(cfg, s) && s.d == FinishTest(i)
    requires s.qlen[i] == Load(cfg, s, i) % WRAP32 && Load(cfg, s, i) < WRAP32
    ensures s.w[i].reply == Reply(s.w[i].slot.req, s.w[i].idle, s.w[i].newQlen)
    ensures s.qlen[i] == 0 && s.wstate[i] > 0 <==> s.w[i].idle && Load(cfg, s, i) == 0
  {
    assert Phase(s.d, s.w[i], i);
  }

  lemma FinishTestIdle(cfg: Config, s: State, t: State, i: nat)
    requires Facing(cfg, s) && Shape(cfg, t) && s.d == FinishTest(i)
    requires s.qlen[i] == Load(cfg, s, i) % WRAP32 && Load(cfg, s, i) < WRAP32
    requires t == s.(d := if s.qlen[i] == 0 && s.wstate[i] > 0 then FinishLower(i) else FinishEnqueue(i))
    requires forall c :: 0 <= c < cfg.ports ==> Load(cfg, t, c) == Load(cfg, s, c)
    ensures IdleOk(cfg, t)
  {
    TestMeansIdle(cfg, s, i);
    forall j | 0 <= j < |t.w|
      ensures ReadOk(t.w[j], Load(cfg, t, j), t.wstate[j])
    {
      assert ReadOk(s.w[j], Load(cfg, s, j), s.wstate[j]);
    }
  }

  lemma NetStateIdle(cfg: Config, s: State, t: State)
    requires Inv(cfg, s) && cfg.variant.Horus? && s.d.NetState? && DispatchEnabled(cfg, s, 0, false)
    requires t == DispatchNet(cfg, s, false) && Shape(cfg, t)
    requires forall c :: 0 <= c < cfg.ports ==> Load(cfg, t, c) == Load(cfg, s, c)
    ensures IdleOk(cfg, t)
  {
    forall i | 0 <= i < |s.w| && HasRead(t.w[i])
      ensures t.wstate[i] == s.wstate[i] || 1 < Load(cfg, t, i)
    {
      assert WorkerOk(cfg, s.d, s.w[i], i);
      CountedLoad(cfg, s, i);
    }
    IdleFrame(cfg, s, t);
  }

  /** Nothing an idle signal depends on changes. */
  lemma SameIdle(cfg: Config, s: State, t: State)
    requires Shape(cfg, s) && Shape(cfg, t) && cfg.variant.Horus? && IdleOk(cfg, s)
    requires t.w == s.w && t.wstate == s.wstate && (t.d == s.d || (!t.d.FinishTest? && !t.d.FinishLower?))
    requires forall c :: 0 <= c < cfg.ports ==> Load(cfg, t, c) == Load(cfg, s, c)
    ensures IdleOk(cfg, t)
  {
    forall i | 0 <= i < |t.w|
      ensures ReadOk(t.w[i], Load(cfg, t, i), t.wstate[i])
    {
      assert ReadOk(s.w[i], Load(cfg, s, i), s.wstate[i]);
    }
  }

  /** Only worker `i`, which has no reading outstanding, changes, or a state that only goes down. */
  lemma AsideIdle(cfg: Config, s: State, t: State, i: nat)
    requires Shape(cfg, s) && Shape(cfg, t) && cfg.variant.Horus? && IdleOk(cfg, s) && i < |s.w|
    requires !t.d.FinishTest? && !t.d.FinishLower? && !HasRead(t.w[i])
    requires forall j :: 0 <= j < |s.w| && j != i ==> t.w[j] == s.w[j]
    requires forall c :: 0 <= c < cfg.ports && c != i ==> t.wstate[c] == s.wstate[c]
    requires t.wstate[i] <= s.wstate[i]
    requires forall c :: 0 <= c < cfg.ports ==> Load(cfg, t, c) == Load(cfg, s, c)
    ensures IdleOk(cfg, t)
  {
    IdleFrame(cfg, s, t);
  }

  lemma NetCountIdle(cfg: Config, s: State, t: State)
    requires Inv(cfg, s) && cfg.variant.Horus? && s.d.NetCount? && Shape(cfg, t)
    requires t.w == s.w && t.wstate == s.wstate && t.d.NetState?
    requires forall c :: 0 <= c < cfg.ports ==>
               Load(cfg, t, c) == Load(cfg, s, c) || Load(cfg, t, c) == Load(cfg, s, c) + 1
    ensures IdleOk(cfg, t)
  {
    IdleFrame(cfg, s, t);
  }

  lemma LoadsStay(cfg: Config, s: State, a: Action)
    requires Structure(cfg, s) && Enabled(cfg, s, a) && Shape(cfg, Next(cfg, s, a))
    requires a.Dispatch? ==> !s.d.FinishCount? && !s.d.NetCount?
    ensures forall c :: 0 <= c < cfg.ports ==> Load(cfg, Next(cfg, s, a), c) == Load(cfg, s, c)
  {
    forall c | 0 <= c < cfg.ports
      ensures Load(cfg, Next(cfg, s, a), c) == Load(cfg, s, c)
    {
      StepCarries(cfg, s, a, c);
    }
  }

  lemma NetIdle(cfg: Config, s: State, a: Action)
    requires Inv(cfg, s) && cfg.variant.Horus? && Enabled(cfg, s, a) && a.Dispatch? && AtNetworker(s.d)
    requires Shape(cfg, Next(cfg, s, a))
    ensures IdleOk(cfg, Next(cfg, s, a))
  {
    var t := Next(cfg, s, a);
    if s.d.NetCount? {
      forall c | 0 <= c < cfg.ports
        ensures Load(cfg, t, c) == Load(cfg, s, c) || Load(cfg, t, c) == Load(cfg, s, c) + 1
      {
        StepCarries(cfg, s, a, c);
      }
      NetCountIdle(cfg, s, t);
    } else {
      LoadsStay(cfg, s, a);
      if s.d.NetState? {
        NetStateIdle(cfg, s, t);
      } else {
        SameIdle(cfg, s, t);
      }
    }
  }

  lemma FinishCounted(cfg: Config, s: State, a: Action, i: nat)
    requires Inv(cfg, s) && cfg.variant.Horus? && Enabled(cfg, s, a) && a.Dispatch? && s.d == FinishCount(i)
    requires Shape(cfg, Next(cfg, s, a))
    ensures IdleOk(cfg, Next(cfg, s, a))
  {
    var t := Next(cfg, s, a);
    assert WorkerOk(cfg, s.d, s.w[i], i);
    forall c | 0 <= c < cfg.ports
      ensures Load(cfg, t, c) == Load(cfg, s, c) - if c == i then 1 else 0
    {
      StepCarries(cfg, s, a, c);
    }
    FinishCountIdle(cfg, s, t, i);
  }

  lemma FinishTested(cfg: Config, s: State, a: Action, i: nat)
    requires Inv(cfg, s) && cfg.variant.Horus? && Enabled(cfg, s, a) && a.Dispatch? && s.d == FinishTest(i)
    requires Shape(cfg, Next(cfg, s, a))
    ensures IdleOk(cfg, Next(cfg, s, a))
  {
    assert WorkerOk(cfg, s.d, s.w[i], i);
    LoadsStay(cfg, s, a);
    LoadBounded(cfg, s, i);
    FinishTestIdle(cfg, s, Next(cfg, s, a), i);
  }

  lemma AttendIdle(cfg: Config, s: State, a: Action)
    requires Inv(cfg, s) && cfg.variant.Horus? && Enabled(cfg, s, a) && a.Dispatch? && Attending(s.d) >= 0
    requires !s.d.FinishCount? && !s.d.FinishTest?
    requires Shape(cfg, Next(cfg, s, a))
    ensures IdleOk(cfg, Next(cfg, s, a))
  {
    LoadsStay(cfg, s, a);
    var i := Attending(s.d);
    assert WorkerOk(cfg, s.d, s.w[i], i);
    AttendFrame(cfg, s, a.from, a.some, i);
    AttendNoRead(cfg, s, a.from, a.some, i);
    AsideIdle(cfg, s, Next(cfg, s, a), i);
  }

  lemma AttendFrame(cfg: Config, s: State, from: nat, some: bool, i: nat)
    requires Shape(cfg, s) && cfg.variant.Horus? && DispatchEnabled(cfg, s, from, some) && Attending(s.d) == i < |s.w|
    requires !s.d.FinishCount? && !s.d.FinishTest? && (s.w[i].busy ==> s.w[i].response.port == i || !s.d.FinishLower?)
    requires s.d.FinishLower? ==> s.w[i].busy
    ensures var t := DispatchWorker(cfg, s, from, some);
            && !t.d.FinishTest? && !t.d.FinishLower? && |t.w| == |s.w| && |t.wstate| == |s.wstate|
            && t.wstate[i] <= s.wstate[i]
            && (forall j :: 0 <= j < |s.w| && j != i ==> t.w[j] == s.w[j])
            && forall c :: 0 <= c < cfg.ports && c != i ==> t.wstate[c] == s.wstate[c]
  {
  }

  lemma AttendNoRead(cfg: Config, s: State, from: nat, some: bool, i: nat)
    requires Shape(cfg, s) && DispatchEnabled(cfg, s, from, some) && Attending(s.d) == i < |s.w|
    requires !s.d.FinishCount? && !s.d.FinishTest? && Phase(s.d, s.w[i], i)
    ensures var t := DispatchWorker(cfg, s, from, some); |t.w| == |s.w| && !HasRead(t.w[i])
  {
  }

  lemma ScanFrame(cfg: Config, s: State, from: nat, some: bool)
    requires DispatchEnabled(cfg, s, from, some) && s.d.Scan?
    ensures var t := DispatchWorker(cfg, s, from, some);
            t.w == s.w && t.wstate == s.wstate && !t.d.FinishTest? && !t.d.FinishLower?
  {
  }

  lemma ScanIdle(cfg: Config, s: State, a: Action)
    requires Structure(cfg, s) && cfg.variant.Horus? && IdleOk(cfg, s) && Enabled(cfg, s, a) && a.Dispatch? && s.d.Scan?
    requires Shape(cfg, Next(cfg, s, a))
    ensures IdleOk(cfg, Next(cfg, s, a))
  {
    LoadsStay(cfg, s, a);
    ScanFrame(cfg, s, a.from, a.some);
    SameIdle(cfg, s, Next(cfg, s, a));
  }

  lemma DispatchIdle(cfg: Config, s: State, a: Action)
    requires Inv(cfg, s) && cfg.variant.Horus? && Enabled(cfg, s, a) && a.Dispatch? && !AtNetworker(s.d)
    requires Shape(cfg, Next(cfg, s, a))
    ensures IdleOk(cfg, Next(cfg, s, a))
  {
    if s.d.FinishCount? {
      FinishCounted(cfg, s, a, s.d.i);
    } else if s.d.FinishTest? {
      FinishTested(cfg, s, a, s.d.i);
    } else if s.d.Scan? {
      ScanIdle(cfg, s, a);
    } else {
      AttendIdle(cfg, s, a);
    }
  }

  lemma NetworkIdle(cfg: Config, s: State, a: Action)
    requires Inv(cfg, s) && cfg.variant.Horus? && Enabled(cfg, s, a) && a.Network?
    requires Shape(cfg, Next(cfg, s, a))
    ensures IdleOk(cfg, Next(cfg, s, a))
  {
    LoadsStay(cfg, s, a);
    SameIdle(cfg, s, Next(cfg, s, a));
  }

  lemma StepKeepsIdle(cfg: Config, s: State, a: Action)
    requires Inv(cfg, s) && cfg.variant.Horus? && Enabled(cfg, s, a)
    requires Shape(cfg, Next(cfg, s, a))
    ensures IdleOk(cfg, Next(cfg, s, a))
  {
    match a
    case Work(i, preempted) => WorkIdle(cfg, s, i, preempted);
    case Network(_, _, _) => NetworkIdle(cfg, s, a);
    case Dispatch(_, _, _) =>
      if AtNetworker(s.d) {
        NetIdle(cfg, s, a);
      } else {
        DispatchIdle(cfg, s, a);
      }
  }

  // ----- Whole runs -----

  lemma StepKeepsInv(cfg: Config, s: State, a: Action)
    requires Inv(cfg, s) && Enabled(cfg, s, a)
    ensures Inv(cfg, Next(cfg, s, a))
  {
    StepKeepsStructure(cfg, s, a);
    StepKeepsLoad(cfg, s, a);
    if cfg.variant.Horus? {
      StepKeepsIdle(cfg, s, a);
    } else {
      StepKeepsNoTest(cfg, s, a);
    }
  }

  lemma {:induction false} RunKeepsInv(cfg: Config, s: State, run: seq<Action>, t: State)
    requires Inv(cfg, s) && RunsTo(cfg, s, run, t)
    ensures Inv(cfg, t)
    decreases |run|
  {
    if |run| > 0 {
      StepKeepsInv(cfg, s, run[0]);
      RunKeepsInv(cfg, Next(cfg, s, run[0]), run[1..], t);
    }
  }

  ghost predicate Reachable(cfg: Config, t: State)
  {
    exists s, run :: Initial(cfg, s) && RunsTo(cfg, s, run, t)
  }

  lemma ReachableInv(cfg: Config, t: State)
    requires Reachable(cfg, t)
    ensures Inv(cfg, t)
  {
    var s, run :| Initial(cfg, s) && RunsTo(cfg, s, run, t);
    InitialStructure(cfg, s);
    InitialLoad(cfg, s);
    if cfg.variant.Horus? {
      InitialIdle(cfg, s);
    }
    RunKeepsInv(cfg, s, run, t);
  }
}
