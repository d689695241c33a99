/**
  What every step of the scheduler keeps: who owns the shared array and cells, where every live request is,
  what `queue_length` counts, and what an idle reply means.
 */
module SchedulerInvariant {
  import opened Widths
  import opened Scheduler

  // ----- The hand-over between networker and dispatcher -----

  /** Batch entries below this index have been taken over by the dispatcher. */
  function Taken(s: State): nat
  {
    match s.d
    case NetTake(k) => k
    case NetCount(k) => k
    case NetState(k) => k
    case NetPut(k) => k
    case NetBack(_) => s.cnt
    case NetDone => s.cnt
    case _ => 0
  }

  /** `reqs[k]` is a new request that the dispatcher has not taken over. */
  ghost predicate InBatch(s: State, k: nat)
  {
    if s.n.Build? then k < s.n.k else Taken(s) <= k < s.cnt
  }

  /** `reqs[k]` is a finished request that the networker has not freed. */
  ghost predicate InReturn(s: State, k: nat)
  {
    (s.n.Free? ==> s.n.k <= k) && k < s.freeCnt
  }

  /** `cnt` decides who may touch the array. */
  ghost predicate HandOver(cfg: Config, s: State)
  {
    && s.cnt <= cfg.batch && s.freeCnt <= cfg.batch
    && (match s.n
        case Receive => true
        case Spin => true
        case Free(k) => s.cnt == 0 && k <= s.freeCnt
        case Build(k) => s.cnt == 0 && s.freeCnt == 0 && k <= cfg.batch)
    && (match s.d
        case NetTake(k) => s.cnt != 0 && s.freeCnt == 0 && k <= s.cnt
        case NetCount(k) => s.cnt != 0 && s.freeCnt == 0 && k < s.cnt
        case NetState(k) => s.cnt != 0 && s.freeCnt == 0 && k < s.cnt
        case NetPut(k) => s.cnt != 0 && s.freeCnt == 0 && k < s.cnt
        case NetBack(k) => s.cnt != 0 && s.freeCnt == k
        case NetDone => s.cnt != 0
        case _ => s.cnt != 0 ==> s.freeCnt == 0)
    && forall k :: 0 <= k < |s.types| && InBatch(s, k) ==> s.types[k] < cfg.ports
  }

  // ----- The hand-over between dispatcher and worker -----

  /** The worker the dispatcher is dealing with, past the look at its flag; -1 for none. */
  function Attending(d: DispatcherPc): int
  {
    match d
    case FinishCount(i) => i
    case FinishTest(i) => i
    case FinishLower(i) => i
    case FinishEnqueue(i) => i
    case FinishAck(i) => i
    case PreemptEnqueue(i) => i
    case PreemptAck(i) => i
    case Dequeue(i) => i
    case Mark(i, _) => i
    case FillSlot(i, _) => i
    case Activate(i) => i
    case _ => -1
  }

  /** The flags, the worker's position and the dispatcher's position always form one of these phases. */
  ghost predicate Phase(d: DispatcherPc, x: Worker, i: nat)
  {
    var here := Attending(d) == i;
    match x.pc
    case Start => x.responseFlag == Running && x.requestFlag == Waiting && !x.busy && !x.counted && !here
    case Clear => x.responseFlag == Running && x.requestFlag == Active && x.busy && x.counted && !here
    case Run => Working(x) && !here
    case ReadLength => Working(x) && !here
    case ReadState => Working(x) && !here
    case Send => Working(x) && !here
    case Fill => Working(x) && !here
    case Publish => Working(x) && !here && Answers(x)
    case _ =>
      match x.responseFlag
      case Processed => x.requestFlag == Waiting && !x.busy && !x.counted && (here ==> d.Dequeue? || d.Mark?)
      case Running =>
        if x.requestFlag == Active then x.busy && x.counted && !here
        else here && (d.FillSlot? || d.Activate?) && x.busy == x.counted == d.Activate?
      case Finished =>
        && x.pc == Wait && x.requestFlag == Waiting && x.finished && Answers(x)
        && (here ==> d.FinishCount? || d.FinishTest? || d.FinishLower? || d.FinishEnqueue? || d.FinishAck?)
        && x.busy == !(here && d.FinishAck?)
        && x.counted == !(here && !d.FinishCount?)
      case Preempted =>
        && x.pc == Wait && x.requestFlag == Waiting && !x.finished && Answers(x)
        && (here ==> d.PreemptEnqueue? || d.PreemptAck?)
        && x.busy == x.counted == !(here && d.PreemptAck?)
  }

  ghost predicate Working(x: Worker)
  {
    x.responseFlag == Running && x.requestFlag == Waiting && x.busy && x.counted
  }

  /** The response cell holds the task of the slot. */
  ghost predicate Answers(x: Worker)
  {
    x.response == x.slot.(category := Context)
  }

  /** Every dispatch is handled once: at most one is open, and only while the worker is busy or being acknowledged. */
  ghost predicate Open(d: DispatcherPc, x: Worker, i: nat)
  {
    x.dispatched == x.handled + if x.busy || (Attending(d) == i && (d.FinishAck? || d.PreemptAck?)) then 1 else 0
  }

  ghost predicate WorkerOk(cfg: Config, d: DispatcherPc, x: Worker, i: nat)
  {
    Phase(d, x, i) && Open(d, x, i) && (x.busy ==> OwnPort(cfg, x.slot, i))
  }

  ghost predicate WorkersOk(cfg: Config, s: State)
  {
    && Attending(s.d) < |s.w|
    && forall i :: 0 <= i < |s.w| ==> WorkerOk(cfg, s.d, s.w[i], i)
  }

  /** A task's queue exists; in Horus it is the worker's own. */
  ghost predicate OwnPort(cfg: Config, t: Task, i: nat)
  {
    t.port < cfg.ports && (cfg.variant.Horus? ==> t.port == i)
  }

  datatype Hand = NoTask | Task(i: nat, task: Scheduler.Task)

  /** The task the dispatcher has dequeued and not yet put into a slot. */
  function InHand(d: DispatcherPc): Hand
  {
    match d
    case Mark(i, t) => Hand.Task(i, t)
    case FillSlot(i, t) => Hand.Task(i, t)
    case _ => NoTask
  }

  // ----- Where requests are -----

  ghost predicate At(place: map<Req, Place>, r: Req, p: Place)
  {
    r in place && place[r] == p
  }

  ghost predicate QueueOk(place: map<Req, Place>, q: seq<Task>, c: nat)
  {
    && (forall a :: 0 <= a < |q| ==> q[a].port == c && At(place, q[a].req, Queued(c)))
    && forall a, b :: 0 <= a < b < |q| ==> q[a].req != q[b].req
  }

  ghost predicate QueuesOk(place: map<Req, Place>, tskq: seq<seq<Scheduler.Task>>)
  {
    forall c :: 0 <= c < |tskq| ==> QueueOk(place, tskq[c], c)
  }

  ghost predicate SlotsOk(place: map<Req, Place>, w: seq<Worker>)
  {
    forall i :: 0 <= i < |w| && w[i].busy ==> At(place, w[i].slot.req, Slot(i))
  }

  ghost predicate DoneOk(place: map<Req, Place>, frq: seq<Req>)
  {
    forall p :: 0 <= p < |frq| ==> At(place, frq[p], Done(p))
  }

  ghost predicate BatchOk(place: map<Req, Place>, s: State)
  {
    forall k :: 0 <= k < |s.reqs| && InBatch(s, k) ==> At(place, s.reqs[k], Batch(k))
  }

  ghost predicate ReturnOk(place: map<Req, Place>, s: State)
  {
    forall k :: 0 <= k < |s.reqs| && InReturn(s, k) ==> At(place, s.reqs[k], Returned(k))
  }

  ghost predicate HandOk(cfg: Config, place: map<Req, Place>, d: DispatcherPc)
  {
    match InHand(d)
    case NoTask => true
    case Task(i, t) => At(place, t.req, Held) && OwnPort(cfg, t, i)
  }

  /** Every request that some structure holds is recorded there, and only there. */
  ghost predicate Recorded(cfg: Config, s: State)
  {
    && QueuesOk(s.place, s.tskq) && SlotsOk(s.place, s.w) && DoneOk(s.place, s.frq)
    && BatchOk(s.place, s) && ReturnOk(s.place, s) && HandOk(cfg, s.place, s.d)
  }

  /** The structure a place names does hold the request. */
  ghost predicate Holds(s: State, r: Req, p: Place)
  {
    match p
    case Batch(k) => k < |s.reqs| && InBatch(s, k) && s.reqs[k] == r
    case Queued(c) => c < |s.tskq| && exists a :: 0 <= a < |s.tskq[c]| && s.tskq[c][a].req == r
    case Held => InHand(s.d).Task? && InHand(s.d).task.req == r
    case Slot(i) => i < |s.w| && s.w[i].busy && s.w[i].slot.req == r
    case Done(p) => p < |s.frq| && s.frq[p] == r
    case Returned(k) => k < |s.reqs| && InReturn(s, k) && s.reqs[k] == r
  }

  /** No live request is lost. */
  ghost predicate Kept(s: State)
  {
    forall r :: r in s.place ==> Holds(s, r, s.place[r])
  }

  // ----- Load -----

  ghost predicate LoadOk(cfg: Config, s: State)
    requires Shape(cfg, s)
  {
    forall c :: 0 <= c < cfg.ports ==> s.qlen[c] == Load(cfg, s, c) % WRAP32
  }

  // ----- Structure: everything but load and idle signals -----

  ghost predicate Structure(cfg: Config, s: State)
  {
    Shape(cfg, s) && HandOver(cfg, s) && WorkersOk(cfg, s) && Recorded(cfg, s) && Kept(s) && |s.place| <= cfg.pool
  }

  lemma InitialStructure(cfg: Config, s: State)
    requires Initial(cfg, s)
    ensures Structure(cfg, s)
  {
  }

  // Workers

  lemma AdvancePhase(cfg: Config, d: DispatcherPc, x: Worker, i: nat, q: nat, ws: nat, load: nat, preempted: bool)
    requires WorkerOk(cfg, d, x, i) && (x.pc == Wait ==> x.requestFlag == Active)
    ensures var y := Advance(cfg, x, q, ws, load, preempted);
            WorkerOk(cfg, d, y, i) && y.busy == x.busy && y.slot == x.slot
  {
  }

  /** Two states that hold requests alike. */
  ghost predicate SameHolding(s: State, t: State)
  {
    && InHand(s.d) == InHand(t.d) && Taken(s) == Taken(t)
    && s.n == t.n && s.tskq == t.tskq && s.frq == t.frq && s.place == t.place
    && s.cnt == t.cnt && s.freeCnt == t.freeCnt && s.reqs == t.reqs && s.types == t.types
    && |s.w| == |t.w| && forall i :: 0 <= i < |s.w| ==> s.w[i].busy == t.w[i].busy && s.w[i].slot == t.w[i].slot
  }

  lemma SameHoldingPlaces(cfg: Config, s: State, t: State)
    requires SameHolding(s, t) && Recorded(cfg, s) && Kept(s)
    ensures Recorded(cfg, t) && Kept(t)
  {
    forall r | r in t.place
      ensures Holds(t, r, t.place[r])
    {
      assert Holds(s, r, s.place[r]);
    }
  }

  lemma WorkStructure(cfg: Config, s: State, i: nat, preempted: bool)
    requires Structure(cfg, s) && WorkEnabled(cfg, s, i)
    ensures Structure(cfg, Work1(cfg, s, i, preempted))
  {
    var t := Work1(cfg, s, i, preempted);
    var c := ReportedQueue(cfg, i, s.w[i]);
    if c < cfg.ports {
      AdvancePhase(cfg, s.d, s.w[i], i, s.qlen[c], s.wstate[c], Load(cfg, s, c), preempted);
    } else {
      AdvancePhase(cfg, s.d, s.w[i], i, 0, 0, 0, preempted);
    }
    assert HandOver(cfg, t) by {
      assert forall k :: InBatch(t, k) == InBatch(s, k);
    }
    SameHoldingPlaces(cfg, s, t);
  }

  // Dispatcher, at the workers

  lemma OtherWorkers(cfg: Config, s: State, t: State, i: nat)
    requires WorkersOk(cfg, s) && |t.w| == |s.w| && i < |s.w|
    requires forall j :: 0 <= j < |s.w| && j != i ==> t.w[j] == s.w[j]
    requires Attending(s.d) == -1 || Attending(s.d) == i
    requires Attending(t.d) == -1 || Attending(t.d) == i
    requires WorkerOk(cfg, t.d, t.w[i], i)
    ensures WorkersOk(cfg, t)
  {
    forall j | 0 <= j < |t.w|
      ensures WorkerOk(cfg, t.d, t.w[j], j)
    {
      assert WorkerOk(cfg, s.d, s.w[j], j);
    }
  }

  lemma SameHandOver(cfg: Config, s: State, t: State)
    requires HandOver(cfg, s)
    requires s.n == t.n && s.cnt == t.cnt && s.freeCnt == t.freeCnt && s.types == t.types
    requires !AtNetworker(s.d) && (!AtNetworker(t.d) || t.d.Net?)
    ensures HandOver(cfg, t)
  {
    assert forall k :: InBatch(t, k) == InBatch(s, k);
  }

  /** Steps that only move flags, counters and the dispatcher's position. */
  lemma QuietStep(cfg: Config, s: State, t: State, i: nat)
    requires Structure(cfg, s) && Shape(cfg, t) && i < |s.w|
    requires SameHolding(s, t) && !AtNetworker(s.d) && !AtNetworker(t.d)
    requires forall j :: 0 <= j < |s.w| && j != i ==> t.w[j] == s.w[j]
    requires Attending(s.d) == -1 || Attending(s.d) == i
    requires Attending(t.d) == -1 || Attending(t.d) == i
    requires WorkerOk(cfg, t.d, t.w[i], i)
    ensures Structure(cfg, t)
  {
    OtherWorkers(cfg, s, t, i);
    SameHandOver(cfg, s, t);
    SameHoldingPlaces(cfg, s, t);
  }

  /** Worker `i` becomes `y`, and the dispatcher moves on with new counters. */
  lemma QuietUpdate(cfg: Config, s: State, t: State, i: nat, y: Worker)
    requires Structure(cfg, s) && i < |s.w| && !AtNetworker(s.d) && !AtNetworker(t.d)
    requires t == s.(w := s.w[i := y], qlen := t.qlen, wstate := t.wstate, d := t.d)
    requires |t.qlen| == |s.qlen| && |t.wstate| == |s.wstate|
    requires y.busy == s.w[i].busy && y.slot == s.w[i].slot && InHand(s.d) == InHand(t.d)
    requires Attending(s.d) == i && (Attending(t.d) == -1 || Attending(t.d) == i)
    requires WorkerOk(cfg, t.d, y, i)
    ensures Structure(cfg, t)
  {
    QuietStep(cfg, s, t, i);
  }

  lemma ScanWorkerStructure(cfg: Config, s: State, from: nat, some: bool)
    requires Structure(cfg, s) && s.d.Scan? && s.d.i < |s.w| && DispatchEnabled(cfg, s, from, some)
    ensures Structure(cfg, DispatchWorker(cfg, s, from, some))
  {
    assert WorkerOk(cfg, s.d, s.w[s.d.i], s.d.i);
    QuietStep(cfg, s, DispatchWorker(cfg, s, from, some), s.d.i);
  }

  lemma ScanEndStructure(cfg: Config, s: State, from: nat, some: bool)
    requires Structure(cfg, s) && s.d.Scan? && s.d.i >= |s.w| && DispatchEnabled(cfg, s, from, some)
    ensures Structure(cfg, DispatchWorker(cfg, s, from, some))
  {
    var t := DispatchWorker(cfg, s, from, some);
    SameHandOver(cfg, s, t);
    SameHoldingPlaces(cfg, s, t);
    WorkersAside(cfg, s, t);
  }

  lemma FinishCountStructure(cfg: Config, s: State, from: nat, some: bool)
    requires Structure(cfg, s) && DispatchEnabled(cfg, s, from, some)
    requires s.d.FinishCount?
    ensures Structure(cfg, DispatchWorker(cfg, s, from, some))
  {
    assert WorkerOk(cfg, s.d, s.w[s.d.i], s.d.i);
    QuietStep(cfg, s, DispatchWorker(cfg, s, from, some), s.d.i);
  }

  lemma FinishTestStructure(cfg: Config, s: State, from: nat, some: bool)
    requires Structure(cfg, s) && DispatchEnabled(cfg, s, from, some)
    requires s.d.FinishTest?
    ensures Structure(cfg, DispatchWorker(cfg, s, from, some))
  {
    assert WorkerOk(cfg, s.d, s.w[s.d.i], s.d.i);
    var t := DispatchWorker(cfg, s, from, some);
    QuietUpdate(cfg, s, t, s.d.i, t.w[s.d.i]);
  }

  lemma FinishLowerStructure(cfg: Config, s: State, from: nat, some: bool)
    requires Structure(cfg, s) && DispatchEnabled(cfg, s, from, some)
    requires s.d.FinishLower?
    ensures Structure(cfg, DispatchWorker(cfg, s, from, some))
  {
    assert WorkerOk(cfg, s.d, s.w[s.d.i], s.d.i);
    var t := DispatchWorker(cfg, s, from, some);
    QuietUpdate(cfg, s, t, s.d.i, t.w[s.d.i]);
  }

  lemma AckStructure(cfg: Config, s: State, from: nat, some: bool)
    requires Structure(cfg, s) && DispatchEnabled(cfg, s, from, some)
    requires s.d.FinishAck? || s.d.PreemptAck?
    ensures Structure(cfg, DispatchWorker(cfg, s, from, some))
  {
    assert WorkerOk(cfg, s.d, s.w[s.d.i], s.d.i);
    var t := DispatchWorker(cfg, s, from, some);
    QuietUpdate(cfg, s, t, s.d.i, t.w[s.d.i]);
  }

  lemma MarkStructure(cfg: Config, s: State, from: nat, some: bool)
    requires Structure(cfg, s) && DispatchEnabled(cfg, s, from, some)
    requires s.d.Mark?
    ensures Structure(cfg, DispatchWorker(cfg, s, from, some))
  {
    assert WorkerOk(cfg, s.d, s.w[s.d.i], s.d.i);
    QuietStep(cfg, s, DispatchWorker(cfg, s, from, some), s.d.i);
  }

  lemma ActivateStructure(cfg: Config, s: State, from: nat, some: bool)
    requires Structure(cfg, s) && DispatchEnabled(cfg, s, from, some)
    requires s.d.Activate? || (s.d.Dequeue? && !some)
    ensures Structure(cfg, DispatchWorker(cfg, s, from, some))
  {
    assert WorkerOk(cfg, s.d, s.w[s.d.i], s.d.i);
    var t := DispatchWorker(cfg, s, from, some);
    QuietUpdate(cfg, s, t, s.d.i, t.w[s.d.i]);
  }

  // Steps that move one request

  /** A request that a structure does not hold may move without the structure noticing. */
  lemma QueuesMoved(place: map<Req, Place>, tskq: seq<seq<Scheduler.Task>>, r: Req, p: Place)
    requires QueuesOk(place, tskq) && (r in place ==> !place[r].Queued?)
    ensures QueuesOk(place[r := p], tskq)
  {
    forall c | 0 <= c < |tskq|
      ensures QueueOk(place[r := p], tskq[c], c)
    {
      assert QueueOk(place, tskq[c], c);
    }
  }

  lemma SlotsMoved(place: map<Req, Place>, w: seq<Worker>, r: Req, p: Place)
    requires SlotsOk(place, w) && (r in place ==> !place[r].Slot?)
    ensures SlotsOk(place[r := p], w)
  {
  }

  lemma DoneMoved(place: map<Req, Place>, frq: seq<Req>, r: Req, p: Place)
    requires DoneOk(place, frq) && (r in place ==> !place[r].Done?)
    ensures DoneOk(place[r := p], frq)
  {
  }

  lemma BatchMoved(place: map<Req, Place>, s: State, r: Req, p: Place)
    requires BatchOk(place, s) && (r in place ==> !place[r].Batch?)
    ensures BatchOk(place[r := p], s)
  {
  }

  lemma ReturnMoved(place: map<Req, Place>, s: State, r: Req, p: Place)
    requires ReturnOk(place, s) && (r in place ==> !place[r].Returned?)
    ensures ReturnOk(place[r := p], s)
  {
  }

  lemma HandMoved(cfg: Config, place: map<Req, Place>, d: DispatcherPc, r: Req, p: Place)
    requires HandOk(cfg, place, d) && (r in place ==> !place[r].Held?)
    ensures HandOk(cfg, place[r := p], d)
  {
  }

  /** The same array, counts and positions: the same batch and return entries. */
  ghost predicate SameArray(s: State, t: State)
  {
    s.reqs == t.reqs && s.n == t.n && s.cnt == t.cnt && s.freeCnt == t.freeCnt && Taken(s) == Taken(t)
  }

  lemma SameArrayOk(place: map<Req, Place>, s: State, t: State)
    requires SameArray(s, t) && BatchOk(place, s) && ReturnOk(place, s)
    ensures BatchOk(place, t) && ReturnOk(place, t)
  {
  }

  /** A live request moves: the number of live requests stays. */
  lemma SizeMoved(place: map<Req, Place>, r: Req, p: Place)
    requires r in place
    ensures |place[r := p]| == |place|
  {
    assert place[r := p].Keys == place.Keys;
  }

  /** A request moves; the others stay held where they were. */
  lemma KeptMoved(s: State, t: State, r: Req, p: Place)
    requires Kept(s) && t.place == s.place[r := p] && Holds(t, r, p)
    requires forall q :: q in s.place && q != r ==> Holds(t, q, s.place[q])
    ensures Kept(t)
  {
  }

  lemma FinishEnqueueRecorded(cfg: Config, s: State, i: nat, r: Req)
    requires Recorded(cfg, s) && i < |s.w| && At(s.place, r, Slot(i))
    ensures var place := s.place[r := Done(|s.frq|)];
            && QueuesOk(place, s.tskq) && SlotsOk(place, s.w[i := s.w[i].(busy := false)]) && DoneOk(place, s.frq + [r])
            && BatchOk(place, s) && ReturnOk(place, s) && HandOk(cfg, place, s.d)
  {
    var p := Done(|s.frq|);
    QueuesMoved(s.place, s.tskq, r, p);
    DoneMoved(s.place, s.frq, r, p);
    BatchMoved(s.place, s, r, p);
    ReturnMoved(s.place, s, r, p);
    HandMoved(cfg, s.place, s.d, r, p);
  }

  lemma FinishEnqueueKept(cfg: Config, s: State, from: nat, some: bool)
    requires Kept(s) && DispatchEnabled(cfg, s, from, some) && s.d.FinishEnqueue?
    requires s.w[s.d.i].response.req == s.w[s.d.i].slot.req
    ensures Kept(DispatchWorker(cfg, s, from, some))
  {
    var t := DispatchWorker(cfg, s, from, some);
    var r := s.w[s.d.i].response.req;
    forall q | q in s.place && q != r
      ensures Holds(t, q, s.place[q])
    {
      assert Holds(s, q, s.place[q]);
    }
    KeptMoved(s, t, r, Done(|s.frq|));
  }

  lemma FinishEnqueueStructure(cfg: Config, s: State, from: nat, some: bool)
    requires Structure(cfg, s) && DispatchEnabled(cfg, s, from, some) && s.d.FinishEnqueue?
    ensures Structure(cfg, DispatchWorker(cfg, s, from, some))
  {
    var t := DispatchWorker(cfg, s, from, some);
    var i := s.d.i;
    var r := s.w[i].response.req;
    assert WorkerOk(cfg, s.d, s.w[i], i);
    OtherWorkers(cfg, s, t, i);
    SameHandOver(cfg, s, t);
    SizeMoved(s.place, r, Done(|s.frq|));
    FinishEnqueueRecorded(cfg, s, i, r);
    SameArrayOk(t.place, s, t);
    FinishEnqueueKept(cfg, s, from, some);
  }

  lemma QueueAppend(place: map<Req, Place>, q: seq<Scheduler.Task>, t: Scheduler.Task, c: nat, head: bool)
    requires QueueOk(place, q, c) && t.port == c && t.req in place && place[t.req] != Queued(c)
    ensures QueueOk(place[t.req := Queued(c)], if head then [t] + q else q + [t], c)
  {
  }

  /** A task that is in no queue joins queue `c` at one end. */
  lemma QueuesJoined(place: map<Req, Place>, tskq: seq<seq<Scheduler.Task>>, x: Scheduler.Task, c: nat, head: bool)
    requires QueuesOk(place, tskq) && c < |tskq| && x.port == c && x.req in place && !place[x.req].Queued?
    ensures QueuesOk(place[x.req := Queued(c)], tskq[c := if head then [x] + tskq[c] else tskq[c] + [x]])
  {
    var new' := tskq[c := if head then [x] + tskq[c] else tskq[c] + [x]];
    QueuesMoved(place, tskq, x.req, Queued(c));
    assert QueueOk(place, tskq[c], c);
    QueueAppend(place, tskq[c], x, c, head);
    forall e | 0 <= e < |tskq|
      ensures QueueOk(place[x.req := Queued(c)], new'[e], e)
    {
      assert QueueOk(place[x.req := Queued(c)], tskq[e], e);
    }
  }

  lemma HoldsJoined(s: State, t: State, x: Scheduler.Task, c: nat, head: bool, q: Req, e: nat)
    requires c < |s.tskq| && t.tskq == s.tskq[c := if head then [x] + s.tskq[c] else s.tskq[c] + [x]]
    requires Holds(s, q, Queued(e))
    ensures Holds(t, q, Queued(e))
  {
    var a :| 0 <= a < |s.tskq[e]| && s.tskq[e][a].req == q;
    assert t.tskq[e][if e == c && head then a + 1 else a].req == q;
  }

  /** A task joins queue `c` at either end, and nothing else that holds requests changes but for `x`. */
  lemma KeptJoined(s: State, t: State, x: Scheduler.Task, c: nat, head: bool)
    requires Kept(s) && c < |s.tskq| && t.place == s.place[x.req := Queued(c)]
    requires t.tskq == s.tskq[c := if head then [x] + s.tskq[c] else s.tskq[c] + [x]]
    requires forall q :: q in s.place && q != x.req && !s.place[q].Queued? ==> Holds(t, q, s.place[q])
    ensures Kept(t)
  {
    assert t.tskq[c][if head then 0 else |s.tskq[c]|] == x;
    forall q | q in s.place && q != x.req
      ensures Holds(t, q, s.place[q])
    {
      assert Holds(s, q, s.place[q]);
      if s.place[q].Queued? {
        HoldsJoined(s, t, x, c, head, q, s.place[q].c);
      }
    }
    KeptMoved(s, t, x.req, Queued(c));
  }

  lemma PreemptEnqueueRecorded(cfg: Config, s: State, i: nat, x: Scheduler.Task, c: nat, head: bool)
    requires Recorded(cfg, s) && i < |s.w| && c < |s.tskq| && At(s.place, x.req, Slot(i)) && x.port == c
    ensures var place := s.place[x.req := Queued(c)];
            && QueuesOk(place, s.tskq[c := if head then [x] + s.tskq[c] else s.tskq[c] + [x]])
            && SlotsOk(place, s.w[i := s.w[i].(busy := false, counted := false)]) && DoneOk(place, s.frq)
            && BatchOk(place, s) && ReturnOk(place, s) && HandOk(cfg, place, s.d)
  {
    var r, p := x.req, Queued(c);
    QueuesJoined(s.place, s.tskq, x, c, head);
    DoneMoved(s.place, s.frq, r, p);
    BatchMoved(s.place, s, r, p);
    ReturnMoved(s.place, s, r, p);
    HandMoved(cfg, s.place, s.d, r, p);
  }

  lemma PreemptEnqueueKept(cfg: Config, s: State, from: nat, some: bool)
    requires Kept(s) && DispatchEnabled(cfg, s, from, some) && s.d.PreemptEnqueue?
    requires s.w[s.d.i].response.req == s.w[s.d.i].slot.req
    ensures Kept(DispatchWorker(cfg, s, from, some))
  {
    var t := DispatchWorker(cfg, s, from, some);
    var x := s.w[s.d.i].response;
    forall q | q in s.place && q != x.req && !s.place[q].Queued?
      ensures Holds(t, q, s.place[q])
    {
      assert Holds(s, q, s.place[q]);
    }
    KeptJoined(s, t, x, x.port, cfg.headFirst[x.port]);
  }

  lemma PreemptEnqueueStructure(cfg: Config, s: State, from: nat, some: bool)
    requires Structure(cfg, s) && DispatchEnabled(cfg, s, from, some) && s.d.PreemptEnqueue?
    ensures Structure(cfg, DispatchWorker(cfg, s, from, some))
  {
    var t := DispatchWorker(cfg, s, from, some);
    var i := s.d.i;
    var x := s.w[i].response;
    assert WorkerOk(cfg, s.d, s.w[i], i);
    OtherWorkers(cfg, s, t, i);
    SameHandOver(cfg, s, t);
    SizeMoved(s.place, x.req, Queued(x.port));
    PreemptEnqueueRecorded(cfg, s, i, x, x.port, cfg.headFirst[x.port]);
    SameArrayOk(t.place, s, t);
    PreemptEnqueueKept(cfg, s, from, some);
  }

  lemma DequeueRecorded(cfg: Config, s: State, c: nat, i: nat)
    requires Recorded(cfg, s) && c < |s.tskq| && s.tskq[c] != [] && InHand(s.d).NoTask?
    requires c < cfg.ports && (cfg.variant.Horus? ==> c == i)
    ensures var x := s.tskq[c][0];
            var place := s.place[x.req := Held];
            && QueuesOk(place, s.tskq[c := s.tskq[c][1..]]) && SlotsOk(place, s.w) && DoneOk(place, s.frq)
            && BatchOk(place, s) && ReturnOk(place, s) && HandOk(cfg, place, Mark(i, x))
            && At(s.place, x.req, Queued(c))
  {
    var x := s.tskq[c][0];
    var place := s.place[x.req := Held];
    assert QueueOk(s.place, s.tskq[c], c);
    var tskq := s.tskq[c := s.tskq[c][1..]];
    forall e | 0 <= e < |tskq|
      ensures QueueOk(place, tskq[e], e)
    {
      assert QueueOk(s.place, s.tskq[e], e);
    }
    SlotsMoved(s.place, s.w, x.req, Held);
    DoneMoved(s.place, s.frq, x.req, Held);
    BatchMoved(s.place, s, x.req, Held);
    ReturnMoved(s.place, s, x.req, Held);
  }

  lemma HoldsDequeued(s: State, t: State, c: nat, q: Req, e: nat)
    requires c < |s.tskq| && s.tskq[c] != [] && t.tskq == s.tskq[c := s.tskq[c][1..]]
    requires Holds(s, q, Queued(e)) && q != s.tskq[c][0].req
    ensures Holds(t, q, Queued(e))
  {
    var a :| 0 <= a < |s.tskq[e]| && s.tskq[e][a].req == q;
    assert t.tskq[e][if e == c then a - 1 else a].req == q;
  }

  lemma DequeueKept(cfg: Config, s: State, from: nat, some: bool)
    requires Kept(s) && DispatchEnabled(cfg, s, from, some) && s.d.Dequeue? && some
    ensures Kept(DispatchWorker(cfg, s, from, some))
  {
    var t := DispatchWorker(cfg, s, from, some);
    var x := s.tskq[from][0];
    forall q | q in s.place && q != x.req
      ensures Holds(t, q, s.place[q])
    {
      assert Holds(s, q, s.place[q]);
      if s.place[q].Queued? {
        HoldsDequeued(s, t, from, q, s.place[q].c);
      }
    }
    KeptMoved(s, t, x.req, Held);
  }

  lemma DequeueStructure(cfg: Config, s: State, from: nat, some: bool)
    requires Structure(cfg, s) && DispatchEnabled(cfg, s, from, some) && s.d.Dequeue? && some
    ensures Structure(cfg, DispatchWorker(cfg, s, from, some))
  {
    var t := DispatchWorker(cfg, s, from, some);
    var i := s.d.i;
    assert WorkerOk(cfg, s.d, s.w[i], i);
    OtherWorkers(cfg, s, t, i);
    SameHandOver(cfg, s, t);
    DequeueRecorded(cfg, s, from, i);
    SizeMoved(s.place, s.tskq[from][0].req, Held);
    SameArrayOk(t.place, s, t);
    DequeueKept(cfg, s, from, some);
  }

  lemma FillRecorded(cfg: Config, s: State, i: nat, x: Scheduler.Task, y: Worker)
    requires Recorded(cfg, s) && i < |s.w| && !s.w[i].busy && At(s.place, x.req, Held) && y.slot == x
    ensures var place := s.place[x.req := Slot(i)];
            && QueuesOk(place, s.tskq) && SlotsOk(place, s.w[i := y]) && DoneOk(place, s.frq)
            && BatchOk(place, s) && ReturnOk(place, s)
  {
    var r, p := x.req, Slot(i);
    QueuesMoved(s.place, s.tskq, r, p);
    SlotsMoved(s.place, s.w, r, p);
    DoneMoved(s.place, s.frq, r, p);
    BatchMoved(s.place, s, r, p);
    ReturnMoved(s.place, s, r, p);
  }

  lemma FillKept(cfg: Config, s: State, from: nat, some: bool)
    requires Kept(s) && DispatchEnabled(cfg, s, from, some) && s.d.FillSlot? && !s.w[s.d.i].busy
    ensures Kept(DispatchWorker(cfg, s, from, some))
  {
    var t := DispatchWorker(cfg, s, from, some);
    var r := s.d.task.req;
    forall q | q in s.place && q != r
      ensures Holds(t, q, s.place[q])
    {
      assert Holds(s, q, s.place[q]);
    }
    KeptMoved(s, t, r, Slot(s.d.i));
  }

  lemma FillStructure(cfg: Config, s: State, from: nat, some: bool)
    requires Structure(cfg, s) && DispatchEnabled(cfg, s, from, some) && s.d.FillSlot?
    ensures Structure(cfg, DispatchWorker(cfg, s, from, some))
  {
    var t := DispatchWorker(cfg, s, from, some);
    var i := s.d.i;
    assert WorkerOk(cfg, s.d, s.w[i], i);
    OtherWorkers(cfg, s, t, i);
    SameHandOver(cfg, s, t);
    SizeMoved(s.place, s.d.task.req, Slot(i));
    FillRecorded(cfg, s, i, s.d.task, t.w[i]);
    SameArrayOk(t.place, s, t);
    FillKept(cfg, s, from, some);
  }

  // Dispatcher, at the networker

  /** The workers are out of the picture while the dispatcher is at the networker or back at the first worker. */
  lemma WorkersAside(cfg: Config, s: State, t: State)
    requires WorkersOk(cfg, s) && t.w == s.w && Attending(s.d) == -1 && Attending(t.d) == -1
    ensures WorkersOk(cfg, t)
  {
    forall j | 0 <= j < |t.w|
      ensures WorkerOk(cfg, t.d, t.w[j], j)
    {
      assert WorkerOk(cfg, s.d, s.w[j], j);
    }
  }

  lemma NetQuietHolding(cfg: Config, s: State, granted: bool)
    requires HandOver(cfg, s) && DispatchEnabled(cfg, s, 0, false)
    requires s.d.Net? || s.d.NetCount? || s.d.NetState? || (s.d.NetTake? && (s.d.k >= s.cnt || granted))
    ensures var t := DispatchNet(cfg, s, granted);
            SameHolding(s, t) && t.w == s.w && Attending(t.d) == -1 && Shape(cfg, t) && HandOver(cfg, t)
  {
    var t := DispatchNet(cfg, s, granted);
    assert forall k :: InBatch(t, k) == InBatch(s, k);
  }

  lemma NetQuietStructure(cfg: Config, s: State, granted: bool)
    requires Structure(cfg, s) && DispatchEnabled(cfg, s, 0, false)
    requires s.d.Net? || s.d.NetCount? || s.d.NetState? || (s.d.NetTake? && (s.d.k >= s.cnt || granted))
    ensures Structure(cfg, DispatchNet(cfg, s, granted))
  {
    NetQuietHolding(cfg, s, granted);
    AsideStructure(cfg, s, DispatchNet(cfg, s, granted));
  }

  lemma AsideStructure(cfg: Config, s: State, t: State)
    requires Structure(cfg, s) && SameHolding(s, t) && t.w == s.w && Attending(s.d) == -1 && Attending(t.d) == -1
    requires Shape(cfg, t) && HandOver(cfg, t)
    ensures Structure(cfg, t)
  {
    WorkersAside(cfg, s, t);
    SameHoldingPlaces(cfg, s, t);
  }

  /** An entry of the batch leaves it: what stays is recorded as before. */
  lemma BatchTaken(s: State, t: State, k: nat, p: Place)
    requires BatchOk(s.place, s) && ReturnOk(s.place, s) && k < |s.reqs| && InBatch(s, k) && !p.Batch?
    requires t.reqs == s.reqs && t.n == s.n && !s.n.Build? && t.cnt == s.cnt && t.freeCnt == s.freeCnt
    requires Taken(s) == k && Taken(t) == k + 1
    ensures BatchOk(s.place[s.reqs[k] := p], t) && ReturnOk(s.place[s.reqs[k] := p], t)
  {
    assert At(s.place, s.reqs[k], Batch(k));
  }

  lemma TakeFailsStructure(cfg: Config, s: State)
    requires Structure(cfg, s) && DispatchEnabled(cfg, s, 0, false) && s.d.NetTake? && s.d.k < s.cnt
    ensures Structure(cfg, DispatchNet(cfg, s, false))
  {
    var t := DispatchNet(cfg, s, false);
    var k := s.d.k;
    var r, p := s.reqs[k], Done(|s.frq|);
    assert InBatch(s, k) && At(s.place, r, Batch(k));
    WorkersAside(cfg, s, t);
    QueuesMoved(s.place, s.tskq, r, p);
    SlotsMoved(s.place, s.w, r, p);
    DoneMoved(s.place, s.frq, r, p);
    BatchTaken(s, t, k, p);
    SizeMoved(s.place, r, p);
    TakenKept(s, t, k, p);
  }

  lemma TakenKept(s: State, t: State, k: nat, p: Place)
    requires Kept(s) && k < |s.reqs| && InBatch(s, k) && !s.n.Build? && Taken(s) == k && Taken(t) == k + 1
    requires t.place == s.place[s.reqs[k] := p] && Holds(t, s.reqs[k], p)
    requires t.reqs == s.reqs && t.n == s.n && t.cnt == s.cnt && t.freeCnt == s.freeCnt && t.w == s.w
    requires InHand(s.d) == InHand(t.d) && s.frq <= t.frq
    requires forall q, e :: Holds(s, q, Queued(e)) ==> Holds(t, q, Queued(e))
    ensures Kept(t)
  {
    forall q | q in s.place && q != s.reqs[k]
      ensures Holds(t, q, s.place[q])
    {
      assert Holds(s, q, s.place[q]);
    }
    KeptMoved(s, t, s.reqs[k], p);
  }

  lemma PutStructure(cfg: Config, s: State, granted: bool)
    requires Structure(cfg, s) && DispatchEnabled(cfg, s, 0, false) && s.d.NetPut?
    ensures Structure(cfg, DispatchNet(cfg, s, granted))
  {
    var t := DispatchNet(cfg, s, granted);
    var k := s.d.k;
    var x := Scheduler.Task(s.reqs[k], s.types[k], Packet);
    var p := Queued(x.port);
    assert InBatch(s, k) && At(s.place, x.req, Batch(k));
    WorkersAside(cfg, s, t);
    QueuesJoined(s.place, s.tskq, x, x.port, false);
    SlotsMoved(s.place, s.w, x.req, p);
    DoneMoved(s.place, s.frq, x.req, p);
    BatchTaken(s, t, k, p);
    SizeMoved(s.place, x.req, p);
    forall q, e | Holds(s, q, Queued(e))
      ensures Holds(t, q, Queued(e))
    {
      HoldsJoined(s, t, x, x.port, false, q, e);
    }
    assert t.tskq[x.port][|s.tskq[x.port]|] == x;
    TakenKept(s, t, k, p);
  }

  lemma BackRecorded(cfg: Config, s: State, t: State)
    requires Recorded(cfg, s) && Shape(cfg, s) && HandOver(cfg, s) && s.d.NetBack? && s.d.k < |s.reqs| && s.frq != []
    requires DispatchEnabled(cfg, s, 0, false) && t == DispatchNet(cfg, s, false)
    ensures Recorded(cfg, t) && HandOver(cfg, t)
  {
    var r, k := s.frq[|s.frq| - 1], s.d.k;
    assert At(s.place, r, Done(|s.frq| - 1));
    QueuesMoved(s.place, s.tskq, r, Returned(k));
    SlotsMoved(s.place, s.w, r, Returned(k));
    forall j | 0 <= j < |t.reqs| && InReturn(t, j)
      ensures At(t.place, t.reqs[j], Returned(j))
    {
      if j != k {
        assert InReturn(s, j) && At(s.place, s.reqs[j], Returned(j));
      }
    }
  }

  lemma BackKept(s: State, t: State)
    requires Kept(s) && s.d.NetBack? && s.d.k < |s.reqs| && s.frq != [] && s.freeCnt == s.d.k && !s.n.Build?
             && !s.n.Free?
    requires var r := s.frq[|s.frq| - 1];
             t == s.(reqs := s.reqs[s.d.k := r], frq := s.frq[..|s.frq| - 1], freeCnt := s.freeCnt + 1,
                     d := NetBack(s.d.k + 1),
                     place := s.place[r := Returned(s.d.k)])
    ensures Kept(t)
  {
    var r := s.frq[|s.frq| - 1];
    forall q | q in s.place && q != r
      ensures Holds(t, q, s.place[q])
    {
      assert Holds(s, q, s.place[q]);
    }
    KeptMoved(s, t, r, Returned(s.d.k));
  }

  lemma BackOneStructure(cfg: Config, s: State, granted: bool)
    requires Structure(cfg, s) && DispatchEnabled(cfg, s, 0, false) && s.d.NetBack? && s.d.k < |s.reqs| && s.frq != []
    ensures Structure(cfg, DispatchNet(cfg, s, granted))
  {
    var t, r := DispatchNet(cfg, s, granted), s.frq[|s.frq| - 1];
    WorkersAside(cfg, s, t);
    assert At(s.place, r, Done(|s.frq| - 1));
    SizeMoved(s.place, r, Returned(s.d.k));
    BackRecorded(cfg, s, t);
    BackKept(s, t);
  }

  lemma BackStructure(cfg: Config, s: State, granted: bool)
    requires Structure(cfg, s) && DispatchEnabled(cfg, s, 0, false) && s.d.NetBack?
    ensures Structure(cfg, DispatchNet(cfg, s, granted))
  {
    if s.d.k < |s.reqs| && s.frq != [] {
      BackOneStructure(cfg, s, granted);
    } else {
      var t := DispatchNet(cfg, s, granted);
      assert forall k :: InBatch(t, k) == InBatch(s, k);
      AsideStructure(cfg, s, t);
    }
  }

  lemma NetDoneStructure(cfg: Config, s: State, granted: bool)
    requires Structure(cfg, s) && DispatchEnabled(cfg, s, 0, false) && s.d.NetDone?
    ensures Structure(cfg, DispatchNet(cfg, s, granted))
  {
    var t := DispatchNet(cfg, s, granted);
    WorkersAside(cfg, s, t);
    assert forall k :: !InBatch(t, k) && !InBatch(s, k);
    forall r | r in t.place
      ensures Holds(t, r, t.place[r])
    {
      assert Holds(s, r, s.place[r]);
    }
  }

  // The networker

  lemma WorkersStay(cfg: Config, s: State, t: State)
    requires WorkersOk(cfg, s) && t.w == s.w && t.d == s.d
    ensures WorkersOk(cfg, t)
  {
    forall j | 0 <= j < |t.w|
      ensures WorkerOk(cfg, t.d, t.w[j], j)
    {
      assert WorkerOk(cfg, s.d, s.w[j], j);
    }
  }

  lemma SameArrayKept(s: State, t: State)
    requires Kept(s) && t == s.(n := t.n, cnt := t.cnt, freeCnt := t.freeCnt)
    requires forall k :: InBatch(t, k) == InBatch(s, k) && InReturn(t, k) == InReturn(s, k)
    ensures Kept(t)
  {
    forall r | r in t.place
      ensures Holds(t, r, t.place[r])
    {
      assert Holds(s, r, s.place[r]);
    }
  }

  lemma NetworkQuietStructure(cfg: Config, s: State, arrival: bool, req: Req, core: nat)
    requires Structure(cfg, s) && NetworkEnabled(cfg, s, arrival, req, core)
    requires s.n.Receive? || s.n.Spin? || (s.n.Build? && !arrival) || (s.n.Free? && s.n.k >= s.freeCnt)
    ensures Structure(cfg, Network1(cfg, s, arrival, req, core))
  {
    var t := Network1(cfg, s, arrival, req, core);
    WorkersStay(cfg, s, t);
    assert forall k :: InBatch(t, k) == InBatch(s, k) && InReturn(t, k) == InReturn(s, k);
    SameArrayKept(s, t);
  }

  lemma FreeRecorded(cfg: Config, s: State, t: State, k: nat)
    requires Recorded(cfg, s) && HandOver(cfg, s) && s.n == Free(k) && k < s.freeCnt && k < |s.reqs|
    requires t == s.(n := Free(k + 1), place := s.place - {s.reqs[k]})
    ensures Recorded(cfg, t) && HandOver(cfg, t)
  {
    var r := s.reqs[k];
    assert InReturn(s, k) && At(s.place, r, Returned(k));
    forall c | 0 <= c < |t.tskq|
      ensures QueueOk(t.place, t.tskq[c], c)
    {
      assert QueueOk(s.place, s.tskq[c], c);
    }
    assert forall j :: InBatch(t, j) == InBatch(s, j);
  }

  lemma FreeStructure(cfg: Config, s: State, arrival: bool, req: Req, core: nat)
    requires Structure(cfg, s) && NetworkEnabled(cfg, s, arrival, req, core) && s.n.Free? && s.n.k < s.freeCnt
    ensures Structure(cfg, Network1(cfg, s, arrival, req, core))
  {
    var t := Network1(cfg, s, arrival, req, core);
    var k := s.n.k;
    assert InReturn(s, k) && At(s.place, s.reqs[k], Returned(k));
    WorkersStay(cfg, s, t);
    FreeRecorded(cfg, s, t, k);
    assert t.place.Keys == s.place.Keys - {s.reqs[k]};
    FreeKept(s, t, k);
  }

  lemma FreeKept(s: State, t: State, k: nat)
    requires Kept(s) && s.n == Free(k) && k < s.freeCnt && k < |s.reqs|
    requires t == s.(n := Free(k + 1), place := s.place - {s.reqs[k]})
    ensures Kept(t)
  {
    forall q | q in t.place
      ensures Holds(t, q, t.place[q])
    {
      assert Holds(s, q, s.place[q]);
    }
  }

  lemma ArrivalRecorded(cfg: Config, s: State, t: State, k: nat, req: Req, core: nat)
    requires Recorded(cfg, s) && Shape(cfg, s) && HandOver(cfg, s) && s.n == Build(k) && k < |s.reqs|
    requires req !in s.place && core < cfg.ports
    requires t == s.(reqs := s.reqs[k := req], types := s.types[k := core], n := Build(k + 1),
                     place := s.place[req := Batch(k)])
    ensures Recorded(cfg, t) && HandOver(cfg, t)
  {
    QueuesMoved(s.place, s.tskq, req, Batch(k));
    SlotsMoved(s.place, s.w, req, Batch(k));
    DoneMoved(s.place, s.frq, req, Batch(k));
    HandMoved(cfg, s.place, s.d, req, Batch(k));
    forall j | 0 <= j < |t.reqs| && InBatch(t, j)
      ensures At(t.place, t.reqs[j], Batch(j)) && t.types[j] < cfg.ports
    {
      if j != k {
        assert InBatch(s, j) && At(s.place, s.reqs[j], Batch(j));
      }
    }
  }

  lemma ArrivalKept(s: State, t: State, k: nat, req: Req, core: nat)
    requires Kept(s) && s.n == Build(k) && k < |s.reqs| == |s.types| && s.freeCnt == 0 && req !in s.place
    requires t == s.(reqs := s.reqs[k := req], types := s.types[k := core], n := Build(k + 1),
                     place := s.place[req := Batch(k)])
    ensures Kept(t)
  {
    forall q | q in s.place
      ensures Holds(t, q, s.place[q])
    {
      assert Holds(s, q, s.place[q]);
    }
    KeptMoved(s, t, req, Batch(k));
  }

  lemma ArrivalStructure(cfg: Config, s: State, arrival: bool, req: Req, core: nat)
    requires Structure(cfg, s) && NetworkEnabled(cfg, s, arrival, req, core) && s.n.Build? && arrival
    ensures Structure(cfg, Network1(cfg, s, arrival, req, core))
  {
    var t := Network1(cfg, s, arrival, req, core);
    WorkersStay(cfg, s, t);
    ArrivalRecorded(cfg, s, t, s.n.k, req, core);
    ArrivalKept(s, t, s.n.k, req, core);
    assert t.place.Keys == s.place.Keys + {req};
  }

  /** Every step of every party keeps the structure. */
  lemma StepKeepsStructure(cfg: Config, s: State, a: Action)
    requires Structure(cfg, s) && Enabled(cfg, s, a)
    ensures Structure(cfg, Next(cfg, s, a))
  {
    match a
    case Work(i, preempted) => WorkStructure(cfg, s, i, preempted);
    case Network(arrival, req, core) =>
      if s.n.Build? && arrival {
        ArrivalStructure(cfg, s, arrival, req, core);
      } else if s.n.Free? && s.n.k < s.freeCnt {
        FreeStructure(cfg, s, arrival, req, core);
      } else {
        NetworkQuietStructure(cfg, s, arrival, req, core);
      }
    case Dispatch(granted, from, some) =>
      if AtNetworker(s.d) {
        NetStructure(cfg, s, granted);
      } else {
        DispatchWorkerStructure(cfg, s, from, some);
      }
  }

  lemma NetStructure(cfg: Config, s: State, granted: bool)
    requires Structure(cfg, s) && DispatchEnabled(cfg, s, 0, false) && AtNetworker(s.d)
    ensures Structure(cfg, DispatchNet(cfg, s, granted))
  {
    match s.d
    case NetPut(_) => PutStructure(cfg, s, granted);
    case NetBack(_) => BackStructure(cfg, s, granted);
    case NetDone => NetDoneStructure(cfg, s, granted);
    case NetTake(k) =>
      if k < s.cnt && !granted {
        TakeFailsStructure(cfg, s);
      } else {
        NetQuietStructure(cfg, s, granted);
      }
    case _ => NetQuietStructure(cfg, s, granted);
  }

  lemma DispatchWorkerStructure(cfg: Config, s: State, from: nat, some: bool)
    requires Structure(cfg, s) && DispatchEnabled(cfg, s, from, some) && !AtNetworker(s.d)
    ensures Structure(cfg, DispatchWorker(cfg, s, from, some))
  {
    match s.d
    case Scan(i) =>
      if i < |s.w| {
        ScanWorkerStructure(cfg, s, from, some);
      } else {
        ScanEndStructure(cfg, s, from, some);
      }
    case FinishCount(_) => FinishCountStructure(cfg, s, from, some);
    case FinishTest(_) => FinishTestStructure(cfg, s, from, some);
    case FinishLower(_) => FinishLowerStructure(cfg, s, from, some);
    case FinishEnqueue(_) => FinishEnqueueStructure(cfg, s, from, some);
    case FinishAck(_) => AckStructure(cfg, s, from, some);
    case PreemptEnqueue(_) => PreemptEnqueueStructure(cfg, s, from, some);
    case PreemptAck(_) => AckStructure(cfg, s, from, some);
    case Dequeue(_) =>
      if some {
        DequeueStructure(cfg, s, from, some);
      } else {
        ActivateStructure(cfg, s, from, some);
      }
    case Mark(_, _) => MarkStructure(cfg, s, from, some);
    case FillSlot(_, _) => FillStructure(cfg, s, from, some);
    case Activate(_) => ActivateStructure(cfg, s, from, some);
  }
}
