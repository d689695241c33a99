/**
  The networker, the dispatcher and the workers of Horus/Shinjuku as one transition system. A step is one
  access to the memory the cores share: a flag, `queue_length`, `worker_state`, `cnt` or `free_cnt`; the
  fields that a flag hands over are written in one step of their own, before the flag.

  Two variants share the protocol. Horus (dp/core) counts tasks and gives every worker its own queue;
  TrackUs (track_us) adds up microseconds and lets any worker take from any queue.
 */
module Scheduler {
  import opened Widths

  datatype Variant = Horus | TrackUs

  /** `workers` cores, `ports` task queues, queues that take preempted tasks at the head, and the batch size. */
  datatype Config = Config(variant: Variant, workers: nat, ports: nat, headFirst: seq<bool>, batch: nat, pool: nat)
  {
    ghost predicate Valid() {
      && |headFirst| == ports
      && (variant.Horus? ==> workers <= ports)
      && pool < WRAP32
    }

    /** What one request adds to `queue_length`. */
    function Weight(r: Req): nat {
      if variant.Horus? then 1 else r.us
    }
  }

  /** A request: its identity, its service time, and whether the leaf scheduler took the worker off its idle list for
      it. */
  datatype Req = Req(id: nat, us: nat, idle: bool)

  datatype Category = Packet | Context

  datatype Task = Task(req: Req, port: nat, category: Category)

  /** A reply to the client; `idle` is PKT_TYPE_TASK_DONE_IDLE. */
  datatype Reply = NoReply | Reply(req: Req, idle: bool, qlen: nat)

  datatype RequestFlag = Waiting | Active
  datatype ResponseFlag = Running | Finished | Preempted | Processed

  /** Where a worker is in do_work, handle_request, generic_work and finish_request. */
  datatype WorkerPc =
    | Start | StartState | Wait | Clear | Run | ReadLength | ReadState | Send | Fill | Publish

  /** One worker with its two cells of shared memory. The fields from `busy` on are bookkeeping for the proofs. */
  datatype Worker = Worker(
    pc: WorkerPc, finished: bool, newQlen: nat, idle: bool,
    requestFlag: RequestFlag, slot: Task,
    responseFlag: ResponseFlag, response: Task,
    reply: Reply,
    busy: bool, counted: bool, readLoad: nat, readState: nat,
    dispatched: nat, handled: nat, finishes: nat, replies: nat)

  /** Where the dispatcher is: scanning worker `i`, finishing, requeueing, dispatching, or at the networker. */
  datatype DispatcherPc =
    | Scan(i: nat)
    | FinishCount(i: nat) | FinishTest(i: nat) | FinishLower(i: nat) | FinishEnqueue(i: nat) | FinishAck(i: nat)
    | PreemptEnqueue(i: nat) | PreemptAck(i: nat)
    | Dequeue(i: nat) | Mark(i: nat, task: Task) | FillSlot(i: nat, task: Task) | Activate(i: nat)
    | Net | NetTake(k: nat) | NetCount(k: nat) | NetState(k: nat) | NetPut(k: nat) | NetBack(k: nat) | NetDone

  datatype NetworkerPc = Receive | Spin | Free(k: nat) | Build(k: nat)

  /** Where a live request is. */
  datatype Place =
    | Batch(k: nat) | Queued(c: nat) | Held | Slot(i: nat) | Done(p: nat) | Returned(k: nat)

  /** `reqs`, `types`, `cnt` and `freeCnt` are networker_pointers; `frq` is the finished queue, last in first
      out. `place` is bookkeeping: the one place of every live request. */
  datatype State = State(
    d: DispatcherPc, n: NetworkerPc, w: seq<Worker>,
    tskq: seq<seq<Task>>, qlen: seq<nat>, wstate: seq<nat>,
    frq: seq<Req>,
    cnt: nat, freeCnt: nat, reqs: seq<Req>, types: seq<nat>,
    place: map<Req, Place>)

  /** The choices the environment makes. */
  datatype Action =
    | Dispatch(granted: bool, from: nat, some: bool)
    | Work(i: nat, preempted: bool)
    | Network(arrival: bool, req: Req, core: nat)

  // ----- Load -----

  function QueueLoad(cfg: Config, q: seq<Task>): nat
  {
    if |q| == 0 then 0 else cfg.Weight(q[0].req) + QueueLoad(cfg, q[1..])
  }

  function WorkerLoad(cfg: Config, x: Worker, c: nat): nat
  {
    if x.counted && x.slot.port == c then cfg.Weight(x.slot.req) else 0
  }

  /** Tasks of queue `c` in the slots of the first `m` workers. */
  function SlotsLoad(cfg: Config, w: seq<Worker>, c: nat, m: nat): nat
    requires m <= |w|
  {
    if m == 0 then 0 else SlotsLoad(cfg, w, c, m - 1) + WorkerLoad(cfg, w[m - 1], c)
  }

  /** A task the dispatcher has in hand: dequeued and not yet in a slot, or counted and not yet enqueued. */
  function HandLoad(cfg: Config, s: State, c: nat): nat
  {
    match s.d
    case Mark(_, t) => if t.port == c then cfg.Weight(t.req) else 0
    case FillSlot(_, t) => if t.port == c then cfg.Weight(t.req) else 0
    case NetState(k) => if k < |s.reqs| && k < |s.types| && s.types[k] == c then cfg.Weight(s.reqs[k]) else 0
    case NetPut(k) => if k < |s.reqs| && k < |s.types| && s.types[k] == c then cfg.Weight(s.reqs[k]) else 0
    case _ => 0
  }

  /** Everything `queue_length[c]` stands for: queued, in hand, and in flight. */
  function Load(cfg: Config, s: State, c: nat): nat
    requires c < |s.tskq|
  {
    QueueLoad(cfg, s.tskq[c]) + SlotsLoad(cfg, s.w, c, |s.w|) + HandLoad(cfg, s, c)
  }

  // ----- The workers -----

  /** Memory shapes that no step changes. */
  ghost predicate Shape(cfg: Config, s: State)
  {
    && cfg.Valid()
    && |s.w| == cfg.workers
    && |s.tskq| == |s.qlen| == |s.wstate| == cfg.ports
    && |s.reqs| == |s.types| == cfg.batch
  }

  ghost predicate WorkEnabled(cfg: Config, s: State, i: nat)
  {
    && Shape(cfg, s) && i < |s.w|
    && (s.w[i].pc == Wait ==> s.w[i].requestFlag == Active)
    && (s.w[i].pc == ReadLength || cfg.variant.Horus? ==> ReportedQueue(cfg, i, s.w[i]) < cfg.ports)
  }

  /** The queue a worker reports on: its own, or that of the task it runs. */
  function ReportedQueue(cfg: Config, i: nat, x: Worker): nat
  {
    if cfg.variant.Horus? then i else x.slot.port
  }

  /** One step of a worker that reads `qlen` and `wstate` from shared memory; `load` is what the queue length stands
      for. */
  function Advance(cfg: Config, x: Worker, qlen: nat, wstate: nat, load: nat, preempted: bool): (y: Worker)
    ensures y.slot == x.slot && y.counted == x.counted && y.busy == x.busy
  {
    match x.pc
    case Start => x.(responseFlag := Processed, pc := StartState)
    case StartState => x.(pc := Wait)
    case Wait => x.(pc := Clear)
    case Clear => x.(requestFlag := Waiting, pc := Run)
    case Run => x.(finished := false, pc := if preempted then Fill else ReadLength)
    case ReadLength =>
      // uint32 minus one, kept in a uint16_t; track_us takes off the task's microseconds and keeps 32 bits
      var left := if cfg.variant.Horus? then (qlen - 1) % WRAP16 else (qlen - cfg.Weight(x.slot.req)) % WRAP32;
      x.(newQlen := left, readLoad := load, pc := ReadState)
    case ReadState =>
      x.(idle := cfg.variant.Horus? && x.newQlen == 0 && wstate > 0, readState := wstate, pc := Send)
    case Send => x.(reply := Reply(x.slot.req, x.idle, x.newQlen), replies := x.replies + 1, finished := true,
                    pc := Fill)
    case Fill => x.(response := x.slot.(category := Context), pc := Publish)
    case Publish => x.(responseFlag := if x.finished then Finished else Preempted, pc := Wait)
  }

  /** Worker `i` after its step; a queue number is only looked at when the step reads shared memory. */
  ghost function Advanced(cfg: Config, s: State, i: nat, preempted: bool): (y: Worker)
    requires WorkEnabled(cfg, s, i)
    ensures y.slot == s.w[i].slot && y.counted == s.w[i].counted && y.busy == s.w[i].busy
  {
    var c := ReportedQueue(cfg, i, s.w[i]);
    if c < cfg.ports then Advance(cfg, s.w[i], s.qlen[c], s.wstate[c], Load(cfg, s, c), preempted)
    else Advance(cfg, s.w[i], 0, 0, 0, preempted)
  }

  ghost function Work1(cfg: Config, s: State, i: nat, preempted: bool): State
    requires WorkEnabled(cfg, s, i)
  {
    s.(w := s.w[i := Advanced(cfg, s, i, preempted)],
       wstate := if s.w[i].pc == StartState && cfg.variant.Horus? then s.wstate[i := 0] else s.wstate)
  }

  // ----- The dispatcher -----

  ghost predicate DispatchEnabled(cfg: Config, s: State, from: nat, some: bool)
  {
    && Shape(cfg, s)
    && match s.d
       case Scan(i) => true
       case FinishCount(i) => i < |s.w| && s.w[i].response.port < cfg.ports
       case FinishTest(i) => i < |s.w| && s.w[i].response.port < cfg.ports
       case FinishLower(i) => i < |s.w| && s.w[i].response.port < cfg.ports && s.wstate[s.w[i].response.port] > 0
       case FinishEnqueue(i) => i < |s.w|
       case FinishAck(i) => i < |s.w|
       case PreemptEnqueue(i) => i < |s.w| && s.w[i].response.port < cfg.ports
       case PreemptAck(i) => i < |s.w|
       case Dequeue(i) =>
         if some then from < cfg.ports && s.tskq[from] != [] && (cfg.variant.Horus? ==> from == i)
         else cfg.variant.Horus? ==> i < cfg.ports && s.tskq[i] == []
       case Mark(i, _) => i < |s.w|
       case FillSlot(i, _) => i < |s.w|
       case Activate(i) => i < |s.w|
       case Net => true
       case NetTake(k) => k < s.cnt ==> k < |s.reqs|
       case NetCount(k) => k < |s.reqs| && s.types[k] < cfg.ports
       case NetState(k) => k < |s.reqs| && s.types[k] < cfg.ports
       case NetPut(k) => k < |s.reqs| && s.types[k] < cfg.ports
       case NetBack(k) => true
       case NetDone => true
  }

  function Requeue(cfg: Config, q: seq<Task>, t: Task): seq<Task>
    requires t.port < |cfg.headFirst|
  {
    if cfg.headFirst[t.port] then [t] + q else q + [t]
  }

  /** handle_worker(i): finished, preempted or processed replies are dealt with, then worker i gets a task. */
  ghost function DispatchWorker(cfg: Config, s: State, from: nat, some: bool): State
    requires DispatchEnabled(cfg, s, from, some)
    requires s.d.Scan? || s.d.FinishCount? || s.d.FinishTest? || s.d.FinishLower? || s.d.FinishEnqueue?
             || s.d.FinishAck?
             || s.d.PreemptEnqueue? || s.d.PreemptAck? || s.d.Dequeue? || s.d.Mark? || s.d.FillSlot? || s.d.Activate?
  {
    match s.d
    case Scan(i) =>
      if i >= |s.w| then s.(d := Net)
      else (match s.w[i].responseFlag
            case Running => s.(d := Scan(i + 1))
            case Finished => s.(d := FinishCount(i))
            case Preempted => s.(d := PreemptEnqueue(i))
            case Processed => s.(d := Dequeue(i)))
    case FinishCount(i) =>
      var x := s.w[i];
      var c := x.response.port;
      s.(qlen := s.qlen[c := (s.qlen[c] - cfg.Weight(x.response.req)) % WRAP32], w := s.w[i := x.(counted := false)],
         d := if cfg.variant.Horus? then FinishTest(i) else FinishEnqueue(i))
    case FinishTest(i) =>
      var c := s.w[i].response.port;
      s.(d := if s.qlen[c] == 0 && s.wstate[c] > 0 then FinishLower(i) else FinishEnqueue(i))
    case FinishLower(i) =>
      var c := s.w[i].response.port;
      s.(wstate := s.wstate[c := s.wstate[c] - 1], d := FinishEnqueue(i))
    case FinishEnqueue(i) =>
      var x := s.w[i];
      s.(frq := s.frq + [x.response.req], w := s.w[i := x.(busy := false)], d := FinishAck(i),
         place := s.place[x.response.req := Done(|s.frq|)])
    case FinishAck(i) =>
      var x := s.w[i];
      s.(w := s.w[i := x.(responseFlag := Processed, handled := x.handled + 1, finishes := x.finishes + 1)],
         d := Dequeue(i))
    case PreemptEnqueue(i) =>
      var x := s.w[i];
      var c := x.response.port;
      s.(tskq := s.tskq[c := Requeue(cfg, s.tskq[c], x.response)], w := s.w[i := x.(busy := false, counted := false)],
         d := PreemptAck(i), place := s.place[x.response.req := Queued(c)])
    case PreemptAck(i) =>
      s.(w := s.w[i := s.w[i].(responseFlag := Processed, handled := s.w[i].handled + 1)], d := Dequeue(i))
    case Dequeue(i) =>
      if some then
        var t := s.tskq[from][0];
        s.(tskq := s.tskq[from := s.tskq[from][1..]], d := Mark(i, t), place := s.place[t.req := Held])
      else s.(d := Scan(i + 1))
    case Mark(i, t) => s.(w := s.w[i := s.w[i].(responseFlag := Running)], d := FillSlot(i, t))
    case FillSlot(i, t) =>
      s.(w := s.w[i := s.w[i].(slot := t, busy := true, counted := true, dispatched := s.w[i].dispatched + 1)],
         d := Activate(i), place := s.place[t.req := Slot(i)])
    case Activate(i) => s.(w := s.w[i := s.w[i].(requestFlag := Active)], d := Scan(i + 1))
  }

  /** handle_networker: take the batch over, then hand finished requests back in the same array. */
  ghost function DispatchNet(cfg: Config, s: State, granted: bool): State
    requires DispatchEnabled(cfg, s, 0, false)
    requires s.d.Net? || s.d.NetTake? || s.d.NetCount? || s.d.NetState? || s.d.NetPut? || s.d.NetBack? || s.d.NetDone?
  {
    match s.d
    case Net => s.(d := if s.cnt != 0 then NetTake(0) else Scan(0))
    case NetTake(k) =>
      if k >= s.cnt then s.(d := NetBack(0))
      else if granted then s.(d := NetCount(k))
      else s.(frq := s.frq + [s.reqs[k]], d := NetTake(k + 1), place := s.place[s.reqs[k] := Done(|s.frq|)])
    case NetCount(k) =>
      var c := s.types[k];
      s.(qlen := s.qlen[c := (s.qlen[c] + cfg.Weight(s.reqs[k])) % WRAP32], d := NetState(k))
    case NetState(k) =>
      var c := s.types[k];
      s.(wstate := if cfg.variant.Horus? && s.reqs[k].idle && s.wstate[c] == 0 then s.wstate[c := 1] else s.wstate,
         d := NetPut(k))
    case NetPut(k) =>
      var c := s.types[k];
      s.(tskq := s.tskq[c := s.tskq[c] + [Task(s.reqs[k], c, Packet)]], d := NetTake(k + 1),
         place := s.place[s.reqs[k] := Queued(c)])
    case NetBack(k) =>
      if k < |s.reqs| && s.frq != [] then
        var r := s.frq[|s.frq| - 1];
        s.(reqs := s.reqs[k := r], frq := s.frq[..|s.frq| - 1], freeCnt := s.freeCnt + 1, d := NetBack(k + 1),
           place := s.place[r := Returned(k)])
      else s.(d := NetDone)
    case NetDone => s.(cnt := 0, d := Scan(0))
  }

  // ----- The networker -----

  ghost predicate NetworkEnabled(cfg: Config, s: State, arrival: bool, req: Req, core: nat)
  {
    && Shape(cfg, s)
    && match s.n
       case Receive => true
       case Spin => s.cnt == 0
       case Free(k) => k < s.freeCnt ==> k < |s.reqs|
       case Build(k) => arrival ==> k < |s.reqs| && core < cfg.ports && req !in s.place && |s.place| < cfg.pool
  }

  /** do_networking: wait for the dispatcher, free what it returned, fill the array, publish the count. */
  ghost function Network1(cfg: Config, s: State, arrival: bool, req: Req, core: nat): State
    requires NetworkEnabled(cfg, s, arrival, req, core)
  {
    match s.n
    case Receive => s.(n := Spin)
    case Spin => s.(n := Free(0))
    case Free(k) =>
      if k < s.freeCnt then s.(n := Free(k + 1), place := s.place - {s.reqs[k]})
      else s.(freeCnt := 0, n := Build(0))
    case Build(k) =>
      if arrival then
        s.(reqs := s.reqs[k := req], types := s.types[k := core], n := Build(k + 1), place := s.place[req := Batch(k)])
      else s.(cnt := k, n := Receive)
  }

  // ----- Runs -----

  ghost predicate Enabled(cfg: Config, s: State, a: Action)
  {
    match a
    case Work(i, _) => WorkEnabled(cfg, s, i)
    case Dispatch(_, from, some) => DispatchEnabled(cfg, s, from, some)
    case Network(arrival, req, core) => NetworkEnabled(cfg, s, arrival, req, core)
  }

  ghost predicate AtNetworker(d: DispatcherPc)
  {
    d.Net? || d.NetTake? || d.NetCount? || d.NetState? || d.NetPut? || d.NetBack? || d.NetDone?
  }

  ghost function Next(cfg: Config, s: State, a: Action): State
    requires Enabled(cfg, s, a)
  {
    match a
    case Work(i, preempted) => Work1(cfg, s, i, preempted)
    case Dispatch(granted, from, some) =>
      if AtNetworker(s.d) then DispatchNet(cfg, s, granted) else DispatchWorker(cfg, s, from, some)
    case Network(arrival, req, core) => Network1(cfg, s, arrival, req, core)
  }

  /** Zeroed memory: flags read RUNNING and WAITING, counters are 0. */
  ghost predicate Initial(cfg: Config, s: State)
  {
    && Shape(cfg, s)
    && s.d == Scan(0) && s.n == Receive && s.cnt == 0 && s.freeCnt == 0
    && s.frq == [] && s.place == map[]
    && (forall c :: 0 <= c < cfg.ports ==> s.tskq[c] == [] && s.qlen[c] == 0 && s.wstate[c] == 0)
    && forall i :: 0 <= i < cfg.workers ==>
         var x := s.w[i];
         && x.pc == Start && x.requestFlag == Waiting && x.responseFlag == Running
         && !x.busy && !x.counted && x.dispatched == 0 && x.handled == 0 && x.finishes == 0 && x.replies == 0
  }

  /** `t` is reached from `s` by some run of the three parties, in any interleaving. */
  ghost predicate RunsTo(cfg: Config, s: State, run: seq<Action>, t: State)
    decreases |run|
  {
    if |run| == 0 then s == t
    else Enabled(cfg, s, run[0]) && RunsTo(cfg, Next(cfg, s, run[0]), run[1..], t)
  }
}
