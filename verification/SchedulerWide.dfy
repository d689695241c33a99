/**
  `new_qlen` has 16 bits: a run in which a worker of Horus tells its client that it is idle with 65536 other tasks
  in its queue, for every configuration that has room for so many requests.
 */
module SchedulerWide {
  import opened Widths
  import opened Scheduler
  import opened SchedulerInvariant
  import opened SchedulerIdle
  import opened SchedulerReplies
  import opened SchedulerTheorems

  lemma {:induction false} RunThenStep(cfg: Config, s: State, run: seq<Action>, t: State, a: Action)
    requires RunsTo(cfg, s, run, t) && Enabled(cfg, t, a)
    ensures RunsTo(cfg, s, run + [a], Next(cfg, t, a))
    decreases |run|
  {
    if run == [] {
      assert [a][1..] == [];
      assert run + [a] == [a];
    } else {
      assert (run + [a])[0] == run[0] && (run + [a])[1..] == run[1..] + [a];
      RunThenStep(cfg, Next(cfg, s, run[0]), run[1..], t, a);
    }
  }

  lemma ReachNext(cfg: Config, t: State, a: Action)
    requires Reachable(cfg, t) && Enabled(cfg, t, a)
    ensures Reachable(cfg, Next(cfg, t, a))
  {
    var s, run :| Initial(cfg, s) && RunsTo(cfg, s, run, t);
    RunThenStep(cfg, s, run, t, a);
  }

  // ----- One request comes -----

  /** Worker 0 has a queue, the array an entry; the parties are at the start of their loops and have nothing in hand. */
  ghost predicate Still(cfg: Config, s: State)
  {
    && Shape(cfg, s) && cfg.variant.Horus? && 0 < cfg.workers && 0 < cfg.batch
    && s.d == Scan(0) && s.n == Receive && s.cnt == 0 && s.freeCnt == 0 && s.frq == []
  }

  /** The networker has put `r` for queue 0 into the array. */
  function Brought(s: State, r: Req): State
    requires |s.reqs| > 0 && |s.types| > 0
  {
    s.(reqs := s.reqs[0 := r], types := s.types[0 := 0], cnt := 1, place := s.place[r := Batch(0)])
  }

  lemma NetworkerBrings(cfg: Config, s: State, r: Req)
    requires Reachable(cfg, s) && Still(cfg, s) && r !in s.place && |s.place| < cfg.pool
    ensures Reachable(cfg, Brought(s, r))
  {
    var quiet, come := Network(false, r, 0), Network(true, r, 0);
    ReachNext(cfg, s, quiet);
    var s1 := s.(n := Spin);
    ReachNext(cfg, s1, quiet);
    var s2 := s.(n := Free(0));
    ReachNext(cfg, s2, quiet);
    var s3 := s.(n := Build(0));
    ReachNext(cfg, s3, come);
    var s4 := s.(n := Build(1), reqs := s.reqs[0 := r], types := s.types[0 := 0], place := s.place[r := Batch(0)]);
    ReachNext(cfg, s4, quiet);
    assert Next(cfg, s4, quiet) == Brought(s, r);
  }

  /** The dispatcher has moved it to the queue. */
  function Taken1(s: State, r: Req): State
    requires |s.qlen| > 0 && |s.wstate| > 0 && |s.tskq| > 0
  {
    s.(qlen := s.qlen[0 := (s.qlen[0] + 1) % WRAP32],
       wstate := if r.idle && s.wstate[0] == 0 then s.wstate[0 := 1] else s.wstate,
       tskq := s.tskq[0 := s.tskq[0] + [Scheduler.Task(r, 0, Packet)]],
       place := s.place[r := Queued(0)], cnt := 0, d := Scan(0))
  }

  lemma TakesOver(cfg: Config, s: State)
    requires Reachable(cfg, s) && Shape(cfg, s) && 0 < cfg.batch && s.d == Net && s.cnt == 1
    ensures Reachable(cfg, s.(d := NetCount(0)))
  {
    var go := Dispatch(true, 0, false);
    ReachNext(cfg, s, go);
    ReachNext(cfg, s.(d := NetTake(0)), go);
  }

  lemma CountsIn(cfg: Config, s: State)
    requires Reachable(cfg, s) && Shape(cfg, s) && cfg.variant.Horus? && s.d == NetCount(0) && |s.reqs| > 0
    requires s.types[0] == 0 && 0 < cfg.ports
    ensures var r := s.reqs[0];
            Reachable(cfg, s.(qlen := s.qlen[0 := (s.qlen[0] + 1) % WRAP32], d := NetPut(0),
                              wstate := if r.idle && s.wstate[0] == 0 then s.wstate[0 := 1] else s.wstate))
  {
    var go := Dispatch(true, 0, false);
    ReachNext(cfg, s, go);
    ReachNext(cfg, s.(d := NetState(0), qlen := s.qlen[0 := (s.qlen[0] + 1) % WRAP32]), go);
  }

  lemma PutsIn(cfg: Config, s: State)
    requires Reachable(cfg, s) && Shape(cfg, s) && s.d == NetPut(0) && |s.reqs| > 0 && s.types[0] == 0 && 0 < cfg.ports
    ensures var r := s.reqs[0];
            Reachable(cfg, s.(tskq := s.tskq[0 := s.tskq[0] + [Scheduler.Task(r, 0, Packet)]], d := NetTake(1),
                              place := s.place[r := Queued(0)]))
  {
    ReachNext(cfg, s, Dispatch(true, 0, false));
  }

  lemma LetsGo(cfg: Config, s: State)
    requires Reachable(cfg, s) && Shape(cfg, s) && s.d == NetTake(1) && s.cnt == 1 && s.frq == []
    ensures Reachable(cfg, s.(d := Scan(0), cnt := 0))
  {
    var go := Dispatch(true, 0, false);
    ReachNext(cfg, s, go);
    ReachNext(cfg, s.(d := NetBack(0)), go);
    ReachNext(cfg, s.(d := NetDone), go);
  }

  lemma DispatcherTakes(cfg: Config, s: State, r: Req)
    requires Reachable(cfg, s) && Shape(cfg, s) && cfg.variant.Horus? && 0 < cfg.workers && 0 < cfg.batch
    requires s.d == Net && s.cnt == 1 && s.reqs[0] == r && s.types[0] == 0 && s.frq == []
    ensures Reachable(cfg, Taken1(s, r))
  {
    TakesOver(cfg, s);
    CountsIn(cfg, s.(d := NetCount(0)));
    var t := Taken1(s, r);
    PutsIn(cfg, s.(d := NetPut(0), qlen := t.qlen, wstate := t.wstate));
    LetsGo(cfg, t.(cnt := 1, d := NetTake(1)));
  }

  /** The dispatcher passes by workers that are running. */
  lemma {:induction false} PassesBy(cfg: Config, s: State, i: nat)
    requires Reachable(cfg, s) && Shape(cfg, s) && s.d == Scan(i) && i <= |s.w|
    requires forall j :: i <= j < |s.w| ==> s.w[j].responseFlag == Running
    ensures Reachable(cfg, s.(d := Net))
    decreases |s.w| - i
  {
    var go := Dispatch(true, 0, false);
    ReachNext(cfg, s, go);
    if i < |s.w| {
      PassesBy(cfg, s.(d := Scan(i + 1)), i + 1);
    }
  }

  /** One more request in queue 0. */
  function Arrived(s: State, r: Req): State
    requires |s.qlen| > 0 && |s.wstate| > 0 && |s.tskq| > 0 && |s.reqs| > 0 && |s.types| > 0
  {
    Taken1(s, r).(reqs := s.reqs[0 := r], types := s.types[0 := 0])
  }

  lemma Round(cfg: Config, s: State, r: Req)
    requires Reachable(cfg, s) && Still(cfg, s) && r !in s.place && |s.place| < cfg.pool
    requires forall j :: 0 <= j < |s.w| ==> s.w[j].responseFlag == Running
    ensures Reachable(cfg, Arrived(s, r))
  {
    NetworkerBrings(cfg, s, r);
    var t := Brought(s, r);
    PassesBy(cfg, t, 0);
    DispatcherTakes(cfg, t.(d := Net), r);
    RoundIs(s, r);
  }

  lemma RoundIs(s: State, r: Req)
    requires |s.qlen| > 0 && |s.wstate| > 0 && |s.tskq| > 0 && |s.reqs| > 0 && |s.types| > 0
    ensures Taken1(Brought(s, r).(d := Net), r) == Arrived(s, r)
  {
  }

  // ----- Very many requests come -----

  /** Nobody has started, and `n` requests are in queue 0. */
  ghost predicate Waiting(cfg: Config, s: State, n: nat)
  {
    && Reachable(cfg, s) && Still(cfg, s)
    && (forall j :: 0 <= j < |s.w| ==> s.w[j].responseFlag == Running) && s.w[0].pc == Start
    && |s.place| == n && (forall r :: r in s.place ==> r.id < n) && s.qlen[0] == n && |s.tskq[0]| == n
  }

  lemma ZeroedMemory(cfg: Config) returns (s: State)
    requires cfg.Valid() && cfg.variant.Horus? && 0 < cfg.workers && 0 < cfg.batch
    ensures Waiting(cfg, s, 0)
  {
    var r := Req(0, 0, false);
    var t := Scheduler.Task(r, 0, Packet);
    var x := Worker(Start, false, 0, false, RequestFlag.Waiting, t, Running, t, NoReply, false, false, 0, 0, 0, 0, 0,
                    0);
    s := State(Scan(0), Receive, seq(cfg.workers, _ => x), seq(cfg.ports, _ => []), seq(cfg.ports, _ => 0),
               seq(cfg.ports, _ => 0), [], 0, 0, seq(cfg.batch, _ => r), seq(cfg.batch, _ => 0), map[]);
    assert Initial(cfg, s) && RunsTo(cfg, s, [], s);
  }

  lemma OneMoreWaits(cfg: Config, s: State, n: nat) returns (t: State)
    requires Waiting(cfg, s, n) && n < cfg.pool && cfg.pool < WRAP32
    ensures Waiting(cfg, t, n + 1)
  {
    var r := Req(n, 0, true);
    Round(cfg, s, r);
    t := Arrived(s, r);
    OneMorePlace(s.place, r, n);
  }

  lemma OneMorePlace(place: map<Req, Place>, r: Req, n: nat)
    requires |place| == n == r.id && forall q :: q in place ==> q.id < n
    ensures |place[r := Queued(0)]| == n + 1 && forall q :: q in place[r := Queued(0)] ==> q.id < n + 1
  {
    var t := place[r := Queued(0)];
    assert t.Keys == place.Keys + {r};
    assert |t| == |t.Keys| && |place| == |place.Keys|;
  }

  lemma {:induction false} ManyWait(cfg: Config, n: nat) returns (s: State)
    requires cfg.Valid() && cfg.variant.Horus? && 0 < cfg.workers && 0 < cfg.batch && n <= cfg.pool
    ensures Waiting(cfg, s, n)
  {
    if n == 0 {
      s := ZeroedMemory(cfg);
    } else {
      var t := ManyWait(cfg, n - 1);
      s := OneMoreWaits(cfg, t, n - 1);
    }
  }

  // ----- The worker takes one of them, and answers -----

  lemma StartsUp(cfg: Config, s: State)
    requires Reachable(cfg, s) && Still(cfg, s) && s.w[0].pc == Start
    ensures Reachable(cfg, s.(w := s.w[0 := s.w[0].(responseFlag := Processed, pc := Wait)],
                              wstate := s.wstate[0 := 0]))
  {
    var go, x := Work(0, false), s.w[0].(responseFlag := Processed, pc := StartState);
    ReachNext(cfg, s, go);
    var s1 := s.(w := s.w[0 := x]);
    ReachNext(cfg, s1, go);
    assert s1.w[0 := x.(pc := Wait)] == s.w[0 := x.(pc := Wait)];
  }

  /** The dispatcher gives the first task of queue 0 to worker 0. */
  function Given(s: State): State
    requires |s.tskq| > 0 && s.tskq[0] != [] && |s.w| > 0
  {
    var t, x := s.tskq[0][0], s.w[0];
    s.(tskq := s.tskq[0 := s.tskq[0][1..]], place := s.place[t.req := Slot(0)], d := Scan(1),
       w := s.w[0 := x.(responseFlag := Running, slot := t, busy := true, counted := true,
                        dispatched := x.dispatched + 1,
                        requestFlag := Active)])
  }

  lemma PicksUp(cfg: Config, s: State)
    requires Reachable(cfg, s) && Shape(cfg, s) && cfg.variant.Horus? && |s.w| > 0 && s.d == Scan(0)
    requires s.w[0].responseFlag == Processed && s.tskq[0] != []
    ensures var t := s.tskq[0][0];
            Reachable(cfg, s.(tskq := s.tskq[0 := s.tskq[0][1..]], place := s.place[t.req := Held], d := Mark(0, t)))
  {
    var go := Dispatch(true, 0, true);
    ReachNext(cfg, s, go);
    ReachNext(cfg, s.(d := Dequeue(0)), go);
  }

  lemma HandsOver(cfg: Config, s: State, t: Scheduler.Task)
    requires Reachable(cfg, s) && Shape(cfg, s) && |s.w| > 0 && s.d == Mark(0, t)
    ensures var x := s.w[0].(responseFlag := Running, slot := t, busy := true, counted := true,
                             dispatched := s.w[0].dispatched + 1, requestFlag := Active);
            Reachable(cfg, s.(place := s.place[t.req := Slot(0)], d := Scan(1), w := s.w[0 := x]))
  {
    ReachNext(cfg, s, Dispatch(true, 0, true));
    var s1 := s.(w := s.w[0 := s.w[0].(responseFlag := Running)], d := FillSlot(0, t));
    FillsSlot(cfg, s1, t);
    var x := s1.w[0].(slot := t, busy := true, counted := true, dispatched := s.w[0].dispatched + 1,
                      requestFlag := Active);
    assert s1.w[0 := x] == s.w[0 := x];
  }

  lemma FillsSlot(cfg: Config, s: State, t: Scheduler.Task)
    requires Reachable(cfg, s) && Shape(cfg, s) && |s.w| > 0 && s.d == FillSlot(0, t)
    ensures var x := s.w[0].(slot := t, busy := true, counted := true, dispatched := s.w[0].dispatched + 1,
                             requestFlag := Active);
            Reachable(cfg, s.(place := s.place[t.req := Slot(0)], d := Scan(1), w := s.w[0 := x]))
  {
    var go := Dispatch(true, 0, true);
    ReachNext(cfg, s, go);
    var x := s.w[0].(slot := t, busy := true, counted := true, dispatched := s.w[0].dispatched + 1);
    var s1 := s.(w := s.w[0 := x], d := Activate(0), place := s.place[t.req := Slot(0)]);
    ReachNext(cfg, s1, go);
    assert s1.w[0 := x.(requestFlag := Active)] == s.w[0 := x.(requestFlag := Active)];
  }

  lemma GivesWork(cfg: Config, s: State)
    requires Reachable(cfg, s) && Shape(cfg, s) && cfg.variant.Horus? && |s.w| > 0 && s.d == Scan(0)
    requires s.w[0].responseFlag == Processed && s.tskq[0] != []
    ensures Reachable(cfg, Given(s))
  {
    var t := s.tskq[0][0];
    PicksUp(cfg, s);
    HandsOver(cfg, s.(tskq := s.tskq[0 := s.tskq[0][1..]], place := s.place[t.req := Held], d := Mark(0, t)), t);
    assert s.place[t.req := Held][t.req := Slot(0)] == s.place[t.req := Slot(0)];
  }

  lemma GoesOn(cfg: Config, s: State, y: Worker)
    requires Reachable(cfg, s) && WorkEnabled(cfg, s, 0) && cfg.variant.Horus? && s.w[0].pc != StartState
    requires y == Advance(cfg, s.w[0], s.qlen[0], s.wstate[0], Load(cfg, s, 0), false)
    ensures Reachable(cfg, s.(w := s.w[0 := y]))
  {
    ReachNext(cfg, s, Work(0, false));
  }

  lemma Clears(cfg: Config, s: State)
    requires Reachable(cfg, s) && Shape(cfg, s) && cfg.variant.Horus? && |s.w| > 0
    requires s.w[0].pc == Wait && s.w[0].requestFlag == Active
    ensures Reachable(cfg, s.(w := s.w[0 := s.w[0].(pc := Run, requestFlag := RequestFlag.Waiting)]))
  {
    var x := s.w[0];
    GoesOn(cfg, s, x.(pc := Clear));
    var s1 := s.(w := s.w[0 := x.(pc := Clear)]);
    GoesOn(cfg, s1, x.(requestFlag := RequestFlag.Waiting, pc := Run));
    assert s1.w[0 := x.(requestFlag := RequestFlag.Waiting, pc := Run)] ==
           s.w[0 := x.(requestFlag := RequestFlag.Waiting, pc := Run)];
  }

  lemma BeginsToRun(cfg: Config, s: State)
    requires Reachable(cfg, s) && Shape(cfg, s) && cfg.variant.Horus? && |s.w| > 0
    requires s.w[0].pc == Wait && s.w[0].requestFlag == Active
    ensures Reachable(cfg, s.(w := s.w[0 := s.w[0].(pc := ReadLength, requestFlag := RequestFlag.Waiting,
                                                    finished := false)]))
  {
    Clears(cfg, s);
    var y := s.w[0].(requestFlag := RequestFlag.Waiting, pc := Run);
    var s1 := s.(w := s.w[0 := y]);
    GoesOn(cfg, s1, y.(finished := false, pc := ReadLength));
    assert s1.w[0 := y.(finished := false, pc := ReadLength)] == s.w[0 := y.(finished := false, pc := ReadLength)];
  }

  /** Reading a queue length of 65537, the worker reports an idle core. */
  lemma Answers0(cfg: Config, s: State) returns (t: State)
    requires Reachable(cfg, s) && Shape(cfg, s) && cfg.variant.Horus? && |s.w| > 0 && s.w[0].pc == ReadLength
    requires s.qlen[0] == WRAP16 + 1 && s.wstate[0] > 0
    ensures Reachable(cfg, t) && Shape(cfg, t) && |t.w| > 0 && t.w[0].pc == Fill && t.w[0].finished
    ensures t.w[0].reply == Reply(t.w[0].slot.req, true, 0) && t.w[0].readLoad == WRAP16 + 1
  {
    ExactAccounting(cfg, s, 0);
    var x := s.w[0].(newQlen := 0, readLoad := WRAP16 + 1, pc := ReadState);
    GoesOn(cfg, s, x);
    var s1 := s.(w := s.w[0 := x]);
    var y := x.(idle := true, readState := s.wstate[0], pc := Send);
    GoesOn(cfg, s1, y);
    var s2 := s1.(w := s1.w[0 := y]);
    var z := y.(reply := Reply(y.slot.req, true, 0), replies := y.replies + 1, finished := true, pc := Fill);
    GoesOn(cfg, s2, z);
    t := s2.(w := s2.w[0 := z]);
  }

  /** Worker 0 has come up, and a request is in the array. */
  lemma ComesUp(cfg: Config, s: State, n: nat) returns (t: State)
    requires Waiting(cfg, s, n) && 0 < n < cfg.pool
    ensures Reachable(cfg, t) && t == Brought(s.(w := s.w[0 := s.w[0].(responseFlag := Processed, pc := Wait)],
                                                wstate := s.wstate[0 := 0]), Req(n, 0, true))
  {
    StartsUp(cfg, s);
    var s1 := s.(w := s.w[0 := s.w[0].(responseFlag := Processed, pc := Wait)], wstate := s.wstate[0 := 0]);
    NetworkerBrings(cfg, s1, Req(n, 0, true));
    t := Brought(s1, Req(n, 0, true));
  }

  /** Worker 0 is up, `n` tasks wait for it, and `r` is in the array. */
  ghost predicate Pending(cfg: Config, s: State, n: nat, r: Req)
  {
    && Reachable(cfg, s) && Shape(cfg, s) && cfg.variant.Horus? && |s.w| > 0 && 0 < cfg.batch
    && s.d == Scan(0) && s.cnt == 1 && s.reqs[0] == r && s.types[0] == 0 && s.frq == [] && s.tskq[0] != []
    && s.w[0].pc == Wait && s.w[0].responseFlag == Processed && s.qlen[0] == n && s.wstate[0] == 0
    && forall j :: 1 <= j < |s.w| ==> s.w[j].responseFlag == Running
  }

  /** The first task goes to worker 0, and the request that comes makes its state active. */
  lemma BothServed(cfg: Config, s: State, n: nat, r: Req) returns (t: State)
    requires Pending(cfg, s, n, r) && r.idle && n + 1 < WRAP32
    ensures Reachable(cfg, t) && Shape(cfg, t) && |t.w| > 0 && t.w[0].pc == Wait && t.w[0].requestFlag == Active
    ensures t.qlen[0] == n + 1 && t.wstate[0] == 1
  {
    GivesWork(cfg, s);
    var s1 := Given(s);
    PassesBy(cfg, s1, 1);
    DispatcherTakes(cfg, s1.(d := Net), r);
    t := Taken1(s1.(d := Net), r);
  }

  /** Worker 0 is running, and the request that comes now makes its state active. */
  lemma LastComes(cfg: Config, s: State, n: nat) returns (t: State)
    requires Waiting(cfg, s, n) && 0 < n < cfg.pool && cfg.pool < WRAP32
    ensures Reachable(cfg, t) && Shape(cfg, t) && |t.w| > 0 && t.w[0].pc == Wait && t.w[0].requestFlag == Active
    ensures t.qlen[0] == n + 1 && t.wstate[0] == 1
  {
    var s1 := ComesUp(cfg, s, n);
    t := BothServed(cfg, s1, n, Req(n, 0, true));
  }

  lemma IdleDespiteWork(cfg: Config) returns (s: State)
    requires cfg.Valid() && cfg.variant.Horus? && 0 < cfg.workers && 0 < cfg.batch && WRAP16 < cfg.pool
    ensures Reachable(cfg, s) && |s.w| > 0 && HasReplied(s.w[0])
    ensures s.w[0].reply.Reply? && s.w[0].reply.idle && s.w[0].readLoad == WRAP16 + 1
  {
    var s1 := ManyWait(cfg, WRAP16);
    var s2 := LastComes(cfg, s1, WRAP16);
    BeginsToRun(cfg, s2);
    var x := s2.w[0].(pc := ReadLength, requestFlag := RequestFlag.Waiting, finished := false);
    s := Answers0(cfg, s2.(w := s2.w[0 := x]));
  }

  /** An idle reply of a worker that had no other work. */
  ghost predicate Honest(x: Worker)
  {
    HasReplied(x) && x.reply.Reply? && x.reply.idle ==> x.readLoad == 1
  }

  /** An IDLE reply means that the worker had no other work when it read its queue length, in all runs, exactly when
      there is room for no more than 65536 requests. */
  lemma IdleMeansAloneExactly(cfg: Config)
    requires cfg.Valid() && cfg.variant.Horus? && 0 < cfg.workers && 0 < cfg.batch
    ensures (forall s: State, i: nat {:trigger s.w[i]} :: Reachable(cfg, s) && i < |s.w| ==> Honest(s.w[i])) <==>
            cfg.pool <= WRAP16
  {
    if cfg.pool <= WRAP16 {
      forall s: State, i: nat | Reachable(cfg, s) && i < |s.w|
        ensures Honest(s.w[i])
      {
        if !Honest(s.w[i]) { IdleMeansAlone(cfg, s, i); }
      }
    } else {
      var s := IdleDespiteWork(cfg);
      assert !Honest(s.w[0]);
    }
  }
}
