/**
  The order in the task queues, over any run: tasks leave a queue in the order in which they joined it at the tail. A
  preempted task joins at the tail, or goes to the head, as the queue is set up.
 */
module SchedulerOrder {
  import opened Scheduler
  import opened SchedulerInvariant
  import opened SchedulerIdle

  // ----- What a step does at one queue -----

  /** The task that the dispatcher takes out of queue `c`. */
  ghost function Out(cfg: Config, s: State, a: Action, c: nat): seq<Task>
    requires Enabled(cfg, s, a)
  {
    if a.Dispatch? && s.d.Dequeue? && a.some && a.from == c && Next(cfg, s, a).d.Mark? then [Next(cfg, s, a).d.task]
    else []
  }

  /** The new request for queue `c`. */
  ghost function Arrives(cfg: Config, s: State, a: Action, c: nat): seq<Task>
    requires Enabled(cfg, s, a)
  {
    if a.Dispatch? && s.d.NetPut? && s.types[s.d.k] == c then [Task.Task(s.reqs[s.d.k], c, Packet)] else []
  }

  /** The preempted task that came from queue `c`. */
  ghost function Returns(cfg: Config, s: State, a: Action, c: nat): seq<Task>
    requires Enabled(cfg, s, a)
  {
    if a.Dispatch? && s.d.PreemptEnqueue? && s.w[s.d.i].slot.port == c then [Task.Task(s.w[s.d.i].slot.req, c, Context)]
    else []
  }

  /** What a step makes of queue `c`. */
  ghost predicate QueueStep(cfg: Config, s: State, a: Action, t: State, c: nat)
    requires Enabled(cfg, s, a) && Shape(cfg, s) && Shape(cfg, t) && c < cfg.ports
  {
    if cfg.headFirst[c] && Returns(cfg, s, a, c) != [] then
      t.tskq[c] == Returns(cfg, s, a, c) + s.tskq[c] && Out(cfg, s, a, c) == Arrives(cfg, s, a, c) == []
    else Out(cfg, s, a, c) + t.tskq[c] == s.tskq[c] + (Arrives(cfg, s, a, c) + Returns(cfg, s, a, c))
  }

  lemma NothingJoins(s: seq<Task>)
    ensures s + ([] + []) == s && [] + s == s
  {
  }

  lemma QuietStep(cfg: Config, s: State, a: Action, c: nat)
    requires Enabled(cfg, s, a) && Shape(cfg, s) && Shape(cfg, Next(cfg, s, a)) && c < cfg.ports
    requires a.Dispatch? ==> !s.d.Dequeue? && !s.d.NetPut? && !s.d.PreemptEnqueue?
    ensures QueueStep(cfg, s, a, Next(cfg, s, a), c)
  {
    SameQueues(cfg, s, a);
    NothingJoins(s.tskq[c]);
  }

  lemma SameQueues(cfg: Config, s: State, a: Action)
    requires Enabled(cfg, s, a)
    requires a.Dispatch? ==> !s.d.Dequeue? && !s.d.NetPut? && !s.d.PreemptEnqueue?
    ensures Next(cfg, s, a).tskq == s.tskq
  {
  }

  lemma DequeueStep(cfg: Config, s: State, a: Action, c: nat)
    requires Enabled(cfg, s, a) && Shape(cfg, s) && Shape(cfg, Next(cfg, s, a)) && c < cfg.ports
    requires a.Dispatch? && s.d.Dequeue?
    ensures QueueStep(cfg, s, a, Next(cfg, s, a), c)
  {
    NothingJoins(s.tskq[c]);
  }

  lemma PutStep(cfg: Config, s: State, a: Action, c: nat)
    requires Enabled(cfg, s, a) && Shape(cfg, s) && Shape(cfg, Next(cfg, s, a)) && c < cfg.ports
    requires a.Dispatch? && s.d.NetPut?
    ensures QueueStep(cfg, s, a, Next(cfg, s, a), c)
  {
    NothingJoins(s.tskq[c]);
  }

  lemma PreemptStep(cfg: Config, s: State, a: Action, c: nat)
    requires Enabled(cfg, s, a) && Shape(cfg, s) && Shape(cfg, Next(cfg, s, a)) && c < cfg.ports
    requires a.Dispatch? && s.d.PreemptEnqueue? && Answers(s.w[s.d.i])
    ensures QueueStep(cfg, s, a, Next(cfg, s, a), c)
  {
    NothingJoins(s.tskq[c]);
  }

  lemma StepOrder(cfg: Config, s: State, a: Action, c: nat)
    requires Inv(cfg, s) && Enabled(cfg, s, a) && c < cfg.ports
    ensures Shape(cfg, s) && Shape(cfg, Next(cfg, s, a)) && QueueStep(cfg, s, a, Next(cfg, s, a), c)
  {
    StepKeepsInv(cfg, s, a);
    if a.Dispatch? && s.d.Dequeue? {
      DequeueStep(cfg, s, a, c);
    } else if a.Dispatch? && s.d.NetPut? {
      PutStep(cfg, s, a, c);
    } else if a.Dispatch? && s.d.PreemptEnqueue? {
      assert WorkerOk(cfg, s.d, s.w[s.d.i], s.d.i);
      PreemptStep(cfg, s, a, c);
    } else {
      QuietStep(cfg, s, a, c);
    }
  }

  // ----- Over a run -----

  /** The tasks the dispatcher takes out of queue `c` during a run, in that order. */
  ghost function Dequeued(cfg: Config, s: State, run: seq<Action>, c: nat): seq<Task>
    decreases |run|
  {
    if |run| == 0 || !Enabled(cfg, s, run[0]) then []
    else Out(cfg, s, run[0], c) + Dequeued(cfg, Next(cfg, s, run[0]), run[1..], c)
  }

  /** The new requests for queue `c` during a run, in the order of their arrival there. */
  ghost function Arrived(cfg: Config, s: State, run: seq<Action>, c: nat): seq<Task>
    decreases |run|
  {
    if |run| == 0 || !Enabled(cfg, s, run[0]) then []
    else Arrives(cfg, s, run[0], c) + Arrived(cfg, Next(cfg, s, run[0]), run[1..], c)
  }

  /** New requests and preempted tasks for queue `c`, in the order in which they come there. */
  ghost function Came(cfg: Config, s: State, run: seq<Action>, c: nat): seq<Task>
    decreases |run|
  {
    if |run| == 0 || !Enabled(cfg, s, run[0]) then []
    else (Arrives(cfg, s, run[0], c) + Returns(cfg, s, run[0], c)) + Came(cfg, Next(cfg, s, run[0]), run[1..], c)
  }

  /** No task goes to the head of queue `c`. */
  ghost predicate NoneToHead(cfg: Config, s: State, run: seq<Action>, c: nat)
    decreases |run|
  {
    |run| == 0 || !Enabled(cfg, s, run[0]) || c >= |cfg.headFirst| ||
      ((cfg.headFirst[c] ==> Returns(cfg, s, run[0], c) == []) && NoneToHead(cfg, Next(cfg, s, run[0]), run[1..], c))
  }

  /** Queue in, queue out, for one step and what follows. */
  lemma Chained(o: seq<Task>, os: seq<Task>, q: seq<Task>, q': seq<Task>, q'': seq<Task>, j: seq<Task>, js: seq<Task>)
    requires o + q' == q + j && os + q'' == q' + js
    ensures (o + os) + q'' == q + (j + js)
  {
    Grouped(o, os, q'');
    Grouped(o, q', js);
    Grouped(q, j, js);
  }

  lemma Grouped(x: seq<Task>, y: seq<Task>, z: seq<Task>)
    ensures (x + y) + z == x + (y + z)
  {
  }

  /** First in, first out: what was queued, followed by what came, is what was taken out, followed by what is queued;
      in every run for a queue that takes preempted tasks at its tail, and otherwise as long as none is preempted. */
  lemma {:induction false} FirstInFirstOut(cfg: Config, s: State, run: seq<Action>, t: State, c: nat)
    requires Inv(cfg, s) && RunsTo(cfg, s, run, t) && c < cfg.ports && NoneToHead(cfg, s, run, c)
    ensures Shape(cfg, s) && Shape(cfg, t)
    ensures Dequeued(cfg, s, run, c) + t.tskq[c] == s.tskq[c] + Came(cfg, s, run, c)
    decreases |run|
  {
    if |run| > 0 {
      var u := Next(cfg, s, run[0]);
      StepKeepsInv(cfg, s, run[0]);
      StepOrder(cfg, s, run[0], c);
      FirstInFirstOut(cfg, u, run[1..], t, c);
      Chained(Out(cfg, s, run[0], c), Dequeued(cfg, u, run[1..], c), s.tskq[c], u.tskq[c], t.tskq[c],
              Arrives(cfg, s, run[0], c) + Returns(cfg, s, run[0], c), Came(cfg, u, run[1..], c));
    }
  }

  lemma {:induction false} TailOnly(cfg: Config, s: State, run: seq<Action>, c: nat)
    requires c < |cfg.headFirst| && !cfg.headFirst[c]
    ensures NoneToHead(cfg, s, run, c)
    decreases |run|
  {
    if |run| > 0 && Enabled(cfg, s, run[0]) { TailOnly(cfg, Next(cfg, s, run[0]), run[1..], c); }
  }

  /** A queue that takes preempted tasks at its tail: all tasks are dispatched in the order in which they came. */
  lemma DispatchedInOrder(cfg: Config, s: State, run: seq<Action>, t: State, c: nat)
    requires Reachable(cfg, s) && RunsTo(cfg, s, run, t) && c < cfg.ports
    ensures Shape(cfg, s) && Shape(cfg, t)
    ensures !cfg.headFirst[c] ==> Dequeued(cfg, s, run, c) + t.tskq[c] == s.tskq[c] + Came(cfg, s, run, c)
  {
    ReachableInv(cfg, s);
    RunKeepsInv(cfg, s, run, t);
    if !cfg.headFirst[c] {
      TailOnly(cfg, s, run, c);
      FirstInFirstOut(cfg, s, run, t, c);
    }
  }

  // ----- New requests, in any queue -----

  function Packets(q: seq<Task>): seq<Task>
  {
    if q == [] then [] else (if q[0].category.Packet? then [q[0]] else []) + Packets(q[1..])
  }

  lemma PacketsStep(p: seq<Task>, q: seq<Task>)
    requires p != []
    ensures Packets(p) == (if p[0].category.Packet? then [p[0]] else []) + Packets(p[1..])
    ensures Packets(p + q) == (if p[0].category.Packet? then [p[0]] else []) + Packets(p[1..] + q)
  {
    assert (p + q)[0] == p[0] && (p + q)[1..] == p[1..] + q;
  }

  lemma {:induction false} PacketsJoined(p: seq<Task>, q: seq<Task>)
    ensures Packets(p + q) == Packets(p) + Packets(q)
    decreases |p|
  {
    if p == [] {
      assert p + q == q;
    } else {
      PacketsJoined(p[1..], q);
      PacketsStep(p, q);
      Grouped(if p[0].category.Packet? then [p[0]] else [], Packets(p[1..]), Packets(q));
    }
  }

  lemma StepPackets(cfg: Config, s: State, a: Action, t: State, c: nat)
    requires Enabled(cfg, s, a) && Shape(cfg, s) && Shape(cfg, t) && c < cfg.ports && QueueStep(cfg, s, a, t, c)
    ensures Packets(Out(cfg, s, a, c)) + Packets(t.tskq[c]) == Packets(s.tskq[c]) + Arrives(cfg, s, a, c)
  {
    var o, j, r := Out(cfg, s, a, c), Arrives(cfg, s, a, c), Returns(cfg, s, a, c);
    assert Packets(r) == [] && Packets(j) == j;
    if cfg.headFirst[c] && r != [] {
      PacketsJoined(r, s.tskq[c]);
    } else {
      PacketsJoined(o, t.tskq[c]);
      PacketsJoined(j, r);
      PacketsJoined(s.tskq[c], j + r);
    }
  }

  lemma {:induction false} PacketsOverRun(cfg: Config, s: State, run: seq<Action>, t: State, c: nat)
    requires Inv(cfg, s) && RunsTo(cfg, s, run, t) && c < cfg.ports
    ensures Shape(cfg, s) && Shape(cfg, t)
    ensures Packets(Dequeued(cfg, s, run, c)) + Packets(t.tskq[c]) == Packets(s.tskq[c]) + Arrived(cfg, s, run, c)
    decreases |run|
  {
    if |run| > 0 {
      var u := Next(cfg, s, run[0]);
      StepKeepsInv(cfg, s, run[0]);
      StepOrder(cfg, s, run[0], c);
      StepPackets(cfg, s, run[0], u, c);
      PacketsOverRun(cfg, u, run[1..], t, c);
      var o, os := Out(cfg, s, run[0], c), Dequeued(cfg, u, run[1..], c);
      PacketsJoined(o, os);
      Chained(Packets(o), Packets(os), Packets(s.tskq[c]), Packets(u.tskq[c]), Packets(t.tskq[c]),
              Arrives(cfg, s, run[0], c), Arrived(cfg, u, run[1..], c));
    }
  }

  /** New requests are dispatched from a queue in the order in which they came to it, whatever is preempted in between
      and wherever preempted tasks go. */
  lemma RequestsInOrder(cfg: Config, s: State, run: seq<Action>, t: State, c: nat)
    requires Reachable(cfg, s) && RunsTo(cfg, s, run, t) && c < cfg.ports
    ensures Shape(cfg, s) && Shape(cfg, t)
    ensures Packets(Dequeued(cfg, s, run, c)) + Packets(t.tskq[c]) == Packets(s.tskq[c]) + Arrived(cfg, s, run, c)
  {
    ReachableInv(cfg, s);
    PacketsOverRun(cfg, s, run, t, c);
  }

  // ----- Preempted tasks -----

  /** Where it goes. */
  lemma PreemptedGoes(cfg: Config, s: State, a: Action, i: nat)
    requires Reachable(cfg, s) && s.d == PreemptEnqueue(i) && a.Dispatch? && Enabled(cfg, s, a)
    ensures var c, u := s.w[i].response.port, Next(cfg, s, a);
            && Inv(cfg, u) && Shape(cfg, s) && Shape(cfg, u) && c == s.w[i].slot.port < cfg.ports
            && u.tskq[c] == if cfg.headFirst[c] then [Task.Task(s.w[i].slot.req, c, Context)] + s.tskq[c]
                            else s.tskq[c] + [Task.Task(s.w[i].slot.req, c, Context)]
  {
    ReachableInv(cfg, s);
    StepKeepsInv(cfg, s, a);
    assert WorkerOk(cfg, s.d, s.w[i], i);
    StepOrder(cfg, s, a, s.w[i].response.port);
  }

  lemma HeadIs(d: seq<Task>, q: seq<Task>, q': seq<Task>, x: Task, p: seq<Task>, came: seq<Task>)
    requires d + q == q' + came && q' == [x] + p
    ensures d + q == [x] + p + came && if d != [] then d[0] == x else q != [] && q[0] == x
  {
    assert (d + q)[0] == x;
  }

  /** A preempted task of a queue that takes such tasks at its head is the next one to be taken from there, unless
      another one is preempted first; then all that were there follow, before any that come. */
  lemma PreemptedNext(cfg: Config, s: State, a: Action, run: seq<Action>, t: State, i: nat)
    requires Reachable(cfg, s) && s.d == PreemptEnqueue(i) && a.Dispatch? && Enabled(cfg, s, a)
    requires cfg.headFirst[s.w[i].response.port]
    requires RunsTo(cfg, Next(cfg, s, a), run, t) && NoneToHead(cfg, Next(cfg, s, a), run, s.w[i].response.port)
    ensures var c, u := s.w[i].response.port, Next(cfg, s, a);
            var x, taken := Task.Task(s.w[i].slot.req, c, Context), Dequeued(cfg, u, run, c);
            && c == s.w[i].slot.port && c < |s.tskq| && c < |t.tskq|
            && taken + t.tskq[c] == [x] + s.tskq[c] + Came(cfg, u, run, c)
            && (if taken != [] then taken[0] == x else t.tskq[c] != [] && t.tskq[c][0] == x)
  {
    var c, u := s.w[i].response.port, Next(cfg, s, a);
    PreemptedGoes(cfg, s, a, i);
    FirstInFirstOut(cfg, u, run, t, c);
    HeadIs(Dequeued(cfg, u, run, c), t.tskq[c], u.tskq[c], Task.Task(s.w[i].slot.req, c, Context), s.tskq[c],
           Came(cfg, u, run, c));
  }

  /** One of any other queue comes after all that were there, and before all that come later. */
  lemma PreemptedLast(cfg: Config, s: State, a: Action, run: seq<Action>, t: State, i: nat)
    requires Reachable(cfg, s) && s.d == PreemptEnqueue(i) && a.Dispatch? && Enabled(cfg, s, a)
    requires !cfg.headFirst[s.w[i].response.port]
    requires RunsTo(cfg, Next(cfg, s, a), run, t)
    ensures var c, u := s.w[i].response.port, Next(cfg, s, a);
            && c == s.w[i].slot.port && c < |s.tskq| && c < |t.tskq|
            && Dequeued(cfg, u, run, c) + t.tskq[c] ==
               s.tskq[c] + [Task.Task(s.w[i].slot.req, c, Context)] + Came(cfg, u, run, c)
  {
    var c, u := s.w[i].response.port, Next(cfg, s, a);
    PreemptedGoes(cfg, s, a, i);
    TailOnly(cfg, u, run, c);
    FirstInFirstOut(cfg, u, run, t, c);
  }
}
