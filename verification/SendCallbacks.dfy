/**
  When an application's callback may run, over whole runs: what it waits for is what was accepted when it was
  registered, whatever is sent, taken and acknowledged afterwards.
 */
module SendCallbacks {
  import opened Widths
  import opened Wrappers
  import opened SendQueue
  import opened SendState
  import opened Ixev
  import opened SendRuns
  import opened SendOrder

  // ----- What a send leaves alone -----

  lemma {:induction false} ColdKeepsUsers(v: View, data: seq<Byte>)
    requires Storage(v) && |v.stream| + |data| <= v.sent + WINDOW
    ensures Cold(v, data).userPos == v.userPos
    decreases |data|
  {
    if data != [] && |v.es| < DEPTH && v.pool != [] {
      var n := Min(|data|, BUF_SIZE);
      OpenedStorage(v, data[..n]);
      ColdKeepsUsers(Opened(v, data[..n]), data[n..]);
    }
  }

  lemma SentKeepsUsers(v: View, data: seq<Byte>)
    requires Storage(v)
    ensures Sent(v, data).userPos == v.userPos
  {
    var d := data[..Window(v, |data|)];
    if d != [] {
      HotStorage(v, d);
      ColdKeepsUsers(Hot(v, d), d[Min(|d|, HotRoom(v))..]);
    }
  }

  /** The references a send appends are those of buffers. */
  lemma {:induction false} ColdAddsBuffers(v: View, data: seq<Byte>, u: nat)
    requires Storage(v) && |v.stream| + |data| <= v.sent + WINDOW
    ensures OfUser(u) in Cold(v, data).refs <==> OfUser(u) in v.refs
    decreases |data|
  {
    if data != [] && |v.es| < DEPTH && v.pool != [] {
      var n := Min(|data|, BUF_SIZE);
      OpenedStorage(v, data[..n]);
      ColdAddsBuffers(Opened(v, data[..n]), data[n..], u);
    }
  }

  lemma SentAddsBuffers(v: View, data: seq<Byte>, u: nat)
    requires Storage(v)
    ensures OfUser(u) in Sent(v, data).refs <==> OfUser(u) in v.refs
  {
    var d := data[..Window(v, |data|)];
    if d != [] {
      HotStorage(v, d);
      ColdAddsBuffers(Hot(v, d), d[Min(|d|, HotRoom(v))..], u);
    }
  }

  // ----- One event -----

  /** Callback `u` is not run before byte `pos` is acknowledged. */
  ghost predicate Held(c: Conn, u: nat, pos: nat)
  {
    && pos <= |c.accepted|
    && if OfUser(u) in c.view.refs then u in c.view.userPos && pos <= c.view.userPos[u] else pos <= c.view.sent
  }

  /** Callback `u` is on the list, for byte `pos`. */
  ghost predicate Waits(c: Conn, u: nat, pos: nat)
  {
    OfUser(u) in c.view.refs && u in c.view.userPos && c.view.userPos[u] == pos
  }

  lemma AddedWaits(c: Conn, u: nat)
    requires Good(c) && Storage(c.view) && Possible(c, AddCallback(u))
    ensures Waits(After(c, AddCallback(u)), u, |c.accepted|)
    ensures After(c, AddCallback(u)).view.sent == c.view.sent
    ensures Held(After(c, AddCallback(u)), u, |c.accepted|)
  {
  }

  /** What an acknowledgement leaves on the list was there. */
  lemma AcknowledgedWas(v: View, len: nat, r: Ref)
    requires r in Acknowledged(v, len).refs
    ensures r in v.refs
  {
  }

  lemma AckHolds(c: Conn, len: nat, u: nat, pos: nat)
    requires Good(c) && Storage(c.view) && Possible(c, PeerAcks(len)) && Held(c, u, pos)
    ensures Held(After(c, PeerAcks(len)), u, pos)
  {
    var t := Acknowledged(c.view, len);
    if OfUser(u) in t.refs {
      AcknowledgedWas(c.view, len, OfUser(u));
    } else if OfUser(u) in c.view.refs {
      GoneWasDue(c.view, len, OfUser(u));
    }
  }

  /** Every event keeps that. */
  lemma EventHolds(c: Conn, e: Event, u: nat, pos: nat)
    requires Good(c) && Storage(c.view) && Possible(c, e) && Held(c, u, pos)
    ensures Held(After(c, e), u, pos)
  {
    EventExtends(c, e);
    match e
    case SendCopy(data) =>
      SentKeepsUsers(c.view, data);
      SentKeepsRest(c.view, data);
      SentAddsBuffers(c.view, data, u);
    case SendInPlace(w, off, len) =>
    case KernelAnswers(ret) =>
    case PeerAcks(len) => AckHolds(c, len, u, pos);
    case AddCallback(w) =>
  }

  lemma {:induction false} RunHolds(c: Conn, events: seq<Event>, c': Conn, u: nat, pos: nat)
    requires Good(c) && Run(c, events, c') && Held(c, u, pos)
    ensures Held(c', u, pos)
    decreases |events|
  {
    if events != [] {
      SoundStorage(c.view);
      EventKeeps(c, events[0]);
      EventHolds(c, events[0], u, pos);
      RunHolds(After(c, events[0]), events[1..], c', u, pos);
    }
  }

  /** In every run from its registration on, a callback is on the list until everything accepted at its registration
      is acknowledged, and what takes it off the list is an acknowledgement. */
  lemma CallbackNotEarly(c: Conn, u: nat, events: seq<Event>, d: Conn, e: Event)
    requires Good(c) && Storage(c.view) && Possible(c, AddCallback(u)) && Good(After(c, AddCallback(u)))
    requires Run(After(c, AddCallback(u)), events, d)
    ensures Good(d) && Storage(d.view) && (OfUser(u) in d.view.refs || |c.accepted| <= d.view.sent)
    ensures Possible(d, e) && OfUser(u) in d.view.refs && OfUser(u) !in After(d, e).view.refs ==>
              e.PeerAcks? && |c.accepted| <= After(d, e).view.sent
  {
    AddedWaits(c, u);
    RunHolds(After(c, AddCallback(u)), events, d, u, |c.accepted|);
    RunKeeps(After(c, AddCallback(u)), events, d);
    SoundStorage(d.view);
    if Possible(d, e) && OfUser(u) in d.view.refs && OfUser(u) !in After(d, e).view.refs {
      LeavesHeld(d, e, u, |c.accepted|);
    }
  }

  lemma LeavesHeld(c: Conn, e: Event, u: nat, pos: nat)
    requires Good(c) && Storage(c.view) && Possible(c, e) && Held(c, u, pos)
    requires OfUser(u) in c.view.refs && OfUser(u) !in After(c, e).view.refs
    ensures e.PeerAcks? && pos <= After(c, e).view.sent
  {
    EventHolds(c, e, u, pos);
    if !e.PeerAcks? { OnlyAcksRemove(c, e, u); }
  }

  lemma OnlyAcksRemove(c: Conn, e: Event, u: nat)
    requires Good(c) && Storage(c.view) && Possible(c, e) && !e.PeerAcks? && OfUser(u) in c.view.refs
    ensures OfUser(u) in After(c, e).view.refs
  {
    if e.SendCopy? { SentAddsBuffers(c.view, e.data, u); }
  }

  // ----- Exactly when -----

  /** The byte a reference waits for. */
  function Position(v: View, r: Ref): Option<nat>
  {
    match r
    case OfBuf(b) => if b in v.bufs then Some(v.bufs[b].sendPos) else None
    case OfUser(u) => if u in v.userPos then Some(v.userPos[u]) else None
  }

  /** With the list in order an acknowledgement takes off the list exactly what waited for no later byte. */
  lemma AckExactly(c: Conn, len: nat, r: Ref)
    requires Good(c) && Storage(c.view) && Possible(c, PeerAcks(len)) && Ordered(c.view) && r in c.view.refs
    ensures Position(c.view, r).Some?
    ensures r in After(c, PeerAcks(len)).view.refs <==> c.view.sent + len < Position(c.view, r).value
  {
    StaysExactly(c.view, len, r);
  }

  lemma StaysExactly(v: View, len: nat, r: Ref)
    requires RefsOk(v) && Ordered(v) && r in v.refs
    ensures Position(v, r).Some?
    ensures r in Acknowledged(v, len).refs <==> v.sent + len < Position(v, r).value
  {
    HeldRef(v, r);
    if v.sent + len < Position(v, r).value {
      LateStays(v, len, r);
    } else if r in Acknowledged(v, len).refs {
      LeftIsLate(v, len, r);
    }
  }

  lemma LeftIsLate(v: View, len: nat, r: Ref)
    requires Ordered(v) && r in Acknowledged(v, len).refs
    ensures v.sent + len < Due(v.bufs, v.userPos, r)
  {
    var n := DueCount(v.bufs, v.userPos, v.refs, v.sent + len);
    OrderDecides(v);
    assert RunsAll(v, v.sent + len);
    var k :| 0 <= k < |v.refs[n..]| && v.refs[n..][k] == r;
    assert v.refs[n + k] == r && v.sent + len < DueAt(v, n + k);
  }

  /** Some acknowledgement of the run, which begins with `sent` acknowledged, reaches byte `pos`. */
  ghost predicate Reached(sent: nat, events: seq<Event>, pos: nat)
    decreases |events|
  {
    && events != []
    && var after := if events[0].PeerAcks? then sent + events[0].len else sent;
       (events[0].PeerAcks? && pos <= after) || Reached(after, events[1..], pos)
  }

  ghost predicate NotAgain(events: seq<Event>, u: nat)
  {
    forall i :: 0 <= i < |events| ==> events[i] != AddCallback(u)
  }

  lemma EventWaits(c: Conn, e: Event, u: nat, pos: nat)
    requires Good(c) && Storage(c.view) && Possible(c, e) && Ordered(c.view) && Waits(c, u, pos)
    ensures After(c, e).view.sent == if e.PeerAcks? then c.view.sent + e.len else c.view.sent
    ensures if e.PeerAcks? && pos <= After(c, e).view.sent then OfUser(u) !in After(c, e).view.refs
            else Waits(After(c, e), u, pos)
  {
    match e
    case SendCopy(data) =>
      SentKeepsUsers(c.view, data);
      SentKeepsRest(c.view, data);
      SentAddsBuffers(c.view, data, u);
    case SendInPlace(w, off, len) =>
    case KernelAnswers(ret) =>
    case PeerAcks(len) => AckExactly(c, len, OfUser(u));
    case AddCallback(w) =>
  }

  /** What has left the list does not come back by itself. */
  lemma {:induction false} StaysAway(c: Conn, events: seq<Event>, c': Conn, u: nat)
    requires Good(c) && Run(c, events, c') && NotAgain(events, u) && OfUser(u) !in c.view.refs
    ensures OfUser(u) !in c'.view.refs
    decreases |events|
  {
    if events != [] {
      SoundStorage(c.view);
      EventKeeps(c, events[0]);
      var d := After(c, events[0]);
      if events[0].SendCopy? { SentAddsBuffers(c.view, events[0].data, u); }
      assert events[0] != AddCallback(u);
      assert OfUser(u) !in d.view.refs;
      NotAgainRest(events, u);
      StaysAway(d, events[1..], c', u);
    }
  }

  lemma NotAgainRest(events: seq<Event>, u: nat)
    requires events != [] && NotAgain(events, u)
    ensures NotAgain(events[1..], u)
  {
  }

  lemma RunStep(c: Conn, events: seq<Event>, c': Conn)
    requires Good(c) && Run(c, events, c') && Ordered(c.view) && NeverOvertakes(c, events) && events != []
    ensures Storage(c.view) && Possible(c, events[0])
    ensures var d := After(c, events[0]);
            Good(d) && Run(d, events[1..], c') && Ordered(d.view) && NeverOvertakes(d, events[1..])
  {
    SoundStorage(c.view);
    EventKeeps(c, events[0]);
    EventOrder(c, events[0]);
  }

  /** A run in which callback `u` waits, and is not registered again. */
  ghost predicate Waiting(c: Conn, events: seq<Event>, c': Conn, u: nat, pos: nat)
  {
    && Good(c) && Run(c, events, c') && Ordered(c.view) && NeverOvertakes(c, events)
    && NotAgain(events, u) && Waits(c, u, pos)
  }

  lemma {:induction false} RunWaits(c: Conn, events: seq<Event>, c': Conn, u: nat, pos: nat)
    requires Waiting(c, events, c', u, pos)
    ensures OfUser(u) in c'.view.refs <==> !Reached(c.view.sent, events, pos)
    decreases |events|
  {
    if events != [] {
      WaitingStep(c, events, c', u, pos);
      if Waits(After(c, events[0]), u, pos) { RunWaits(After(c, events[0]), events[1..], c', u, pos); }
    } else {
      assert c' == c;
    }
  }

  lemma WaitingStep(c: Conn, events: seq<Event>, c': Conn, u: nat, pos: nat)
    requires Waiting(c, events, c', u, pos) && events != []
    ensures Storage(c.view) && Possible(c, events[0])
    ensures var e, d := events[0], After(c, events[0]);
            && d.view.sent == (if e.PeerAcks? then c.view.sent + e.len else c.view.sent)
            && if e.PeerAcks? && pos <= d.view.sent then !Waits(d, u, pos) && OfUser(u) !in c'.view.refs
               else Waiting(d, events[1..], c', u, pos)
  {
    RunStep(c, events, c');
    EventWaits(c, events[0], u, pos);
    NotAgainRest(events, u);
    if OfUser(u) !in After(c, events[0]).view.refs { StaysAway(After(c, events[0]), events[1..], c', u); }
  }

  /** In a run that does not overtake, a callback runs at the first acknowledgement, after its registration, that
      covers all that was accepted when it was registered, and at no other time. */
  lemma CallbackExactly(c: Conn, u: nat, events: seq<Event>, d: Conn)
    requires Good(c) && Storage(c.view) && Possible(c, AddCallback(u)) && Good(After(c, AddCallback(u)))
    requires Ordered(c.view) && NotAgain(events, u) && NeverOvertakes(After(c, AddCallback(u)), events)
    requires Run(After(c, AddCallback(u)), events, d)
    ensures OfUser(u) in d.view.refs <==> !Reached(c.view.sent, events, |c.accepted|)
  {
    AddedWaits(c, u);
    EventOrder(c, AddCallback(u));
    RunWaits(After(c, AddCallback(u)), events, d, u, |c.accepted|);
  }
}
