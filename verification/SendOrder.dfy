/**
  When callbacks run: ixev_tcp_sent stops at the first reference that is not due. A copy buffer's position moves when
  bytes are appended to it, past callbacks that stand behind it on the list.
 */
module SendOrder {
  import opened Widths
  import opened SendQueue
  import opened SendState
  import opened Ixev
  import opened SendRuns

  function DueAt(v: View, i: nat): nat
    requires i < |v.refs|
  {
    Due(v.bufs, v.userPos, v.refs[i])
  }

  /** The list is in order of send_pos. */
  ghost predicate Ordered(v: View)
  {
    forall i, j :: 0 <= i < j < |v.refs| ==> DueAt(v, i) <= DueAt(v, j)
  }

  /** An acknowledgement up to byte `total` leaves no reference on the list that is due. */
  ghost predicate RunsAll(v: View, total: nat)
  {
    forall i :: DueCount(v.bufs, v.userPos, v.refs, total) <= i < |v.refs| ==> total < DueAt(v, i)
  }

  /** A due reference stands behind one that is not. */
  ghost predicate Blocked(v: View, total: nat)
  {
    exists i, j :: 0 <= i < j < |v.refs| && DueAt(v, j) <= total < DueAt(v, i)
  }

  /** An acknowledgement runs every callback that is due exactly when none is blocked. */
  lemma RunsAllExactly(v: View, total: nat)
    ensures RunsAll(v, total) <==> !Blocked(v, total)
  {
    var n := DueCount(v.bufs, v.userPos, v.refs, total);
    DueCountMeans(v.bufs, v.userPos, v.refs, total);
    if !RunsAll(v, total) {
      var i :| n <= i < |v.refs| && DueAt(v, i) <= total;
      assert n < |v.refs| && total < DueAt(v, n);
      assert n < i;
    }
  }

  /** Every acknowledgement there could be runs every callback that is due exactly when the list is in order. */
  lemma OrderDecides(v: View)
    ensures Ordered(v) <==> forall total: nat :: RunsAll(v, total)
  {
    if Ordered(v) {
      forall total: nat
        ensures RunsAll(v, total)
      {
        RunsAllExactly(v, total);
      }
    } else {
      var i, j :| 0 <= i < j < |v.refs| && DueAt(v, j) < DueAt(v, i);
      RunsAllExactly(v, DueAt(v, j));
      assert Blocked(v, DueAt(v, j));
    }
  }

  // ----- One event -----

  /** Bytes would go to the cached buffer, and a reference stands behind it. */
  ghost predicate Followed(v: View)
    requires Storage(v)
  {
    v.es != [] && v.cur.CurBuf? && 0 < HotRoom(v) && v.refs != [] && v.refs[|v.refs| - 1] != OfBuf(v.cur.id)
  }

  /** A send that appends at least a byte to the cached buffer while a reference stands behind it. */
  ghost predicate Overtakes(v: View, data: seq<Byte>)
    requires Storage(v)
  {
    0 < Window(v, |data|) && Followed(v)
  }

  /** Positions on the list lie within what was accepted. */
  lemma DueWithin(v: View, i: nat)
    requires RefsOk(v) && i < |v.refs|
    ensures DueAt(v, i) <= |v.stream|
  {
    assert RefOk(v, v.refs[i]);
  }

  /** A list with one more reference that is due at the end of the stream, or later. */
  lemma OneMoreRef(v: View, t: View)
    requires |t.refs| == |v.refs| + 1 && forall i :: 0 <= i < |v.refs| ==>
               DueAt(t, i) == DueAt(v, i) <= DueAt(t, |v.refs|)
    ensures Ordered(t) <==> Ordered(v)
  {
    if Ordered(t) {
      forall i, j | 0 <= i < j < |v.refs|
        ensures DueAt(v, i) <= DueAt(v, j)
      {
        assert DueAt(t, i) <= DueAt(t, j);
      }
    }
  }

  lemma OpenedOrder(v: View, data: seq<Byte>)
    requires Sound(v) && CanOpen(v, data)
    ensures Ordered(Opened(v, data)) <==> Ordered(v)
  {
    var t := Opened(v, data);
    forall i | 0 <= i < |v.refs|
      ensures DueAt(t, i) == DueAt(v, i) <= DueAt(t, |v.refs|)
    {
      DueWithin(v, i);
      assert v.refs[i] in v.refs;
    }
    OneMoreRef(v, t);
  }

  lemma {:induction false} ColdOrder(v: View, data: seq<Byte>)
    requires Sound(v) && Storage(v) && |v.stream| + |data| <= v.sent + WINDOW
    ensures Ordered(Cold(v, data)) <==> Ordered(v)
    decreases |data|
  {
    if data != [] && |v.es| < DEPTH && v.pool != [] {
      var n := Min(|data|, BUF_SIZE);
      OpenedStorage(v, data[..n]);
      OpenedSound(v, data[..n]);
      OpenedOrder(v, data[..n]);
      ColdOrder(Opened(v, data[..n]), data[n..]);
    } else {
      SameDues(v, Cold(v, data));
    }
  }

  lemma SameDues(v: View, t: View)
    requires t.refs == v.refs && t.bufs == v.bufs && t.userPos == v.userPos
    ensures Ordered(t) <==> Ordered(v)
  {
    if Ordered(v) {
      forall i, j | 0 <= i < j < |t.refs|
        ensures DueAt(t, i) <= DueAt(t, j)
      {
        assert DueAt(v, i) <= DueAt(v, j);
      }
    }
    if Ordered(t) {
      forall i, j | 0 <= i < j < |v.refs|
        ensures DueAt(v, i) <= DueAt(v, j)
      {
        assert DueAt(t, i) <= DueAt(t, j);
      }
    }
  }

  lemma AppendedDue(v: View, data: seq<Byte>, i: nat)
    requires Sound(v) && CanAppend(v, data) && i < |v.refs|
    ensures DueAt(Appended(v, data), i) == if v.refs[i] == OfBuf(v.cur.id) then |v.stream| + |data| else DueAt(v, i)
    ensures DueAt(v, i) <= |v.stream|
  {
    DueWithin(v, i);
  }

  /** Where the cached buffer's reference is. */
  lemma CurrentAt(v: View) returns (k: nat)
    requires Sound(v) && v.cur.CurBuf?
    ensures k < |v.refs| && v.refs[k] == OfBuf(v.cur.id) && forall i :: 0 <= i < |v.refs| && i != k ==>
              v.refs[i] != v.refs[k]
    ensures v.refs[|v.refs| - 1] == OfBuf(v.cur.id) <==> k == |v.refs| - 1
  {
    k :| 0 <= k < |v.refs| && v.refs[k] == OfBuf(v.cur.id);
  }

  /** Appending keeps the order exactly when nothing stands behind the buffer. */
  lemma AppendedOrder(v: View, data: seq<Byte>)
    requires Sound(v) && CanAppend(v, data) && data != [] && Ordered(v)
    ensures v.refs != [] && (Ordered(Appended(v, data)) <==> v.refs[|v.refs| - 1] == OfBuf(v.cur.id))
  {
    var t := Appended(v, data);
    var k := CurrentAt(v);
    var last := |v.refs| - 1;
    AppendedDue(v, data, k);
    AppendedDue(v, data, last);
    if k == last {
      forall i, j | 0 <= i < j < |t.refs|
        ensures DueAt(t, i) <= DueAt(t, j)
      {
        AppendedDue(v, data, i);
        AppendedDue(v, data, j);
        assert DueAt(v, i) <= DueAt(v, j);
      }
    } else {
      assert DueAt(t, last) < DueAt(t, k);
    }
  }

  lemma AppendedNothing(v: View)
    requires Sound(v) && CanAppend(v, [])
    ensures Ordered(Appended(v, [])) <==> Ordered(v)
  {
    var t := Appended(v, []);
    forall i | 0 <= i < |v.refs|
      ensures DueAt(t, i) == DueAt(v, i)
    {
      AppendedDue(v, [], i);
    }
    SameOrder(v, t);
  }

  lemma SameOrder(v: View, t: View)
    requires |t.refs| == |v.refs| && forall i :: 0 <= i < |v.refs| ==> DueAt(t, i) == DueAt(v, i)
    ensures Ordered(t) <==> Ordered(v)
  {
    if Ordered(t) {
      forall i, j | 0 <= i < j < |v.refs|
        ensures DueAt(v, i) <= DueAt(v, j)
      {
        assert DueAt(t, i) <= DueAt(t, j);
      }
    }
  }

  /** ixev_send keeps the order exactly when it does not overtake. */
  lemma SentOrder(v: View, data: seq<Byte>)
    requires Sound(v) && Storage(v) && Ordered(v)
    ensures Ordered(Sent(v, data)) <==> !Overtakes(v, data)
  {
    var d := data[..Window(v, |data|)];
    if d != [] {
      HotKeeps(v, d);
      HotOrder(v, d);
      var t, rest := Hot(v, d), d[Min(|d|, HotRoom(v))..];
      ColdOrder(t, rest);
      assert Sent(v, data) == Cold(t, rest);
    } else {
      assert Sent(v, data) == v;
    }
  }

  lemma HotKeeps(v: View, d: seq<Byte>)
    requires Sound(v) && Storage(v) && |v.stream| + |d| <= v.sent + WINDOW
    ensures Sound(Hot(v, d)) && Storage(Hot(v, d))
    ensures |Hot(v, d).stream| == |v.stream| + Min(|d|, HotRoom(v)) && Hot(v, d).sent == v.sent
  {
    HotStorage(v, d);
    if v.es != [] && v.cur.CurBuf? { AppendedSound(v, d[..Min(|d|, HotRoom(v))]); }
  }

  /** The hot path with some data. */
  lemma HotOrder(v: View, d: seq<Byte>)
    requires Sound(v) && Storage(v) && Ordered(v) && d != [] && |v.stream| + |d| <= v.sent + WINDOW
    ensures Ordered(Hot(v, d)) <==> !Followed(v)
  {
    if v.es != [] && v.cur.CurBuf? {
      var part := d[..Min(|d|, HotRoom(v))];
      if 0 < HotRoom(v) { AppendedOrder(v, part); } else { AppendedNothing(v); }
    }
  }

  lemma AcknowledgedOrder(v: View, len: nat)
    requires Ordered(v)
    ensures Ordered(Acknowledged(v, len))
  {
    var t, n := Acknowledged(v, len), DueCount(v.bufs, v.userPos, v.refs, v.sent + len);
    forall i, j | 0 <= i < j < |t.refs|
      ensures DueAt(t, i) <= DueAt(t, j)
    {
      assert DueAt(v, n + i) <= DueAt(v, n + j);
    }
  }

  lemma RegisteredOrder(v: View, u: nat)
    requires Sound(v) && OfUser(u) !in v.refs
    ensures Ordered(Registered(v, u)) <==> Ordered(v)
  {
    var t := Registered(v, u);
    forall i | 0 <= i < |v.refs|
      ensures DueAt(t, i) == DueAt(v, i) <= DueAt(t, |v.refs|)
    {
      DueWithin(v, i);
      assert v.refs[i] in v.refs;
    }
    OneMoreRef(v, t);
  }

  ghost predicate OvertakesIn(c: Conn, e: Event)
    requires Storage(c.view)
  {
    e.SendCopy? && !c.dead && Overtakes(c.view, e.data)
  }

  /** An event keeps the order exactly when it is no send that overtakes. */
  lemma EventOrder(c: Conn, e: Event)
    requires Good(c) && Storage(c.view) && Possible(c, e) && Ordered(c.view)
    ensures Ordered(After(c, e).view) <==> !OvertakesIn(c, e)
  {
    match e
    case SendCopy(data) => SentOrder(c.view, data);
    case SendInPlace(u, off, len) => SameDues(c.view, After(c, e).view);
    case KernelAnswers(ret) => SameDues(c.view, After(c, e).view);
    case PeerAcks(len) => AcknowledgedOrder(c.view, len);
    case AddCallback(u) => RegisteredOrder(c.view, u);
  }

  // ----- Whole runs -----

  ghost predicate AlwaysOrdered(c: Conn, events: seq<Event>)
    requires Good(c)
    decreases |events|
  {
    SoundStorage(c.view);
    && Ordered(c.view)
    && (events != [] && Possible(c, events[0]) ==>
          (EventKeeps(c, events[0]); AlwaysOrdered(After(c, events[0]), events[1..])))
  }

  ghost predicate NeverOvertakes(c: Conn, events: seq<Event>)
    requires Good(c)
    decreases |events|
  {
    SoundStorage(c.view);
    events != [] && Possible(c, events[0]) ==>
      !OvertakesIn(c, events[0]) && (EventKeeps(c, events[0]); NeverOvertakes(After(c, events[0]), events[1..]))
  }

  /** The list stays in order over a run exactly when no send of the run overtakes. */
  lemma {:induction false} OrderOverRun(c: Conn, events: seq<Event>, c': Conn)
    requires Good(c) && Run(c, events, c') && Ordered(c.view)
    ensures AlwaysOrdered(c, events) <==> NeverOvertakes(c, events)
    decreases |events|
  {
    if events != [] {
      SoundStorage(c.view);
      EventKeeps(c, events[0]);
      EventOrder(c, events[0]);
      if Ordered(After(c, events[0]).view) {
        OrderOverRun(After(c, events[0]), events[1..], c');
      }
    }
  }

  /** Every acknowledgement of the run runs every callback that is due then. */
  ghost predicate CallbacksInTime(c: Conn, events: seq<Event>)
    requires Good(c)
    decreases |events|
  {
    SoundStorage(c.view);
    events != [] && Possible(c, events[0]) ==>
      && (events[0].PeerAcks? ==> RunsAll(c.view, c.view.sent + events[0].len))
      && (EventKeeps(c, events[0]); CallbacksInTime(After(c, events[0]), events[1..]))
  }

  /** No callback is late in a run without such a send. */
  lemma {:induction false} InTime(c: Conn, events: seq<Event>, c': Conn)
    requires Good(c) && Run(c, events, c') && Ordered(c.view) && NeverOvertakes(c, events)
    ensures CallbacksInTime(c, events)
    decreases |events|
  {
    if events != [] {
      SoundStorage(c.view);
      EventKeeps(c, events[0]);
      EventOrder(c, events[0]);
      if events[0].PeerAcks? { OrderDecides(c.view); }
      InTime(After(c, events[0]), events[1..], c');
    }
  }

  // ----- A late callback -----

  lemma OneByte(x: Byte)
    ensures [x][..1] == [x] && [x][0..] == [x] && [x][1..] == []
  {
  }

  lemma SendOpens(v: View, x: Byte)
    requires Storage(v) && v.es == [] && v.pool != [] && |v.stream| < v.sent + WINDOW
    ensures CanOpen(v, [x]) && Sent(v, [x]) == Opened(v, [x])
  {
    OneByte(x);
    assert Window(v, 1) == 1 && HotRoom(v) == 0 && Hot(v, [x]) == v;
    ColdTurn(v, [x], 1);
  }

  lemma SendAppends(v: View, x: Byte)
    requires Storage(v) && v.es != [] && v.cur.CurBuf? && v.bufs[v.cur.id].len < BUF_SIZE
             && |v.stream| < v.sent + WINDOW
    ensures CanAppend(v, [x]) && Sent(v, [x]) == Appended(v, [x])
  {
    OneByte(x);
    HotStorage(v, [x]);
    assert Window(v, 1) == 1 && 1 <= HotRoom(v) && Hot(v, [x]) == Appended(v, [x]);
  }

  /** A byte has been accepted into buffer `b`, and nothing sent. */
  ghost predicate Begun(c: Conn, b: nat)
  {
    var v := c.view;
    && Good(c) && Storage(v) && !c.dead && v.cur == CurBuf(b) && b in v.bufs && v.bufs[b].len == 1
    && v.es != [] && |v.stream| == 1 && v.sent == 0 && v.taken == 0
  }

  lemma FirstByte(b: nat, memory: User, x: Byte)
    ensures var c := Conn(Fresh([b], memory), false, [], []);
            && Good(c) && Storage(c.view) && Ordered(c.view)
            && Begun(After(c, SendCopy([x])), b) && After(c, SendCopy([x])).view.refs == [OfBuf(b)]
  {
    var c := Conn(Fresh([b], memory), false, [], []);
    FreshGood([b], memory);
    SoundStorage(c.view);
    SendOpens(c.view, x);
    EventKeeps(c, SendCopy([x]));
    SoundStorage(After(c, SendCopy([x])).view);
  }

  /** A callback stands behind the buffer. */
  ghost predicate Behind(v: View, b: nat, u: nat)
  {
    v.refs == [OfBuf(b), OfUser(u)] && u in v.userPos && v.userPos[u] == 1
  }

  lemma RegisteredBehind(v: View, b: nat, u: nat)
    requires v.refs == [OfBuf(b)] && |v.stream| == 1
    ensures Behind(Registered(v, u), b, u)
  {
  }

  lemma CallbackBehind(c: Conn, b: nat, u: nat)
    requires Begun(c, b) && c.view.refs == [OfBuf(b)]
    ensures Possible(c, AddCallback(u))
    ensures Begun(After(c, AddCallback(u)), b) && Behind(After(c, AddCallback(u)).view, b, u)
  {
    EventKeeps(c, AddCallback(u));
    var d := After(c, AddCallback(u));
    SoundStorage(d.view);
    RegisteredBehind(c.view, b, u);
    assert d == c.(view := Registered(c.view, u));
  }

  lemma SecondByte(c: Conn, b: nat, u: nat, y: Byte)
    requires Begun(c, b) && Behind(c.view, b, u)
    ensures OvertakesIn(c, SendCopy([y]))
    ensures var d := After(c, SendCopy([y]));
            && Good(d) && Storage(d.view) && Behind(d.view, b, u) && !d.dead
            && b in d.view.bufs && d.view.bufs[b].sendPos == 2 && d.view.sent == 0 && d.view.taken == 0
                && Total(d.view.es) == 2
  {
    SendAppends(c.view, y);
    EventKeeps(c, SendCopy([y]));
    SoundStorage(After(c, SendCopy([y])).view);
  }

  lemma BothRead(c: Conn, b: nat, u: nat)
    requires Good(c) && Storage(c.view) && Behind(c.view, b, u) && b in c.view.bufs && c.view.bufs[b].sendPos == 2
    requires c.view.sent == 0 && c.view.taken == 0 && Total(c.view.es) == 2
    ensures Possible(c, KernelAnswers(2))
    ensures var d := After(c, KernelAnswers(2));
            && Good(d) && Storage(d.view) && Behind(d.view, b, u)
            && b in d.view.bufs && d.view.bufs[b].sendPos == 2 && d.view.sent == 0 && d.view.taken == 2
  {
    EventKeeps(c, KernelAnswers(2));
    SoundStorage(After(c, KernelAnswers(2)).view);
  }

  lemma OneAcknowledged(c: Conn, b: nat, u: nat)
    requires Good(c) && Storage(c.view) && Behind(c.view, b, u) && b in c.view.bufs && c.view.bufs[b].sendPos == 2
    requires c.view.sent == 0 && c.view.taken == 2
    ensures Possible(c, PeerAcks(1))
    ensures var d := After(c, PeerAcks(1));
            Good(d) && Behind(d.view, b, u) && d.view.sent == 1
  {
    EventKeeps(c, PeerAcks(1));
    assert DueCount(c.view.bufs, c.view.userPos, c.view.refs, 1) == 0;
  }

  lemma RunMore(c: Conn, e: Event, events: seq<Event>, c': Conn)
    requires Good(c) && Storage(c.view) && Possible(c, e) && Good(After(c, e)) && Run(After(c, e), events, c')
    ensures Run(c, [e] + events, c')
  {
    assert ([e] + events)[1..] == events;
  }

  lemma OvertakesLater(c: Conn, e: Event, events: seq<Event>)
    requires Good(c) && Storage(c.view) && Possible(c, e) && Good(After(c, e))
    requires OvertakesIn(c, e) || !NeverOvertakes(After(c, e), events)
    ensures !NeverOvertakes(c, [e] + events)
  {
    assert ([e] + events)[1..] == events;
  }

  /** One byte, a callback, and one byte more in the same buffer; the kernel reads both, the peer acknowledges one: the
      callback is due, and stays on the list. */
  lemma LateCallback(b: nat, memory: User, u: nat, x: Byte, y: Byte) returns (events: seq<Event>, c': Conn)
    ensures var c := Conn(Fresh([b], memory), false, [], []);
            && Good(c) && Ordered(c.view) && Run(c, events, c') && !NeverOvertakes(c, events)
            && OfUser(u) in c'.view.refs && u in c'.view.userPos && c'.view.userPos[u] <= c'.view.sent
  {
    var c := Conn(Fresh([b], memory), false, [], []);
    var c1 := After(c, SendCopy([x]));
    FirstByte(b, memory, x);
    var c2 := After(c1, AddCallback(u));
    CallbackBehind(c1, b, u);
    var c3 := After(c2, SendCopy([y]));
    SecondByte(c2, b, u, y);
    var c4 := After(c3, KernelAnswers(2));
    BothRead(c3, b, u);
    OneAcknowledged(c4, b, u);
    c' := After(c4, PeerAcks(1));
    RunMore(c4, PeerAcks(1), [], c');
    RunMore(c3, KernelAnswers(2), [PeerAcks(1)] + [], c');
    var rest := [KernelAnswers(2)] + ([PeerAcks(1)] + []);
    RunMore(c2, SendCopy([y]), rest, c');
    OvertakesLater(c2, SendCopy([y]), rest);
    RunMore(c1, AddCallback(u), [SendCopy([y])] + rest, c');
    OvertakesLater(c1, AddCallback(u), [SendCopy([y])] + rest);
    events := [SendCopy([x])] + ([AddCallback(u)] + ([SendCopy([y])] + rest));
    RunMore(c, SendCopy([x]), [AddCallback(u)] + ([SendCopy([y])] + rest), c');
    OvertakesLater(c, SendCopy([x]), [AddCallback(u)] + ([SendCopy([y])] + rest));
    assert c'.view.refs[1] == OfUser(u);
  }
}
