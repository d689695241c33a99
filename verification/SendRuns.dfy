/**
  Whole runs of a connection's send side: the application sends, the kernel takes what it likes of what it is
  offered, the peer acknowledges what the kernel took.
 */
module SendRuns {
  import opened Widths
  import opened SendQueue
  import opened SendState
  import opened Ixev

  datatype Event =
    | SendCopy(data: seq<Byte>)
    | SendInPlace(u: nat, off: nat, len: nat)
    | KernelAnswers(ret: int)
    | PeerAcks(len: nat)
    | AddCallback(u: nat)

  /** `accepted` collects what the calls returned as accepted, `wire` what the kernel read from the entries. */
  datatype Conn = Conn(view: View, dead: bool, accepted: seq<Byte>, wire: seq<Byte>)

  /** The kernel takes no more than it is offered, and the peer acknowledges no more than the kernel took. */
  ghost predicate Possible(c: Conn, e: Event)
  {
    match e
    case SendCopy(_) => true
    case SendInPlace(u, off, len) => u in c.view.user && off + len <= |c.view.user[u]|
    case KernelAnswers(ret) => ret <= Total(c.view.es)
    case PeerAcks(len) => c.view.sent + len <= c.view.taken
    case AddCallback(u) => OfUser(u) !in c.view.refs
  }

  ghost function After(c: Conn, e: Event): Conn
    requires Storage(c.view) && Possible(c, e)
  {
    match e
    case SendCopy(data) =>
      if c.dead then c else c.(view := Sent(c.view, data), accepted := c.accepted + data[..Accepted(c.view, |data|)])
    case SendInPlace(u, off, len) =>
      var n := Passable(c.view, len);
      if c.dead || n == 0 then c
      else c.(view := Passed(c.view, u, off, n), accepted := c.accepted + c.view.user[u][off..off + n])
    case KernelAnswers(ret) =>
      if ret < 0 then c.(dead := true)
      else
        var read := Gather(c.view.bufs, c.view.user, c.view.es);
        c.(view := KernelTook(c.view, ret), wire := c.wire + if ret <= |read| then read[..ret] else read)
    case PeerAcks(len) => c.(view := Acknowledged(c.view, len))
    case AddCallback(u) => c.(view := Registered(c.view, u))
  }

  ghost predicate Good(c: Conn)
  {
    Sound(c.view) && c.accepted == c.view.stream && c.wire == c.view.stream[..c.view.taken]
  }

  ghost predicate Run(c: Conn, events: seq<Event>, c': Conn)
    requires Good(c)
    decreases |events|
  {
    SoundStorage(c.view);
    if events == [] then c' == c
    else Possible(c, events[0]) && (EventKeeps(c, events[0]); Run(After(c, events[0]), events[1..], c'))
  }

  lemma SentKeepsRest(v: View, data: seq<Byte>)
    requires Storage(v)
    ensures Sent(v, data).taken == v.taken && Sent(v, data).sent == v.sent
  {
    var d := data[..Window(v, |data|)];
    if d != [] {
      HotStorage(v, d);
      ColdKeepsRest(Hot(v, d), d[Min(|d|, HotRoom(v))..]);
    }
  }

  lemma {:induction false} ColdKeepsRest(v: View, data: seq<Byte>)
    requires Storage(v) && |v.stream| + |data| <= v.sent + WINDOW
    ensures Cold(v, data).taken == v.taken && Cold(v, data).sent == v.sent
    decreases |data|
  {
    if data != [] && |v.es| < DEPTH && v.pool != [] {
      var n := Min(|data|, BUF_SIZE);
      OpenedStorage(v, data[..n]);
      ColdKeepsRest(Opened(v, data[..n]), data[n..]);
    }
  }

  lemma SendCopyKeeps(c: Conn, data: seq<Byte>)
    requires Good(c) && Storage(c.view)
    ensures Good(After(c, SendCopy(data)))
  {
    SendSound(c.view, data);
    SendAccepts(c.view, data);
    SentKeepsRest(c.view, data);
  }

  lemma SendInPlaceKeeps(c: Conn, u: nat, off: nat, len: nat)
    requires Good(c) && Storage(c.view) && Possible(c, SendInPlace(u, off, len))
    ensures Good(After(c, SendInPlace(u, off, len)))
  {
    var n := Passable(c.view, len);
    if 0 < n {
      PassedSound(c.view, u, off, n);
    }
  }

  lemma TakeMore(s: seq<Byte>, a: nat, n: nat)
    requires a + n <= |s|
    ensures s[..a] + s[a..][..n] == s[..a + n]
  {
  }

  lemma KernelAnswersKeeps(c: Conn, ret: nat)
    requires Good(c) && ret <= Total(c.view.es)
    ensures Sound(KernelTook(c.view, ret))
    ensures ret <= |Gather(c.view.bufs, c.view.user, c.view.es)|
    ensures c.wire + Gather(c.view.bufs, c.view.user, c.view.es)[..ret] == c.view.stream[..c.view.taken + ret]
  {
    KernelTookSound(c.view, ret);
    GatherLength(c.view.bufs, c.view.user, c.view.es, |c.view.stream|);
    TakeMore(c.view.stream, c.view.taken, ret);
  }

  lemma EventKeeps(c: Conn, e: Event)
    requires Good(c) && Storage(c.view) && Possible(c, e)
    ensures Good(After(c, e))
  {
    match e
    case SendCopy(data) => SendCopyKeeps(c, data);
    case SendInPlace(u, off, len) => SendInPlaceKeeps(c, u, off, len);
    case KernelAnswers(ret) => if ret >= 0 { KernelAnswersKeeps(c, ret); }
    case PeerAcks(len) => AcknowledgedSound(c.view, len);
    case AddCallback(u) => RegisteredSound(c.view, u);
  }

  /** A new connection is good. */
  lemma FreshGood(free: seq<nat>, memory: User)
    requires NoDup(free)
    ensures Good(Conn(Fresh(free, memory), false, [], []))
  {
  }

  /** What was accepted, and what the kernel read, are never taken back. */
  lemma EventExtends(c: Conn, e: Event)
    requires Good(c) && Storage(c.view) && Possible(c, e)
    ensures c.accepted <= After(c, e).accepted && c.wire <= After(c, e).wire
  {
  }

  lemma {:induction false} RunKeeps(c: Conn, events: seq<Event>, c': Conn)
    requires Good(c) && Run(c, events, c')
    ensures Good(c')
    decreases |events|
  {
    if events != [] {
      SoundStorage(c.view);
      EventKeeps(c, events[0]);
      RunKeeps(After(c, events[0]), events[1..], c');
    }
  }

  lemma {:induction false} RunExtends(c: Conn, events: seq<Event>, c': Conn)
    requires Good(c) && Run(c, events, c')
    ensures c.accepted <= c'.accepted && c.wire <= c'.wire
    decreases |events|
  {
    if events != [] {
      SoundStorage(c.view);
      EventKeeps(c, events[0]);
      var d := After(c, events[0]);
      EventExtends(c, events[0]);
      RunExtends(d, events[1..], c');
      PrefixTrans(c.accepted, d.accepted, c'.accepted);
      PrefixTrans(c.wire, d.wire, c'.wire);
    }
  }

  lemma PrefixTrans(x: seq<Byte>, y: seq<Byte>, z: seq<Byte>)
    requires x <= y <= z
    ensures x <= z
  {
  }

  lemma GoodMeans(c: Conn)
    requires Good(c)
    ensures c.accepted == c.wire + Gather(c.view.bufs, c.view.user, c.view.es)
    ensures c.view.sent <= |c.wire| <= |c.accepted| <= c.view.sent + WINDOW && |c.view.es| <= DEPTH
  {
  }

  /** Whatever happens, the kernel has read exactly a prefix of what was accepted and the entries are the rest. */
  lemma StreamIntegrity(c: Conn, events: seq<Event>, c': Conn)
    requires Good(c) && Run(c, events, c')
    ensures Good(c')
    ensures c'.accepted == c'.wire + Gather(c'.view.bufs, c'.view.user, c'.view.es)
    ensures c'.view.sent <= |c'.wire| <= |c'.accepted| <= c'.view.sent + 65536 && |c'.view.es| <= 16
    ensures c.accepted <= c'.accepted && c.wire <= c'.wire
  {
    RunKeeps(c, events, c');
    RunExtends(c, events, c');
    GoodMeans(c');
  }

  /** In every reachable state the cached buffer is on the list and not free, its reference is due at the end of
      what was accepted, and the last entry is in it. */
  lemma CachedBufferNeverReleased(free: seq<nat>, memory: User, events: seq<Event>, c: Conn)
    requires NoDup(free) && Good(Conn(Fresh(free, memory), false, [], []))
    requires Run(Conn(Fresh(free, memory), false, [], []), events, c) && c.view.cur.CurBuf?
    ensures OfBuf(c.view.cur.id) in c.view.refs && c.view.cur.id !in c.view.pool
    ensures c.view.cur.id in c.view.bufs && c.view.bufs[c.view.cur.id].sendPos == |c.accepted|
    ensures c.view.es != [] ==> c.view.es[|c.view.es| - 1].base == InBuf(c.view.cur.id)
  {
    StreamIntegrity(Conn(Fresh(free, memory), false, [], []), events, c);
  }

  /** Only an acknowledgement of all its bytes releases a buffer. */
  lemma ReleasedWhenAcknowledged(c: Conn, e: Event, b: nat)
    requires Good(c) && Storage(c.view) && Possible(c, e)
    requires OfBuf(b) in c.view.refs && OfBuf(b) !in After(c, e).view.refs
    ensures e.PeerAcks? && b in c.view.bufs && c.view.bufs[b].sendPos <= After(c, e).view.sent
  {
    match e
    case SendCopy(data) => SentKeepsRefs(c.view, data);
    case SendInPlace(u, off, len) =>
    case KernelAnswers(ret) =>
    case PeerAcks(len) => UnacknowledgedIntact(c.view, len, b);
    case AddCallback(u) =>
  }

  lemma SentKeepsRefs(v: View, data: seq<Byte>)
    requires Storage(v)
    ensures v.refs <= Sent(v, data).refs
  {
    var d := data[..Window(v, |data|)];
    if d != [] {
      HotStorage(v, d);
      ColdKeepsRefs(Hot(v, d), d[Min(|d|, HotRoom(v))..]);
    }
  }

  lemma {:induction false} ColdKeepsRefs(v: View, data: seq<Byte>)
    requires Storage(v) && |v.stream| + |data| <= v.sent + WINDOW
    ensures v.refs <= Cold(v, data).refs
    decreases |data|
  {
    if data != [] && |v.es| < DEPTH && v.pool != [] {
      var n := Min(|data|, BUF_SIZE);
      OpenedStorage(v, data[..n]);
      ColdKeepsRefs(Opened(v, data[..n]), data[n..]);
    }
  }
}
