/**
  The buffers of a thread's pool are never lost and never made: each is free or on the list of one context.
 */
module SendConserved {
  import opened Widths
  import opened SendQueue
  import opened SendState
  import opened Ixev
  import opened SendRuns
  import opened SendShared

  /** What was free or on the list of the context is so still. */
  ghost predicate KeepsOwned(v: View, t: View)
  {
    forall b :: Owns(v, b) ==> Owns(t, b)
  }

  lemma KeepsTrans(v: View, t: View, u: View)
    requires KeepsOwned(v, t) && KeepsOwned(t, u)
    ensures KeepsOwned(v, u)
  {
  }

  lemma SameKeeps(v: View, t: View)
    requires t.pool == v.pool && v.refs <= t.refs
    ensures KeepsOwned(v, t)
  {
    forall b | Owns(v, b)
      ensures Owns(t, b)
    {
      if OfBuf(b) in v.refs { assert OfBuf(b) in t.refs; }
    }
  }

  lemma OpenedKeeps(v: View, data: seq<Byte>)
    requires CanOpen(v, data)
    ensures KeepsOwned(v, Opened(v, data))
  {
    var t := Opened(v, data);
    forall b | Owns(v, b)
      ensures Owns(t, b)
    {
      if b in v.pool && b != v.pool[0] { assert b in v.pool[1..]; }
      assert t.refs[|v.refs|] == OfBuf(v.pool[0]);
    }
  }

  lemma {:induction false} ColdKeeps(v: View, data: seq<Byte>)
    requires Storage(v) && |v.stream| + |data| <= v.sent + WINDOW
    ensures KeepsOwned(v, Cold(v, data))
    decreases |data|
  {
    if data != [] && |v.es| < DEPTH && v.pool != [] {
      var n := Min(|data|, BUF_SIZE);
      ColdTurn(v, data, n);
      OpenedKeeps(v, data[..n]);
      ColdKeeps(Opened(v, data[..n]), data[n..]);
      KeepsTrans(v, Opened(v, data[..n]), Cold(v, data));
    } else {
      SameKeeps(v, Cold(v, data));
    }
  }

  lemma SentKeeps(v: View, data: seq<Byte>)
    requires Storage(v)
    ensures KeepsOwned(v, Sent(v, data))
  {
    var d := data[..Window(v, |data|)];
    SameKeeps(v, v);
    if d != [] {
      HotStorage(v, d);
      SameKeeps(v, Hot(v, d));
      ColdKeeps(Hot(v, d), d[Min(|d|, HotRoom(v))..]);
      KeepsTrans(v, Hot(v, d), Sent(v, data));
    }
  }

  lemma {:induction false} FreedHas(pool: seq<nat>, rs: seq<Ref>, b: nat)
    requires b in pool || OfBuf(b) in rs
    ensures b in Freed(pool, rs)
    decreases |rs|
  {
    if rs != [] {
      FreedHas(if rs[0].OfBuf? then [rs[0].id] + pool else pool, rs[1..], b);
    }
  }

  lemma AcknowledgedKeeps(v: View, len: nat)
    ensures KeepsOwned(v, Acknowledged(v, len))
  {
    var t, n := Acknowledged(v, len), DueCount(v.bufs, v.userPos, v.refs, v.sent + len);
    forall b | Owns(v, b)
      ensures Owns(t, b)
    {
      if b in v.pool || OfBuf(b) in v.refs[..n] {
        FreedHas(v.pool, v.refs[..n], b);
      } else {
        assert v.refs == v.refs[..n] + v.refs[n..];
      }
    }
  }

  lemma EventKeepsOwned(c: Conn, e: Event)
    requires Good(c) && Storage(c.view) && Possible(c, e)
    ensures KeepsOwned(c.view, After(c, e).view)
  {
    match e
    case SendCopy(data) => SentKeeps(c.view, data); SameKeeps(c.view, c.view);
    case PeerAcks(len) => AcknowledgedKeeps(c.view, len);
    case SendInPlace(u, off, len) => SameKeeps(c.view, After(c, e).view);
    case KernelAnswers(ret) => SameKeeps(c.view, After(c, e).view);
    case AddCallback(u) => SameKeeps(c.view, After(c, e).view);
  }

  /** Buffer `b` is free, or on some context's list. */
  ghost predicate Somewhere(cs: seq<Conn>, b: nat)
  {
    exists k :: 0 <= k < |cs| && Owns(cs[k].view, b)
  }

  lemma NoneLost(cs: seq<Conn>, i: nat, e: Event, b: nat)
    requires AllGood(cs) && i < |cs| && Possible(cs[i], e) && Somewhere(cs, b)
    ensures Somewhere(Next(cs, i, e), b)
  {
    var ds, c := Next(cs, i, e), cs[i];
    SoundStorage(c.view);
    EventKeepsOwned(c, e);
    var k :| 0 <= k < |cs| && Owns(cs[k].view, b);
    assert Owns(ds[if Owns(c.view, b) then i else k].view, b);
  }

  /** What a context has after an event of one of them. */
  lemma NextOwns(cs: seq<Conn>, i: nat, e: Event, k: nat, b: nat)
    requires AllGood(cs) && i < |cs| && Possible(cs[i], e) && k < |cs| && Storage(cs[i].view)
    ensures Owns(Next(cs, i, e)[k].view, b) ==> Owns(After(cs[i], e).view, b) || Owns(cs[k].view, b)
  {
  }

  lemma NoneMade(cs: seq<Conn>, i: nat, e: Event, b: nat)
    requires AllGood(cs) && i < |cs| && Possible(cs[i], e) && Somewhere(Next(cs, i, e), b)
    ensures Somewhere(cs, b)
  {
    SoundStorage(cs[i].view);
    EventLocal(cs[i], e);
    var k :| 0 <= k < |cs| && Owns(Next(cs, i, e)[k].view, b);
    NextOwns(cs, i, e, k, b);
    assert Owns(cs[i].view, b) || Owns(cs[k].view, b);
  }

  lemma {:induction false} TogetherSomewhere(cs: seq<Conn>, moves: seq<Move>, ds: seq<Conn>, b: nat)
    requires AllGood(cs) && Together(cs, moves, ds)
    ensures Somewhere(ds, b) <==> Somewhere(cs, b)
    decreases |moves|
  {
    if moves != [] {
      NextGood(cs, moves[0].i, moves[0].e);
      if Somewhere(cs, b) { NoneLost(cs, moves[0].i, moves[0].e, b); }
      if Somewhere(Next(cs, moves[0].i, moves[0].e), b) { NoneMade(cs, moves[0].i, moves[0].e, b); }
      TogetherSomewhere(Next(cs, moves[0].i, moves[0].e), moves[1..], ds, b);
    }
  }

  /** Any number of contexts over one pool, in any interleaving: the buffers of the pool, and no others, are free or on
      the list of a context. */
  lemma NoBufferLost(free: seq<nat>, memories: seq<User>, moves: seq<Move>, ds: seq<Conn>, i: nat, b: nat)
    requires NoDup(free) && AllGood(Start(free, memories)) && Together(Start(free, memories), moves, ds) && i < |ds|
    ensures b in free <==>
            b in ds[i].view.pool || exists k :: 0 <= k < |ds| && OfBuf(b) in ds[k].view.refs
    ensures b in ds[i].view.pool ==> forall k :: 0 <= k < |ds| ==> OfBuf(b) !in ds[k].view.refs
    ensures NoDup(ds[i].view.pool)
  {
    var cs := Start(free, memories);
    TogetherGood(cs, moves, ds);
    TogetherSomewhere(cs, moves, ds, b);
    assert Somewhere(cs, b) <==> b in free by {
      assert b in free ==> Owns(cs[i].view, b);
    }
    if Somewhere(ds, b) {
      var k :| 0 <= k < |ds| && Owns(ds[k].view, b);
      assert ds[i].view.pool == ds[k].view.pool;
    }
    if b in ds[i].view.pool { assert Owns(ds[i].view, b); }
    forall k | 0 <= k < |ds| && b in ds[i].view.pool
      ensures OfBuf(b) !in ds[k].view.refs
    {
      assert ds[i].view.pool == ds[k].view.pool && PoolOk(ds[k].view);
    }
    if k :| 0 <= k < |ds| && OfBuf(b) in ds[k].view.refs { assert Owns(ds[k].view, b); }
  }
}
