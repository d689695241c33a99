/**
  Many contexts over the one buffer pool of a thread: what each of them keeps, it keeps whatever the others do, and a
  buffer is on one reference list at most.
 */
module SendShared {
  import opened Widths
  import opened SendQueue
  import opened SendState
  import opened Ixev
  import opened SendRuns

  /** A context may use what is free and what is on its own list. */
  ghost predicate Owns(v: View, b: nat)
  {
    b in v.pool || OfBuf(b) in v.refs
  }

  /** From `v` to `t` nothing is touched, and nothing acquired, beyond that. */
  ghost predicate Local(v: View, t: View)
  {
    && (forall b {:trigger Owns(t, b)} :: Owns(t, b) ==> Owns(v, b))
    && (forall b :: b in v.bufs && !Owns(v, b) ==> b in t.bufs && t.bufs[b] == v.bufs[b])
  }

  lemma LocalTrans(v: View, t: View, u: View)
    requires Local(v, t) && Local(t, u)
    ensures Local(v, u)
  {
  }

  lemma OpenedLocal(v: View, data: seq<Byte>)
    requires CanOpen(v, data)
    ensures Local(v, Opened(v, data))
  {
    var t := Opened(v, data);
    forall b | Owns(t, b)
      ensures Owns(v, b)
    {
      if b in t.pool { assert b in v.pool; }
    }
  }

  lemma AppendedLocal(v: View, data: seq<Byte>)
    requires CurOk(v) && CanAppend(v, data)
    ensures Local(v, Appended(v, data))
  {
    assert Owns(v, v.cur.id);
    forall b | Owns(Appended(v, data), b)
      ensures Owns(v, b)
    {
    }
  }

  lemma SameLocal(v: View, t: View)
    requires t.bufs == v.bufs && t.pool == v.pool && forall b :: OfBuf(b) in t.refs ==> OfBuf(b) in v.refs
    ensures Local(v, t)
  {
    forall b | Owns(t, b)
      ensures Owns(v, b)
    {
    }
  }

  lemma {:induction false} ColdLocal(v: View, data: seq<Byte>)
    requires Storage(v) && |v.stream| + |data| <= v.sent + WINDOW
    ensures Local(v, Cold(v, data))
    decreases |data|
  {
    if data != [] && |v.es| < DEPTH && v.pool != [] {
      var n := Min(|data|, BUF_SIZE);
      ColdTurn(v, data, n);
      OpenedLocal(v, data[..n]);
      ColdLocal(Opened(v, data[..n]), data[n..]);
      LocalTrans(v, Opened(v, data[..n]), Cold(v, data));
    } else {
      SameLocal(v, Cold(v, data));
    }
  }

  lemma SentLocal(v: View, data: seq<Byte>)
    requires Sound(v) && Storage(v)
    ensures Local(v, Sent(v, data))
  {
    var d := data[..Window(v, |data|)];
    SameLocal(v, v);
    if d != [] {
      HotStorage(v, d);
      if v.es != [] && v.cur.CurBuf? { AppendedLocal(v, d[..Min(|d|, HotRoom(v))]); }
      ColdLocal(Hot(v, d), d[Min(|d|, HotRoom(v))..]);
      LocalTrans(v, Hot(v, d), Sent(v, data));
    }
  }

  lemma {:induction false} FreedOwned(pool: seq<nat>, rs: seq<Ref>, b: nat)
    requires b in Freed(pool, rs)
    ensures b in pool || OfBuf(b) in rs
    decreases |rs|
  {
    if rs != [] {
      FreedOwned(if rs[0].OfBuf? then [rs[0].id] + pool else pool, rs[1..], b);
      assert rs[0] in rs;
    }
  }

  lemma AcknowledgedLocal(v: View, len: nat)
    ensures Local(v, Acknowledged(v, len))
  {
    var t, n := Acknowledged(v, len), DueCount(v.bufs, v.userPos, v.refs, v.sent + len);
    forall b | Owns(t, b)
      ensures Owns(v, b)
    {
      if b in t.pool { FreedOwned(v.pool, v.refs[..n], b); }
    }
  }

  lemma EventLocal(c: Conn, e: Event)
    requires Good(c) && Storage(c.view) && Possible(c, e)
    ensures Local(c.view, After(c, e).view)
  {
    match e
    case SendCopy(data) => SentLocal(c.view, data); SameLocal(c.view, c.view);
    case PeerAcks(len) => AcknowledgedLocal(c.view, len);
    case SendInPlace(u, off, len) => SameLocal(c.view, After(c, e).view);
    case KernelAnswers(ret) => SameLocal(c.view, After(c, e).view);
    case AddCallback(u) => SameLocal(c.view, After(c, e).view);
  }

  // ----- The others -----

  /** The view of a context when another one has used the pool. */
  function Seen(v: View, bufs: Bufs, pool: seq<nat>): View
  {
    v.(bufs := bufs, pool := pool)
  }

  /** Its own buffers are as they were. */
  ghost predicate OwnKept(v: View, bufs: Bufs)
  {
    forall b :: OfBuf(b) in v.refs && b in v.bufs ==> b in bufs && bufs[b] == v.bufs[b]
  }

  /** The entries show only such buffers. */
  ghost predicate Shows(es: seq<Entry>, bufs: Bufs, bufs': Bufs)
  {
    forall j :: 0 <= j < |es| && es[j].base.InBuf? && es[j].base.id in bufs ==>
      es[j].base.id in bufs' && bufs'[es[j].base.id] == bufs[es[j].base.id]
  }

  lemma {:induction false} EntriesSeen(bufs: Bufs, bufs': Bufs, user: User, es: seq<Entry>, total: int)
    requires EntriesOk(bufs, user, es, total) && Shows(es, bufs, bufs')
    ensures EntriesOk(bufs', user, es, total) && Gather(bufs', user, es) == Gather(bufs, user, es)
  {
    if es != [] {
      var tail := es[1..];
      assert forall j :: 0 <= j < |tail| ==> tail[j] == es[j + 1];
      EntriesSeen(bufs, bufs', user, tail, total);
    }
  }

  lemma HeldShows(v: View, bufs: Bufs)
    requires EntriesHeld(v) && OwnKept(v, bufs)
    ensures Shows(v.es, v.bufs, bufs)
  {
  }

  lemma SeenRefs(v: View, bufs: Bufs, pool: seq<nat>)
    requires RefsOk(v) && OwnKept(v, bufs)
    ensures RefsOk(Seen(v, bufs, pool))
  {
    forall i | 0 <= i < |v.refs|
      ensures RefOk(Seen(v, bufs, pool), v.refs[i])
    {
      assert RefOk(v, v.refs[i]) && v.refs[i] in v.refs;
    }
  }

  /** A context stays sound when the others touch none of its buffers and take none into the pool. */
  lemma SeenSound(v: View, bufs: Bufs, pool: seq<nat>)
    requires Sound(v) && BufsOk(bufs) && OwnKept(v, bufs) && NoDup(pool)
    requires forall i :: 0 <= i < |pool| ==> pool[i] in bufs && OfBuf(pool[i]) !in v.refs
    ensures Sound(Seen(v, bufs, pool))
  {
    HeldShows(v, bufs);
    EntriesSeen(v.bufs, bufs, v.user, v.es, |v.stream|);
    SeenRefs(v, bufs, pool);
  }

  // ----- All contexts -----

  /** All contexts see one pool. */
  ghost predicate OnePool(cs: seq<Conn>)
  {
    forall i, j :: 0 <= i < |cs| && 0 <= j < |cs| ==>
          cs[i].view.bufs == cs[j].view.bufs && cs[i].view.pool == cs[j].view.pool
  }

  /** No buffer is on the lists of two contexts. */
  ghost predicate Apart(a: View, b: View)
  {
    forall x :: !(OfBuf(x) in a.refs && OfBuf(x) in b.refs)
  }

  ghost predicate AllGood(cs: seq<Conn>)
  {
    && OnePool(cs) && (forall i :: 0 <= i < |cs| ==> Good(cs[i]))
    && forall i, j :: 0 <= i < j < |cs| ==> Apart(cs[i].view, cs[j].view)
  }

  /** Context `i` makes an event; the others see the pool change. */
  ghost function Next(cs: seq<Conn>, i: nat, e: Event): seq<Conn>
    requires i < |cs| && Good(cs[i]) && Possible(cs[i], e)
  {
    SoundStorage(cs[i].view);
    var d := After(cs[i], e);
    seq(|cs|, k requires 0 <= k < |cs| =>
      if k == i then d else cs[k].(view := Seen(cs[k].view, d.view.bufs, d.view.pool)))
  }

  ghost predicate Pair(a: View, b: View)
  {
    && a.bufs == b.bufs && a.pool == b.pool && Apart(a, b)
  }

  /** What one context does, another one does not notice. */
  lemma OtherGood(c: Conn, o: Conn, e: Event)
    requires Good(c) && Good(o) && Storage(c.view) && Possible(c, e) && Pair(c.view, o.view)
    ensures var d := After(c, e);
            var p := o.(view := Seen(o.view, d.view.bufs, d.view.pool));
            Good(p) && Pair(d.view, p.view)
  {
    var d := After(c, e);
    EventKeeps(c, e);
    EventLocal(c, e);
    forall b | OfBuf(b) in o.view.refs
      ensures !Owns(c.view, b) && !Owns(d.view, b)
    {
      NotOwned(c.view, o.view, b);
    }
    assert forall i :: 0 <= i < |d.view.pool| ==> Owns(d.view, d.view.pool[i]);
    SeenSound(o.view, d.view.bufs, d.view.pool);
  }

  lemma NotOwned(a: View, b: View, x: nat)
    requires Pair(a, b) && PoolOk(b) && OfBuf(x) in b.refs
    ensures !Owns(a, x)
  {
  }

  lemma OthersApart(a: Conn, b: Conn, bufs: Bufs, pool: seq<nat>)
    requires Apart(a.view, b.view)
    ensures Apart(Seen(a.view, bufs, pool), Seen(b.view, bufs, pool))
  {
  }

  lemma NextGood(cs: seq<Conn>, i: nat, e: Event)
    requires AllGood(cs) && i < |cs| && Possible(cs[i], e)
    ensures AllGood(Next(cs, i, e))
  {
    var ds, c := Next(cs, i, e), cs[i];
    SoundStorage(c.view);
    EventKeeps(c, e);
    forall k | 0 <= k < |ds| && k != i
      ensures Good(ds[k]) && Pair(ds[i].view, ds[k].view)
    {
      assert Pair(c.view, cs[k].view) by {
        if k < i { assert Apart(cs[k].view, cs[i].view); } else { assert Apart(cs[i].view, cs[k].view); }
      }
      OtherGood(c, cs[k], e);
    }
    forall k, l | 0 <= k < l < |ds|
      ensures Apart(ds[k].view, ds[l].view)
    {
      assert Apart(cs[k].view, cs[l].view);
      if k != i && l != i { OthersApart(cs[k], cs[l], ds[i].view.bufs, ds[i].view.pool); }
    }
  }

  // ----- Whole runs -----

  datatype Move = Move(i: nat, e: Event)

  ghost predicate Together(cs: seq<Conn>, moves: seq<Move>, ds: seq<Conn>)
    requires AllGood(cs)
    decreases |moves|
  {
    if moves == [] then ds == cs
    else
      var m := moves[0];
      m.i < |cs| && Possible(cs[m.i], m.e) && (NextGood(cs, m.i, m.e); Together(Next(cs, m.i, m.e), moves[1..], ds))
  }

  /** New contexts over a pool. */
  function Start(free: seq<nat>, memories: seq<User>): seq<Conn>
  {
    seq(|memories|, k requires 0 <= k < |memories| => Conn(Fresh(free, memories[k]), false, [], []))
  }

  lemma StartGood(free: seq<nat>, memories: seq<User>)
    requires NoDup(free)
    ensures AllGood(Start(free, memories))
  {
    forall k | 0 <= k < |memories|
      ensures Good(Start(free, memories)[k])
    {
      FreshGood(free, memories[k]);
    }
  }

  lemma {:induction false} TogetherGood(cs: seq<Conn>, moves: seq<Move>, ds: seq<Conn>)
    requires AllGood(cs) && Together(cs, moves, ds)
    ensures AllGood(ds) && |ds| == |cs|
    decreases |moves|
  {
    if moves != [] {
      NextGood(cs, moves[0].i, moves[0].e);
      TogetherGood(Next(cs, moves[0].i, moves[0].e), moves[1..], ds);
    }
  }

  /** Any number of contexts over one pool, in any interleaving: each keeps its stream, and its cached buffer is listed,
      due at the end of what was accepted, not free, and on no other list. */
  lemma SharedPool(free: seq<nat>, memories: seq<User>, moves: seq<Move>, ds: seq<Conn>, i: nat)
    requires NoDup(free) && AllGood(Start(free, memories)) && Together(Start(free, memories), moves, ds) && i < |ds|
    ensures var v := ds[i].view;
            && ds[i].accepted == ds[i].wire + Gather(v.bufs, v.user, v.es)
            && (v.cur.CurBuf? ==>
                  && OfBuf(v.cur.id) in v.refs && v.cur.id !in v.pool && v.cur.id in v.bufs
                  && v.bufs[v.cur.id].sendPos == |ds[i].accepted|
                  && (v.es != [] ==> v.es[|v.es| - 1].base == InBuf(v.cur.id)))
    ensures forall j, b :: 0 <= j < |ds| && j != i && OfBuf(b) in ds[i].view.refs ==> OfBuf(b) !in ds[j].view.refs
  {
    TogetherGood(Start(free, memories), moves, ds);
    GoodMeans(ds[i]);
    forall j, b | 0 <= j < |ds| && j != i && OfBuf(b) in ds[i].view.refs
      ensures OfBuf(b) !in ds[j].view.refs
    {
      if j < i { assert Apart(ds[j].view, ds[i].view); } else { assert Apart(ds[i].view, ds[j].view); }
    }
  }
}
