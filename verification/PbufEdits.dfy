/**
  What pbuf_cat, pbuf_chain, pbuf_dechain and pbuf_realloc of dp/lwip/pbuf.c do to the memory, and what that
  means for references, total lengths and contents.
 */
module PbufEdits {
  import opened Widths
  import opened Pointers
  import opened PbufChains
  import opened PbufRefs

  /** A 16-bit field plus `d`. */
  function Plus(x: nat, d: nat): nat
  {
    (x + d) % WRAP16
  }

  function Minus(x: nat, y: nat): nat
  {
    (x - y) % WRAP16
  }

  function AddTot(m: Mem, ps: seq<nat>, d: nat): Mem
  {
    map a | a in m :: if a in ps then m[a].(tot := Plus(m[a].tot, d)) else m[a]
  }

  ghost predicate AllIn(m: Mem, ps: seq<nat>)
  {
    forall a :: a in ps ==> a in m
  }

  lemma AddTotStep(m: Mem, ps: seq<nat>, i: nat, d: nat)
    requires i < |ps| && ps[i] in m && ps[i] !in ps[..i]
    ensures AddTot(m, ps[..i + 1], d) == AddTot(m, ps[..i], d)[ps[i] := m[ps[i]].(tot := Plus(m[ps[i]].tot, d))]
  {
    assert ps[..i + 1] == ps[..i] + [ps[i]];
  }

  /** A walk along a chain that has come to index `i`: that buffer is still as it was. */
  lemma WalkAt(m: Mem, p: Ptr, ps: seq<nat>, i: nat, d: nat)
    requires IsChain(m, p, ps) && i < |ps|
    ensures ps[i] in m && ps[i] !in ps[..i] && m[ps[i]].next == Place(ps, i + 1)
    ensures ps[i] in AddTot(m, ps[..i], d) && AddTot(m, ps[..i], d)[ps[i]] == m[ps[i]]
  {
    ChainAt(m, p, ps, i);
    ChainNoDup(m, p, ps);
  }

  // ----- Totals along a stretch of a chain -----

  /** Nothing outside the stretch points into it. */
  ghost predicate Unshared(m: Mem, ps: seq<nat>)
  {
    forall b :: b in m && m[b].next.At? && m[b].next.a in ps ==> b in ps
  }

  /** `ps` is a stretch of a chain. */
  ghost predicate Linked(m: Mem, ps: seq<nat>)
  {
    AllIn(m, ps) && forall i :: 0 <= i < |ps| - 1 ==> m[ps[i]].next == At(ps[i + 1])
  }

  /** The totals along `ps` move by `d`, and only the last buffer of `ps` changes otherwise. */
  ghost predicate Shifted(m: Mem, m': Mem, ps: seq<nat>, d: nat)
    requires m'.Keys == m.Keys
  {
    && Linked(m, ps) && ps != []
    && (forall a :: a in m && a !in ps ==> m'[a] == m[a])
    && (forall a :: a in m && a in ps ==> m'[a].tot == Plus(m[a].tot, d))
    && (forall i :: 0 <= i < |ps| - 1 ==>
          ps[i] in m && m'[ps[i]].len == m[ps[i]].len && m'[ps[i]].next == m[ps[i]].next)
    && TotalOk(m', ps[|ps| - 1])
  }

  lemma PlusAdds(x: nat, y: nat, d: nat)
    ensures Plus((x + y) % WRAP16, d) == (x + Plus(y, d)) % WRAP16
  {
    AddMod(d, x + y);
    AddMod(x, y + d);
  }

  lemma ShiftInside(m: Mem, m': Mem, ps: seq<nat>, d: nat, i: nat)
    requires m'.Keys == m.Keys && Shifted(m, m', ps, d) && i < |ps| && Totals(m)
    ensures ps[i] in m && TotalOk(m', ps[i])
  {
    if i < |ps| - 1 {
      var a, b := ps[i], ps[i + 1];
      assert TotalOk(m, a) && b in ps;
      PlusAdds(m[a].len, m[b].tot, d);
    }
  }

  lemma ShiftOutside(m: Mem, m': Mem, ps: seq<nat>, d: nat, a: nat)
    requires m'.Keys == m.Keys && Shifted(m, m', ps, d) && Totals(m) && a in m && a !in ps
    ensures TotalOk(m', a) <==> (m[a].next.At? && m[a].next.a in ps && m[a].next.a in m ==> d % WRAP16 == 0)
  {
    assert TotalOk(m, a);
    if m[a].next.At? && m[a].next.a in ps && m[a].next.a in m {
      var b := m[a].next.a;
      assert TotalOk(m, b);
      MovesUnlessZero(m[a].len, m[b].tot, d);
    }
  }

  lemma MovesUnlessZero(x: nat, y: nat, d: nat)
    requires y < WRAP16
    ensures (x + y) % WRAP16 == (x + Plus(y, d)) % WRAP16 <==> d % WRAP16 == 0
  {
    AddMod(x, y + d);
    AddMod(x + y, d);
    var z := (x + y) % WRAP16;
    AddMod(d % WRAP16, x + y);
    assert (x + Plus(y, d)) % WRAP16 == (z + d % WRAP16) % WRAP16;
    var e := d % WRAP16;
    if z + e >= WRAP16 {
      assert (z + e) % WRAP16 == z + e - WRAP16;
    }
  }

  /** The totals stay right everywhere exactly when no buffer outside the stretch points into it, or nothing moved. */
  lemma ShiftKeepsTotals(m: Mem, m': Mem, ps: seq<nat>, d: nat)
    requires m'.Keys == m.Keys && Shifted(m, m', ps, d) && Totals(m)
    ensures Totals(m') <==> Unshared(m, ps) || d % WRAP16 == 0
  {
    if Unshared(m, ps) || d % WRAP16 == 0 {
      forall a | a in m'
        ensures TotalOk(m', a)
      {
        if a in ps {
          var i :| 0 <= i < |ps| && ps[i] == a;
          ShiftInside(m, m', ps, d, i);
        } else {
          ShiftOutside(m, m', ps, d, a);
        }
      }
    } else {
      var b :| b in m && m[b].next.At? && m[b].next.a in ps && b !in ps;
      ShiftOutside(m, m', ps, d, b);
      assert !TotalOk(m', b);
    }
  }

  lemma ChainLinked(m: Mem, p: Ptr, ps: seq<nat>, k: nat)
    requires IsChain(m, p, ps) && k <= |ps|
    ensures Linked(m, ps[..k])
    ensures forall i :: 0 <= i < |ps| ==> ps[i] in m && m[ps[i]].next == Place(ps, i + 1)
  {
    ChainIn(m, p, ps);
    forall i | 0 <= i < |ps|
      ensures ps[i] in m && m[ps[i]].next == Place(ps, i + 1)
    {
      ChainAt(m, p, ps, i);
    }
  }

  // ----- Links -----

  /** Cutting or adding a link keeps all chains finite, as long as a new link leads to a chain without its start. */
  lemma LinkAcyclic(m: Mem, b: nat, q: Ptr, qs: seq<nat>)
    requires Acyclic(m) && b in m && IsChain(m, q, qs) && b !in qs
    ensures Acyclic(SetNext(m, b, q))
  {
    var m' := SetNext(m, b, q);
    forall a | a in m'
      ensures HasChain(m', At(a))
    {
      assert HasChain(m, At(a));
      var ps :| IsChain(m, At(a), ps);
      LinkChain(m, b, q, qs, At(a), ps);
    }
  }

  /** The chain from `p` once `b` points to `q`. */
  lemma {:induction false} LinkChain(m: Mem, b: nat, q: Ptr, qs: seq<nat>, p: Ptr, ps: seq<nat>)
    requires b in m && IsChain(m, q, qs) && b !in qs && IsChain(m, p, ps)
    ensures HasChain(SetNext(m, b, q), p)
    decreases ps
  {
    var m' := SetNext(m, b, q);
    if ps == [] {
      assert IsChain(m', p, []);
    } else if ps[0] == b {
      ChainFrame(m, m', q, qs);
      assert IsChain(m', p, [b] + qs);
    } else {
      LinkChain(m, b, q, qs, m[ps[0]].next, ps[1..]);
      var rs :| IsChain(m', m[ps[0]].next, rs);
      assert IsChain(m', p, [ps[0]] + rs);
    }
  }

  lemma LinkKeeps(m: Mem, ext: multiset<nat>, b: nat, q: Ptr, qs: seq<nat>)
    requires RefInv(m, ext + Bag(q)) && b in m && IsChain(m, q, qs) && b !in qs
    ensures RefInv(SetNext(m, b, q), ext + Bag(m[b].next))
  {
    SetNextCounted(m, ext, b, q);
    LinkAcyclic(m, b, q, qs);
    var m', ext' := SetNext(m, b, q), ext + Bag(m[b].next);
    forall a | a in m'
      ensures LinkOk(m', a)
    {
      assert LinkOk(m, a);
    }
    forall a | a in ext'
      ensures a in m'
    {
      assert LinkOk(m, b);
      assert a in ext + Bag(q) || m[b].next == At(a);
    }
  }

  /** Lengths, totals and payloads do not matter for the accounts. */
  lemma SameRefs(m: Mem, m': Mem, ext: multiset<nat>)
    requires RefInv(m, ext) && m'.Keys == m.Keys
    requires forall a :: a in m ==> m'[a].next == m[a].next && m'[a].refs == m[a].refs
    ensures RefInv(m', ext)
  {
    SameLinks(m, m', ext, ext);
    forall a | a in m'
      ensures CountOk(m', ext, a)
    {
      assert CountOk(m, ext, a);
      assert Preds(m', a) == Preds(m, a);
    }
  }

  /** Totals survive pbuf_free: what stays points only to what stays. */
  lemma FreedTotals(m: Mem, ext: multiset<nat>, p: Ptr, ps: seq<nat>)
    requires IsChain(m, p, ps) && RefInv(m, ext + Bag(p)) && Narrow(m) && Totals(m)
    ensures Totals(Freed(m, ps))
  {
    var m' := Freed(m, ps);
    FreedKeeps(m, ext, p, ps);
    forall a | a in m'
      ensures TotalOk(m', a)
    {
      FreedExactly(m, p, ps, a);
      assert TotalOk(m, a) && LinkOk(m', a);
      if m[a].next.At? { FreedExactly(m, p, ps, m[a].next.a); }
    }
  }

  /** And so do wrong ones, in a buffer that points only to what stays. */
  lemma FreedTotalsBack(m: Mem, ext: multiset<nat>, p: Ptr, ps: seq<nat>, b: nat)
    requires IsChain(m, p, ps) && RefInv(m, ext + Bag(p)) && Narrow(m) && Totals(Freed(m, ps))
    requires b in m && b !in ps
    ensures TotalOk(m, b)
  {
    var m' := Freed(m, ps);
    FreedKeeps(m, ext, p, ps);
    FreedExactly(m, p, ps, b);
    assert ps[..Run(m, ps)] <= ps;
    assert TotalOk(m', b) && LinkOk(m', b);
    if m[b].next.At? { FreedExactly(m, p, ps, m[b].next.a); }
  }

  // ----- pbuf_cat and pbuf_chain -----

  function Catted(m: Mem, ps: seq<nat>, t: nat): Mem
    requires ps != [] && ps[|ps| - 1] in m && t in m
  {
    SetNext(AddTot(m, ps, m[t].tot), ps[|ps| - 1], At(t))
  }

  ghost predicate Disjoint(ps: seq<nat>, qs: seq<nat>)
  {
    forall a :: a in ps ==> a !in qs
  }

  /** pbuf_cat takes over the caller's reference to the tail. */
  lemma CatKeepsRefs(m: Mem, ext: multiset<nat>, h: nat, ps: seq<nat>, t: nat, ts: seq<nat>)
    requires RefInv(m, ext + multiset{t}) && t in m
    requires IsChain(m, At(h), ps) && IsChain(m, At(t), ts) && Disjoint(ps, ts)
    ensures ps[|ps| - 1] in m && RefInv(Catted(m, ps, t), ext)
  {
    var b, m1 := ps[|ps| - 1], AddTot(m, ps, m[t].tot);
    ChainLinked(m, At(h), ps, |ps|);
    SameRefs(m, m1, ext + multiset{t});
    ChainFrame(m, m1, At(t), ts);
    assert b in ps;
    LinkKeeps(m1, ext, b, At(t), ts);
    assert ext + Bag(m1[b].next) == ext;
  }

  /** The head chain goes on with the tail: its bytes are followed by the tail's. */
  lemma CatConcatenates(m: Mem, h: nat, ps: seq<nat>, t: nat, ts: seq<nat>)
    requires IsChain(m, At(h), ps) && IsChain(m, At(t), ts) && Disjoint(ps, ts)
    ensures ps[|ps| - 1] in m
    ensures var m' := Catted(m, ps, t);
            && IsChain(m', At(h), ps + ts) && IsChain(m', At(t), ts)
            && Content(m', ps + ts) == Content(m, ps) + Content(m, ts)
  {
    ChainLinked(m, At(h), ps, |ps|);
    var b, m' := ps[|ps| - 1], Catted(m, ps, t);
    assert b in ps;
    ChainNoDup(m, At(h), ps);
    ChainFrame(m, m', At(t), ts);
    ChainJoin(m, m', At(h), ps, At(t), ts);
    ContentAppend(m, ps, ts);
    ContentFrame(m, m', ps + ts);
  }

  lemma LastTotal(len: nat, d: nat)
    ensures Plus(len % WRAP16, d) == (len + d) % WRAP16
  {
    AddMod(d, len);
  }

  lemma CatLast(m: Mem, ps: seq<nat>, t: nat)
    requires ps != [] && AllIn(m, ps) && t in m && t !in ps && Totals(m)
    requires ps[|ps| - 1] in m && m[ps[|ps| - 1]].next == Null
    ensures TotalOk(Catted(m, ps, t), ps[|ps| - 1]) && m[t].tot < WRAP16
  {
    var b, m' := ps[|ps| - 1], Catted(m, ps, t);
    assert TotalOk(m, b) && TotalOk(m, t);
    LastTotal(m[b].len, m[t].tot);
    assert m'[t].tot == m[t].tot;
  }

  lemma CatShifted(m: Mem, h: nat, ps: seq<nat>, t: nat, ts: seq<nat>)
    requires Totals(m) && IsChain(m, At(h), ps) && IsChain(m, At(t), ts) && Disjoint(ps, ts)
    ensures ps[|ps| - 1] in m && Shifted(m, Catted(m, ps, t), ps, m[t].tot) && m[t].tot < WRAP16
  {
    ChainLinked(m, At(h), ps, |ps|);
    ChainNoDup(m, At(h), ps);
    assert ps[..|ps|] == ps && t in ts;
    CatLast(m, ps, t);
  }

  /** pbuf_cat keeps every total right exactly when nothing else points into the head chain, or the tail is empty. */
  lemma CatTotals(m: Mem, h: nat, ps: seq<nat>, t: nat, ts: seq<nat>)
    requires Totals(m) && IsChain(m, At(h), ps) && IsChain(m, At(t), ts) && Disjoint(ps, ts)
    ensures ps[|ps| - 1] in m
    ensures Totals(Catted(m, ps, t)) <==> Unshared(m, ps) || m[t].tot == 0
  {
    CatShifted(m, h, ps, t, ts);
    ShiftKeepsTotals(m, Catted(m, ps, t), ps, m[t].tot);
  }

  // ----- pbuf_ref -----

  function Referenced(m: Mem, p: nat): Mem
    requires p in m
  {
    SetRefs(m, p, Plus(m[p].refs, 1))
  }

  /** pbuf_ref counts a new outside reference exactly as long as the 16-bit count does not wrap. */
  lemma RefCounts(m: Mem, ext: multiset<nat>, p: nat)
    requires RefInv(m, ext) && Narrow(m) && p in m
    ensures RefInv(Referenced(m, p), ext + multiset{p}) <==> m[p].refs + 1 < WRAP16
    ensures Referenced(m, p).Keys == m.Keys && Referenced(m, p)[p].refs == (m[p].refs + 1) % 0x10000
  {
    var m' := Referenced(m, p);
    if m[p].refs + 1 < WRAP16 {
      AddReference(m, ext, p);
      SameLinks(m, m', ext, ext + multiset{p});
    } else {
      assert m'[p].refs == 0;
    }
  }

  /** pbuf_chain: the caller keeps its reference to the tail beside the one the link now holds. */
  lemma ChainKeepsRefs(m: Mem, ext: multiset<nat>, h: nat, ps: seq<nat>, t: nat, ts: seq<nat>)
    requires RefInv(m, ext + multiset{t}) && Narrow(m) && t in m && m[t].refs + 1 < WRAP16
    requires IsChain(m, At(h), ps) && IsChain(m, At(t), ts) && Disjoint(ps, ts)
    ensures ps[|ps| - 1] in m && RefInv(Referenced(Catted(m, ps, t), t), ext + multiset{t})
  {
    CatKeepsRefs(m, ext, h, ps, t, ts);
    assert t in ts;
    RefCounts(Catted(m, ps, t), ext, t);
  }

  // ----- pbuf_dechain -----

  /** `p` alone, and its old tail before the reference to it is dropped. */
  function Detached(m: Mem, p: nat, q: nat): Mem
    requires p in m && q in m
  {
    m[q := m[q].(tot := Minus(m[p].tot, m[p].len))][p := m[p].(next := Null, tot := m[p].len)]
  }

  lemma MinusBack(x: nat, y: nat)
    requires y < WRAP16
    ensures Minus((x + y) % WRAP16, x) == y
  {
    var z := (x + y) % WRAP16;
    assert x + y == WRAP16 * ((x + y) / WRAP16) + z;
    ModShift2(y, -((x + y) / WRAP16));
    assert z - x == y + WRAP16 * -((x + y) / WRAP16);
  }

  lemma ModShift2(x: nat, k: int)
    requires x < WRAP16 && k <= 0
    ensures (x + WRAP16 * k) % WRAP16 == x
    decreases -k
  {
    if k < 0 {
      ModShift2(x, k + 1);
      assert x + WRAP16 * (k + 1) == (x + WRAP16 * k) + WRAP16;
    }
  }

  /** With the totals right, pbuf_dechain writes into the tail the total it has already. */
  lemma DetachedTail(m: Mem, p: nat, q: nat)
    requires p in m && q in m && p != q && Totals(m) && m[p].next == At(q)
    ensures Minus(m[p].tot, m[p].len) == m[q].tot
    ensures Detached(m, p, q) == SetNext(m, p, Null)[p := m[p].(next := Null, tot := m[p].len)]
  {
    assert TotalOk(m, p) && TotalOk(m, q);
    MinusBack(m[p].len, m[q].tot);
  }

  /** Cutting `p` from its tail leaves the reference its link held to be dropped. */
  lemma DetachedRefs(m: Mem, ext: multiset<nat>, p: nat, q: nat)
    requires RefInv(m, ext) && p in m && q in m && m[p].next == At(q)
    ensures RefInv(Detached(m, p, q), ext + multiset{q})
  {
    assert ext + Bag(Null) == ext;
    LinkKeeps(m, ext, p, Null, []);
    SameRefs(SetNext(m, p, Null), Detached(m, p, q), ext + multiset{q});
  }

  function Dechained(m: Mem, ps: seq<nat>): Mem
    requires AllIn(m, ps)
  {
    if |ps| < 2 then m else Freed(Detached(m, ps[0], ps[1]), ps[1..])
  }

  lemma DetachedChain(m: Mem, p: nat, ps: seq<nat>)
    requires IsChain(m, At(p), ps) && |ps| >= 2
    ensures ps[0] == p && ps[0] in m && ps[1] in m && ps[0] !in ps[1..] && ps[0] != ps[1]
    ensures IsChain(Detached(m, ps[0], ps[1]), At(ps[1]), ps[1..])
  {
    ChainLinked(m, At(p), ps, |ps|);
    ChainNoDup(m, At(p), ps);
    ChainFrame(m, Detached(m, ps[0], ps[1]), At(ps[1]), ps[1..]);
  }

  lemma DechainKeepsRefs(m: Mem, ext: multiset<nat>, p: nat, ps: seq<nat>)
    requires RefInv(m, ext) && Narrow(m) && IsChain(m, At(p), ps) && AllIn(m, ps)
    ensures RefInv(Dechained(m, ps), ext)
  {
    if |ps| >= 2 {
      DetachedChain(m, p, ps);
      DetachedRefs(m, ext, p, ps[1]);
      FreedKeeps(Detached(m, p, ps[1]), ext, At(ps[1]), ps[1..]);
    }
  }

  lemma DetachedRun(m: Mem, p: nat, ps: seq<nat>)
    requires IsChain(m, At(p), ps) && |ps| >= 2 && AllIn(m, ps)
    ensures Run(Detached(m, ps[0], ps[1]), ps[1..]) == Run(m, ps[1..])
  {
    RunSame(m, Detached(m, ps[0], ps[1]), ps[1..]);
  }

  lemma {:induction false} RunSame(m: Mem, m': Mem, ps: seq<nat>)
    requires m'.Keys == m.Keys && forall a :: a in m ==> m'[a].refs == m[a].refs
    ensures Run(m', ps) == Run(m, ps)
  {
    if ps != [] { RunSame(m, m', ps[1..]); }
  }

  /** pbuf_dechain leaves `p` alone with its own bytes, and a tail that is still referenced with its bytes. */
  lemma DechainSplits(m: Mem, p: nat, ps: seq<nat>)
    requires IsChain(m, At(p), ps) && AllIn(m, ps) && Positive(m) && Sized(m)
    ensures var m' := Dechained(m, ps);
            && IsChain(m', At(p), [p]) && Content(m', [p]) == Content(m, [p])
            && (|ps| >= 2 && ps[1] in m' ==>
                  IsChain(m', At(ps[1]), ps[1..]) && Content(m', ps[1..]) == Content(m, ps[1..]))
            && (|ps| >= 2 ==> (ps[1] in m' <==> m[ps[1]].refs != 1))
  {
    var m' := Dechained(m, ps);
    if |ps| < 2 {
      assert ps == [p];
    } else {
      var d, rest := Detached(m, p, ps[1]), ps[1..];
      DetachedChain(m, p, ps);
      FreedExactly(d, At(ps[1]), rest, p);
      assert rest[..Run(d, rest)] <= rest;
      assert IsChain(m', At(p), [p]) by { assert [p][1..] == []; }
      FreedExactly(d, At(ps[1]), rest, ps[1]);
      if m[ps[1]].refs != 1 {
        TailStays(d, ps[1], rest);
        ContentFrame(m, m', rest);
      } else {
        assert rest[..Run(d, rest)][0] == ps[1];
      }
      ContentFrame(m, m', [p]);
    }
  }

  lemma TailStays(m: Mem, q: nat, qs: seq<nat>)
    requires IsChain(m, At(q), qs) && Positive(m) && m[q].refs != 1
    ensures IsChain(Freed(m, qs), At(q), qs)
    ensures forall a :: a in qs ==>
              a in m && a in Freed(m, qs) && Freed(m, qs)[a].payload == m[a].payload && Freed(m, qs)[a].len == m[a].len
  {
    ChainIn(m, At(q), qs);
    ChainFrame(m, Freed(m, qs), At(q), qs);
  }

  lemma DetachedShift(x: nat, y: nat)
    requires x < WRAP16 && y < WRAP16
    ensures Plus((x + y) % WRAP16, WRAP16 - y) == x
    ensures (WRAP16 - y) % WRAP16 == 0 <==> y == 0
  {
    AddMod(WRAP16 - y, x + y);
    ModShift(x, 1);
  }

  lemma DetachedMoves(m: Mem, p: nat, q: nat)
    requires p in m && q in m && p != q && Totals(m) && Sized(m) && m[p].next == At(q)
    ensures m[q].tot < WRAP16 && Shifted(m, Detached(m, p, q), [p], WRAP16 - m[q].tot)
    ensures (WRAP16 - m[q].tot) % WRAP16 == 0 <==> m[q].tot == 0
  {
    DetachedTail(m, p, q);
    assert TotalOk(m, p) && TotalOk(m, q);
    DetachedShift(m[p].len, m[q].tot);
    assert TotalOk(Detached(m, p, q), p);
  }

  /** No buffer of a chain points to its first. */
  lemma PointsOutside(m: Mem, ps: seq<nat>, b: nat)
    requires ps != [] && IsChain(m, At(ps[0]), ps) && b in m && m[b].next == At(ps[0])
    ensures b !in ps
  {
    ChainLinked(m, At(ps[0]), ps, |ps|);
    ChainNoDup(m, At(ps[0]), ps);
  }

  /** pbuf_dechain keeps the totals right exactly when nothing points to `p`, or the tail is empty. */
  lemma DechainTotals(m: Mem, ext: multiset<nat>, p: nat, ps: seq<nat>)
    requires Totals(m) && RefInv(m, ext) && Narrow(m) && Sized(m) && IsChain(m, At(p), ps) && AllIn(m, ps) && |ps| >= 2
    ensures Totals(Dechained(m, ps)) <==> Unshared(m, [p]) || m[ps[1]].tot == 0
  {
    var q, rest := ps[1], ps[1..];
    var d := Detached(m, p, q);
    ChainLinked(m, At(p), ps, |ps|);
    DetachedChain(m, p, ps);
    DetachedRefs(m, ext, p, q);
    DetachedMoves(m, p, q);
    ShiftKeepsTotals(m, d, [p], WRAP16 - m[q].tot);
    if Totals(d) {
      FreedTotals(d, ext, At(q), rest);
    } else if Totals(Dechained(m, ps)) {
      var b :| b in m && m[b].next.At? && m[b].next.a in [p] && b !in [p];
      PointsOutside(m, ps, b);
      FreedTotalsBack(d, ext, At(q), rest, b);
      ShiftOutside(m, d, [p], WRAP16 - m[q].tot, b);
    }
  }

  // ----- The 8-bit count of freed buffers -----

  /** The tail pointer pbuf_dechain returns: NULL unless the count it gets from pbuf_free is 0. */
  function DechainResult(m: Mem, ps: seq<nat>): Ptr
  {
    if |ps| < 2 || Run(m, ps[1..]) % 256 != 0 then Null else At(ps[1])
  }

  /** pbuf_dechain returns the tail that is left, or NULL when there is none, exactly unless a multiple of 256
      buffers was freed: then it returns a freed one. */
  lemma DechainResultExact(m: Mem, p: nat, ps: seq<nat>)
    requires IsChain(m, At(p), ps) && AllIn(m, ps) && Positive(m) && |ps| >= 2
    ensures DechainResult(m, ps) == (if ps[1] in Dechained(m, ps) then At(ps[1]) else Null)
       <==> Run(m, ps[1..]) == 0 || Run(m, ps[1..]) % 256 != 0
  {
    var d, rest := Detached(m, p, ps[1]), ps[1..];
    DetachedChain(m, p, ps);
    DetachedRun(m, p, ps);
    FreedExactly(d, At(ps[1]), rest, ps[1]);
    if Run(d, rest) > 0 {
      assert rest[..Run(d, rest)][0] == ps[1];
    } else {
      assert rest[..0] == [];
    }
  }

  function Nums(i: nat, n: nat): seq<nat>
    requires i <= n
    decreases n - i
  {
    if i == n then [] else [i] + Nums(i + 1, n)
  }

  lemma {:induction false} NumsHas(i: nat, n: nat)
    requires i <= n
    ensures |Nums(i, n)| == n - i && forall a :: a in Nums(i, n) <==> i <= a < n
    decreases n - i
  {
    if i < n { NumsHas(i + 1, n); }
  }

  /** `n` buffers in a row, each with one reference. */
  function Row(n: nat): Mem
  {
    map a | a in Nums(0, n) :: Pbuf(if a + 1 < n then At(a + 1) else Null, [], 0, 0, 1)
  }

  ghost predicate RowAt(m: Mem, n: nat, a: nat)
  {
    a in m && m[a].refs == 1 && m[a].next == if a + 1 < n then At(a + 1) else Null
  }

  lemma {:induction false} RowChain(m: Mem, i: nat, n: nat)
    requires i <= n && forall a :: i <= a < n ==> RowAt(m, n, a)
    ensures IsChain(m, if i < n then At(i) else Null, Nums(i, n)) && Run(m, Nums(i, n)) == n - i
    decreases n - i
  {
    if i < n {
      assert RowAt(m, n, i);
      RowChain(m, i + 1, n);
      assert Nums(i, n)[1..] == Nums(i + 1, n);
    }
  }

  lemma RowPreds(n: nat, a: nat)
    requires a < n
    ensures Preds(Row(n), a) == if a == 0 then {} else {a - 1}
  {
    NumsHas(0, n);
  }

  lemma RowHas(n: nat)
    ensures forall a :: a in Row(n) <==> 0 <= a < n
    ensures forall a :: 0 <= a < n ==> RowAt(Row(n), n, a) && Row(n)[a].len == 0 && Row(n)[a].tot == 0
  {
    NumsHas(0, n);
  }

  /** A reference to the first buffer from outside makes the accounts of such a row right; so are its totals. */
  lemma RowRefs(n: nat)
    requires 1 < n
    ensures RefInv(Row(n), multiset{0}) && Narrow(Row(n)) && Totals(Row(n)) && Sized(Row(n))
  {
    var m := Row(n);
    RowHas(n);
    forall a | a in m
      ensures CountOk(m, multiset{0}, a) && LinkOk(m, a) && HasChain(m, At(a)) && TotalOk(m, a)
    {
      assert RowAt(m, n, a);
      RowPreds(n, a);
      RowChain(m, a, n);
    }
  }

  /** Such rows with a multiple of 256 buffers behind the first, all accounts and totals right: pbuf_dechain frees them
      all and returns one. */
  lemma DechainDangles(n: nat)
    requires 1 < n && (n - 1) % 256 == 0
    ensures var m, ps := Row(n), Nums(0, n);
            && RefInv(m, multiset{0}) && Narrow(m) && Totals(m) && Sized(m)
            && IsChain(m, At(0), ps) && AllIn(m, ps) && |ps| == n
            && DechainResult(m, ps) == At(ps[1]) && ps[1] !in Dechained(m, ps)
  {
    var m, ps := Row(n), Nums(0, n);
    NumsHas(0, n);
    RowHas(n);
    RowRefs(n);
    RowChain(m, 0, n);
    RowChain(m, 1, n);
    assert ps[1..] == Nums(1, n);
    ChainIn(m, At(0), ps);
    DechainResultExact(m, 0, ps);
  }
}
