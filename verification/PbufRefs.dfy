/**
  Reference accounting over the memory of dp/lwip/pbuf.c. `ext` is the multiset of references held from outside:
  by the protocol stack, by packet queues, by a call under way.
 */
module PbufRefs {
  import opened Widths
  import opened Pointers
  import opened PbufChains

  /** The buffers whose `next` is `a`. */
  ghost function Preds(m: Mem, a: nat): set<nat>
  {
    set b | b in m && m[b].next == At(a)
  }

  ghost predicate CountOk(m: Mem, ext: multiset<nat>, a: nat)
    requires a in m
  {
    m[a].refs == ext[a] + |Preds(m, a)|
  }

  ghost predicate Counted(m: Mem, ext: multiset<nat>)
  {
    forall a {:trigger CountOk(m, ext, a)} :: a in m ==> CountOk(m, ext, a)
  }

  ghost predicate LinkOk(m: Mem, a: nat)
    requires a in m
  {
    m[a].next.At? ==> m[a].next.a in m
  }

  /** No pointer leads to a freed buffer. */
  ghost predicate Closed(m: Mem, ext: multiset<nat>)
  {
    && (forall a :: a in ext ==> a in m)
    && (forall a {:trigger LinkOk(m, a)} :: a in m ==> LinkOk(m, a))
  }

  ghost predicate Positive(m: Mem)
  {
    forall a :: a in m ==> 0 < m[a].refs
  }

  ghost predicate Acyclic(m: Mem)
  {
    forall a {:trigger HasChain(m, At(a))} :: a in m ==> HasChain(m, At(a))
  }

  ghost predicate RefInv(m: Mem, ext: multiset<nat>)
  {
    Counted(m, ext) && Closed(m, ext) && Positive(m) && Acyclic(m)
  }

  /** The reference a pointer is. */
  function Bag(p: Ptr): multiset<nat>
  {
    if p.At? then multiset{p.a} else multiset{}
  }

  function SetNext(m: Mem, b: nat, q: Ptr): Mem
    requires b in m
  {
    m[b := m[b].(next := q)]
  }

  function SetRefs(m: Mem, a: nat, r: nat): Mem
    requires a in m
  {
    m[a := m[a].(refs := r)]
  }

  // ----- Counting links -----

  lemma PredsSetNext(m: Mem, b: nat, q: Ptr, a: nat)
    requires b in m
    ensures Preds(SetNext(m, b, q), a) == if q == At(a) then Preds(m, a) + {b} else Preds(m, a) - {b}
  {
  }

  lemma CountSetNext(m: Mem, b: nat, q: Ptr, a: nat)
    requires b in m
    ensures |Preds(SetNext(m, b, q), a)| + Bag(m[b].next)[a] == |Preds(m, a)| + Bag(q)[a]
  {
    PredsSetNext(m, b, q, a);
    if m[b].next == At(a) && q != At(a) {
      assert b in Preds(m, a);
    }
    if m[b].next != At(a) {
      assert b !in Preds(m, a);
    }
    if m[b].next == At(a) && q == At(a) {
      assert b in Preds(m, a);
      assert Preds(m, a) + {b} == Preds(m, a);
    }
    if m[b].next != At(a) && q != At(a) {
      assert Preds(m, a) - {b} == Preds(m, a);
    }
  }

  /** Turning a link gives up the reference it held and takes one over. */
  lemma SetNextCounted(m: Mem, ext: multiset<nat>, b: nat, q: Ptr)
    requires b in m && Counted(m, ext + Bag(q))
    ensures Counted(SetNext(m, b, q), ext + Bag(m[b].next))
  {
    var m' := SetNext(m, b, q);
    forall a | a in m'
      ensures CountOk(m', ext + Bag(m[b].next), a)
    {
      assert CountOk(m, ext + Bag(q), a);
      CountSetNext(m, b, q, a);
    }
  }

  lemma SetRefsPreds(m: Mem, a: nat, r: nat, x: nat)
    requires a in m
    ensures Preds(SetRefs(m, a, r), x) == Preds(m, x)
  {
  }

  /** Giving up one of several references. */
  lemma DropReference(m: Mem, ext: multiset<nat>, p: nat)
    requires p in m && Counted(m, ext + multiset{p}) && 0 < m[p].refs
    ensures Counted(SetRefs(m, p, m[p].refs - 1), ext)
  {
    var m' := SetRefs(m, p, m[p].refs - 1);
    forall a | a in m'
      ensures CountOk(m', ext, a)
    {
      assert CountOk(m, ext + multiset{p}, a);
      SetRefsPreds(m, p, m[p].refs - 1, a);
    }
  }

  lemma AddReference(m: Mem, ext: multiset<nat>, p: nat)
    requires p in m && Counted(m, ext)
    ensures Counted(SetRefs(m, p, m[p].refs + 1), ext + multiset{p})
  {
    var m' := SetRefs(m, p, m[p].refs + 1);
    forall a | a in m'
      ensures CountOk(m', ext + multiset{p}, a)
    {
      assert CountOk(m, ext, a);
      SetRefsPreds(m, p, m[p].refs + 1, a);
    }
  }

  /** Giving up the only reference to a buffer: nothing points to it. */
  lemma LastReference(m: Mem, ext: multiset<nat>, p: nat)
    requires p in m && Counted(m, ext + multiset{p}) && m[p].refs == 1
    ensures Preds(m, p) == {} && p !in ext
  {
    assert CountOk(m, ext + multiset{p}, p);
    assert |Preds(m, p)| == 0;
  }

  lemma PredsRemoved(m: Mem, p: nat, a: nat)
    ensures Preds(m - {p}, a) == Preds(m, a) - {p}
  {
  }

  /** A freed buffer hands the reference its link held to whoever frees it. */
  lemma FreeNode(m: Mem, ext: multiset<nat>, p: nat)
    requires p in m && Counted(m, ext + multiset{p}) && m[p].refs == 1
    ensures Counted(m - {p}, ext + Bag(m[p].next))
  {
    LastReference(m, ext, p);
    var m' := m - {p};
    forall a | a in m'
      ensures CountOk(m', ext + Bag(m[p].next), a)
    {
      assert CountOk(m, ext + multiset{p}, a);
      PredsRemoved(m, p, a);
      if m[p].next == At(a) {
        assert p in Preds(m, a);
      } else {
        assert Preds(m, a) - {p} == Preds(m, a);
      }
    }
  }

  // ----- pbuf_free -----

  /** What dropping one reference to the head of a chain does: buffers go while the count falls to 0. */
  function Freed(m: Mem, ps: seq<nat>): Mem
  {
    if ps == [] || ps[0] !in m then m
    else if m[ps[0]].refs == 1 then Freed(m - {ps[0]}, ps[1..])
    else SetRefs(m, ps[0], (m[ps[0]].refs + WRAP16 - 1) % WRAP16)
  }

  /** The length of the leading run of buffers with a single reference. */
  function Run(m: Mem, ps: seq<nat>): (n: nat)
    ensures n <= |ps|
  {
    if ps == [] || ps[0] !in m || m[ps[0]].refs != 1 then 0 else 1 + Run(m, ps[1..])
  }

  lemma {:induction false} RunElsewhere(m: Mem, p: nat, ps: seq<nat>)
    requires p !in ps
    ensures Run(m - {p}, ps) == Run(m, ps)
  {
    if ps != [] {
      assert ps[0] in ps;
      assert forall a :: a in ps[1..] ==> a in ps;
      RunElsewhere(m, p, ps[1..]);
    }
  }

  lemma RestChain(m: Mem, ps: seq<nat>)
    requires ps != [] && IsChain(m, At(ps[0]), ps)
    ensures ps[0] !in ps[1..] && IsChain(m - {ps[0]}, m[ps[0]].next, ps[1..])
  {
    ChainNoDup(m, At(ps[0]), ps);
    ChainFrame(m, m - {ps[0]}, m[ps[0]].next, ps[1..]);
  }

  /** pbuf_free takes away exactly the leading run, and one reference from the buffer behind it. */
  lemma {:induction false} FreedExactly(m: Mem, p: Ptr, ps: seq<nat>, a: nat)
    requires IsChain(m, p, ps) && Positive(m)
    ensures a in Freed(m, ps) <==> a in m && a !in ps[..Run(m, ps)]
    ensures a in Freed(m, ps) ==>
              Freed(m, ps)[a] ==
                if Place(ps, Run(m, ps)) == At(a) then m[a].(refs := (m[a].refs + WRAP16 - 1) % WRAP16) else m[a]
    decreases ps
  {
    if ps != [] && m[ps[0]].refs == 1 {
      var k := Run(m, ps);
      RestChain(m, ps);
      RunElsewhere(m, ps[0], ps[1..]);
      FreedExactly(m - {ps[0]}, m[ps[0]].next, ps[1..], a);
      assert ps[..k] == [ps[0]] + ps[1..][..k - 1];
      if k < |ps| {
        assert ps[k] == ps[1..][k - 1];
        ChainNoDup(m, p, ps);
      }
    }
  }

  lemma NoPreds(m: Mem, p: nat)
    requires Preds(m, p) == {}
    ensures forall b :: b in m ==> m[b].next != At(p)
  {
    forall b | b in m
      ensures m[b].next != At(p)
    {
      assert b !in Preds(m, p);
    }
  }

  lemma FreeClosed(m: Mem, ext: multiset<nat>, p: nat)
    requires p in m && Counted(m, ext + multiset{p}) && Closed(m, ext + multiset{p}) && m[p].refs == 1
    ensures Closed(m - {p}, ext + Bag(m[p].next))
  {
    LastReference(m, ext, p);
    NoPreds(m, p);
    forall a | a in ext + Bag(m[p].next)
      ensures a in m - {p}
    {
      if a in ext {
        assert a in ext + multiset{p};
      } else {
        assert m[p].next == At(a);
        assert LinkOk(m, p);
      }
    }
    forall a | a in m - {p}
      ensures LinkOk(m - {p}, a)
    {
      assert LinkOk(m, a);
    }
  }

  /** A chain that does not start at a buffer nothing points to does not meet it. */
  lemma {:induction false} ChainAvoids(m: Mem, a: Ptr, ps: seq<nat>, p: nat)
    requires IsChain(m, a, ps) && Preds(m, p) == {} && a != At(p)
    ensures p !in ps
    decreases ps
  {
    if ps != [] {
      NoPreds(m, p);
      ChainAvoids(m, m[ps[0]].next, ps[1..], p);
    }
  }

  lemma FreeAcyclic(m: Mem, p: nat)
    requires Acyclic(m) && Preds(m, p) == {}
    ensures Acyclic(m - {p})
  {
    forall a | a in m - {p}
      ensures HasChain(m - {p}, At(a))
    {
      assert HasChain(m, At(a));
      var ps :| IsChain(m, At(a), ps);
      ChainAvoids(m, At(a), ps, p);
      ChainIn(m, At(a), ps);
      ChainFrame(m, m - {p}, At(a), ps);
    }
  }

  /** Chains depend on the links alone. */
  lemma SameLinks(m: Mem, m': Mem, ext: multiset<nat>, ext': multiset<nat>)
    requires Acyclic(m) && Closed(m, ext) && (forall a :: a in ext' ==> a in ext || a in m)
    requires m'.Keys == m.Keys && forall a :: a in m ==> m'[a].next == m[a].next
    ensures Acyclic(m') && Closed(m', ext')
  {
    forall a | a in m'
      ensures HasChain(m', At(a))
    {
      assert HasChain(m, At(a));
      var ps :| IsChain(m, At(a), ps);
      ChainIn(m, At(a), ps);
      ChainFrame(m, m', At(a), ps);
    }
    forall a | a in m'
      ensures LinkOk(m', a)
    {
      assert LinkOk(m, a);
    }
  }

  lemma DropKeeps(m: Mem, ext: multiset<nat>, p: nat)
    requires RefInv(m, ext + multiset{p}) && p in m && m[p].refs > 1
    ensures RefInv(SetRefs(m, p, m[p].refs - 1), ext)
  {
    DropReference(m, ext, p);
    SameLinks(m, SetRefs(m, p, m[p].refs - 1), ext + multiset{p}, ext);
  }

  lemma FreeKeeps(m: Mem, ext: multiset<nat>, p: nat)
    requires RefInv(m, ext + multiset{p}) && p in m && m[p].refs == 1
    ensures RefInv(m - {p}, ext + Bag(m[p].next))
  {
    LastReference(m, ext, p);
    FreeNode(m, ext, p);
    FreeClosed(m, ext, p);
    FreeAcyclic(m, p);
  }

  ghost predicate Narrow(m: Mem)
  {
    forall a :: a in m ==> m[a].refs < WRAP16
  }

  lemma FreedStep(m: Mem, ps: seq<nat>)
    requires ps != [] && ps[0] in m && Narrow(m) && Positive(m)
    ensures m[ps[0]].refs == 1 ==> Freed(m, ps) == Freed(m - {ps[0]}, ps[1..])
    ensures m[ps[0]].refs > 1 ==> Freed(m, ps) == SetRefs(m, ps[0], m[ps[0]].refs - 1)
  {
    var r := m[ps[0]].refs;
    assert r > 0 ==> (r + WRAP16 - 1) % WRAP16 == r - 1;
  }

  /** pbuf_free gives up one outside reference, and the accounts are right again. */
  lemma {:induction false} FreedKeeps(m: Mem, ext: multiset<nat>, p: Ptr, ps: seq<nat>)
    requires IsChain(m, p, ps) && RefInv(m, ext + Bag(p)) && Narrow(m)
    ensures RefInv(Freed(m, ps), ext)
    decreases ps
  {
    if ps == [] {
      assert ext + Bag(p) == ext;
    } else {
      FreedStep(m, ps);
      if m[ps[0]].refs == 1 {
        FreeKeeps(m, ext, ps[0]);
        RestChain(m, ps);
        FreedKeeps(m - {ps[0]}, ext, m[ps[0]].next, ps[1..]);
      } else {
        DropKeeps(m, ext, ps[0]);
      }
    }
  }

  // ----- What the accounts mean -----

  /** `a` can be reached from an outside reference. */
  ghost predicate Held(m: Mem, ext: multiset<nat>, a: nat)
  {
    exists r, ps, i :: HeldBy(m, ext, a, r, ps, i)
  }

  ghost predicate HeldBy(m: Mem, ext: multiset<nat>, a: nat, r: nat, ps: seq<nat>, i: nat)
  {
    r in ext && IsChain(m, At(r), ps) && i < |ps| && ps[i] == a
  }

  /** With the accounts right nothing is leaked: every live buffer is reachable from outside. */
  lemma NothingLeaks(m: Mem, ext: multiset<nat>, a: nat)
    requires RefInv(m, ext) && a in m
    ensures Held(m, ext, a)
  {
    assert HasChain(m, At(a));
    var ps :| IsChain(m, At(a), ps);
    HeldThrough(m, ext, a, a, ps, 0);
  }

  /** Walk from `a` against the links: each step makes the chain longer, so it ends, and at an outside reference. */
  lemma {:induction false} HeldThrough(m: Mem, ext: multiset<nat>, a: nat, b: nat, ps: seq<nat>, i: nat)
    requires RefInv(m, ext) && a in m && b in m && IsChain(m, At(b), ps) && i < |ps| && ps[i] == a
    ensures Held(m, ext, a)
    decreases |m| - |ps|
  {
    ChainFits(m, At(b), ps);
    if b in ext {
      assert HeldBy(m, ext, a, b, ps, i);
    } else {
      assert CountOk(m, ext, b);
      assert |Preds(m, b)| > 0;
      var c :| c in Preds(m, b);
      assert ([c] + ps)[1..] == ps;
      ChainFits(m, At(c), [c] + ps);
      HeldThrough(m, ext, a, c, [c] + ps, i + 1);
    }
  }

  lemma {:induction false} ElementsOf(ps: seq<nat>) returns (s: set<nat>)
    requires forall i, j :: 0 <= i < j < |ps| ==> ps[i] != ps[j]
    ensures |s| == |ps| && forall a :: a in s <==> a in ps
  {
    if ps == [] {
      s := {};
    } else {
      var t := ElementsOf(ps[1..]);
      s := t + {ps[0]};
      assert ps == [ps[0]] + ps[1..];
    }
  }

  lemma SubsetSize(s: set<nat>, t: set<nat>)
    requires s <= t
    ensures |s| <= |t|
  {
    assert t == s + (t - s);
  }

  /** A chain is no longer than the memory. */
  lemma ChainFits(m: Mem, p: Ptr, ps: seq<nat>)
    requires IsChain(m, p, ps)
    ensures |ps| <= |m|
  {
    ChainNoDup(m, p, ps);
    ChainIn(m, p, ps);
    var s := ElementsOf(ps);
    SubsetSize(s, m.Keys);
  }

  /** And nothing reachable from outside has been freed. */
  lemma NothingDangles(m: Mem, ext: multiset<nat>, r: nat)
    requires RefInv(m, ext) && r in ext
    ensures exists ps :: IsChain(m, At(r), ps) && forall a :: a in ps ==> a in m
  {
    assert HasChain(m, At(r));
    var ps :| IsChain(m, At(r), ps);
    ChainIn(m, At(r), ps);
  }
}
