/**
  A chain with two users: pbuf_chain puts buffer 1 in front of the chain 2, 3 and its caller keeps a reference to 2.
  Every edit of the chain from 2 on then leaves buffer 1 with a wrong total.
 */
module PbufShared {
  import opened Widths
  import opened Pointers
  import opened PbufChains
  import opened PbufRefs
  import opened PbufEdits
  import opened PbufRealloc

  /** Buffer 1, the chain 2, 3, and buffer 4, one byte each, every one with a reference from outside but 3. */
  function Loose(): Mem
  {
    map[1 := Pbuf(Null, [7], 1, 1, 1), 2 := Pbuf(At(3), [8], 1, 2, 1), 3 := Pbuf(Null, [9], 1, 1, 1),
        4 := Pbuf(Null, [5], 1, 1, 1)]
  }

  /** After pbuf_chain(1, 2). */
  function Shared(): Mem
  {
    map[1 := Pbuf(At(2), [7], 1, 3, 1), 2 := Pbuf(At(3), [8], 1, 2, 2), 3 := Pbuf(Null, [9], 1, 1, 1),
        4 := Pbuf(Null, [5], 1, 1, 1)]
  }

  lemma LoosePreds()
    ensures Preds(Loose(), 1) == Preds(Loose(), 2) == Preds(Loose(), 4) == {} && Preds(Loose(), 3) == {2}
  {
  }

  lemma OneChain(m: Mem, a: nat)
    requires a in m && m[a].next == Null
    ensures IsChain(m, At(a), [a]) && Len(m, [a]) == m[a].len
  {
    assert [a][1..] == [];
  }

  lemma PairChain(m: Mem, a: nat, b: nat)
    requires a in m && b in m && m[a].next == At(b) && m[b].next == Null
    ensures IsChain(m, At(a), [a, b]) && Len(m, [a, b]) == m[a].len + m[b].len
  {
    OneChain(m, b);
    var s: seq<nat> := [a, b];
    assert s[1..] == [b];
    assert Len(m, s) == m[a].len + Len(m, s[1..]);
  }

  lemma LooseRefs()
    ensures RefInv(Loose(), multiset{1, 2, 4}) && Narrow(Loose()) && Totals(Loose())
  {
    var m := Loose();
    LoosePreds();
    PairChain(m, 2, 3);
    OneChain(m, 1);
    OneChain(m, 3);
    OneChain(m, 4);
    forall a | a in m
      ensures CountOk(m, multiset{1, 2, 4}, a) && LinkOk(m, a) && TotalOk(m, a)
    {
    }
  }

  lemma ChainedIs()
    ensures Referenced(Catted(Loose(), [1], 2), 2) == Shared()
  {
    var c := Catted(Loose(), [1], 2);
    assert c == Loose()[1 := Pbuf(At(2), [7], 1, 3, 1)];
    assert Referenced(c, 2) == c[2 := c[2].(refs := 2)];
  }

  /** A run of pbuf_chain gets there, with right accounts and right totals. */
  lemma SharedReached()
    ensures Shared() == Referenced(Catted(Loose(), [1], 2), 2)
    ensures RefInv(Shared(), multiset{1, 2, 4}) && Narrow(Shared()) && Totals(Shared()) && Sized(Shared())
  {
    var m := Loose();
    LooseRefs();
    OneChain(m, 1);
    PairChain(m, 2, 3);
    assert multiset{1, 4} + multiset{2} == multiset{1, 2, 4};
    ChainKeepsRefs(m, multiset{1, 4}, 1, [1], 2, [2, 3]);
    ChainedIs();
    SharedTotals();
  }

  lemma SharedTotals()
    ensures Totals(Shared())
  {
    var m := Shared();
    assert TotalOk(m, 1) && TotalOk(m, 2) && TotalOk(m, 3) && TotalOk(m, 4);
  }

  /** Buffer 1 points to 2 from outside the chain 2, 3. */
  lemma SharedPoints(ps: seq<nat>)
    requires 2 in ps && 1 !in ps
    ensures !Unshared(Shared(), ps)
  {
    assert Shared()[1].next == At(2);
  }

  /** pbuf_cat of 4 behind the chain from 2 on: buffer 1 still counts 3 bytes, and leads to 4. */
  lemma CatShared()
    ensures var c := Catted(Shared(), [2, 3], 4);
            !Totals(c) && c[1].tot == 3 && IsChain(c, At(1), [1, 2, 3, 4]) && Len(c, [1, 2, 3, 4]) == 4
  {
    var m := Shared();
    SharedTotals();
    PairChain(m, 2, 3);
    OneChain(m, 4);
    SharedPoints([2, 3]);
    CatTotals(m, 2, [2, 3], 4, [4]);
    var c := Catted(m, [2, 3], 4);
    FourChain(c);
  }

  lemma FourChain(c: Mem)
    requires 1 in c && 2 in c && 3 in c && 4 in c
    requires c[1].next == At(2) && c[2].next == At(3) && c[3].next == At(4) && c[4].next == Null
    requires c[1].len == c[2].len == c[3].len == c[4].len == 1
    ensures IsChain(c, At(1), [1, 2, 3, 4]) && Len(c, [1, 2, 3, 4]) == 4
  {
    PairChain(c, 3, 4);
    var t: seq<nat>, s: seq<nat> := [2, 3, 4], [1, 2, 3, 4];
    assert t[1..] == [3, 4] && s[1..] == t;
  }

  /** Buffer 2 is cut off from 3, which is freed. */
  function Severed(): Mem
  {
    map[1 := Pbuf(At(2), [7], 1, 3, 1), 2 := Pbuf(Null, [8], 1, 1, 2), 4 := Pbuf(Null, [5], 1, 1, 1)]
  }

  /** Buffer 1 counts 3 bytes where there are 2. */
  lemma SeveredWrong()
    ensures !Totals(Severed()) && IsChain(Severed(), At(1), [1, 2]) && Len(Severed(), [1, 2]) == 2
  {
    assert !TotalOk(Severed(), 1);
    PairChain(Severed(), 1, 2);
  }

  lemma FreedLast(m: Mem, a: nat)
    requires a in m && m[a].refs == 1
    ensures Freed(m, [a]) == m - {a}
  {
    assert [a][1..] == [];
  }

  /** pbuf_dechain of 2: buffer 3 is freed, and buffer 1 still counts it. */
  lemma DechainShared()
    ensures Dechained(Shared(), [2, 3]) == Severed()
  {
    var m, ps: seq<nat> := Shared(), [2, 3];
    var t := Detached(m, 2, 3);
    assert ps[1..] == [3];
    FreedLast(t, 3);
    assert t - {3} == Severed();
  }

  /** pbuf_realloc of the chain from 2 on to one byte: the same. */
  lemma ReallocShared()
    ensures AllIn(Shared(), [2, 3]) && Len(Shared(), [2, 3]) == 2
    ensures Reallocated(Shared(), [2, 3], 1) == Severed()
  {
    var m, ps: seq<nat> := Shared(), [2, 3];
    PairChain(m, 2, 3);
    ReallocIs(m, ps, 1);
    assert KeepIndex(m, ps, 1) == 0 && ps[..0] == [] && ps[1..] == [3] && Minus(1, 2) == WRAP16 - 1;
    CutAtTwo(m, ps, WRAP16 - 1);
  }

  lemma CutAtTwo(m: Mem, ps: seq<nat>, d: nat)
    requires ps == [2, 3] && m == Shared()
    ensures Freed(Cut(m, ps, 0, 1, d), [3]) == Severed()
  {
    var c := Cut(m, ps, 0, 1, d);
    assert ps[..0] == [];
    assert AddTot(m, [], d) == m;
    FreedLast(c, 3);
    assert c - {3} == Severed();
  }
}
