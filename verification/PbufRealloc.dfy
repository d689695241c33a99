/**
  pbuf_realloc of dp/lwip/pbuf.c: shrink a chain to its first `n` bytes and free what is behind them.
 */
module PbufRealloc {
  import opened Widths
  import opened Pointers
  import opened PbufChains
  import opened PbufRefs
  import opened PbufEdits

  /** The index of the buffer in which byte `n` is, the new last one. */
  function KeepIndex(m: Mem, ps: seq<nat>, n: nat): (k: nat)
    ensures ps != [] ==> k < |ps|
    decreases ps
  {
    if |ps| >= 2 && ps[0] in m && m[ps[0]].len < n then 1 + KeepIndex(m, ps[1..], n - m[ps[0]].len) else 0
  }

  lemma {:induction false} KeepFits(m: Mem, ps: seq<nat>, n: nat)
    requires ps != [] && AllIn(m, ps) && n <= Len(m, ps)
    ensures var k := KeepIndex(m, ps, n);
            Len(m, ps[..k]) <= n <= Len(m, ps[..k]) + m[ps[k]].len && (k > 0 ==> Len(m, ps[..k]) < n)
    decreases ps
  {
    var k := KeepIndex(m, ps, n);
    assert ps[0] in ps;
    if k > 0 {
      assert forall a :: a in ps[1..] ==> a in ps;
      KeepFits(m, ps[1..], n - m[ps[0]].len);
      assert ps[..k][1..] == ps[1..][..k - 1];
    } else if |ps| == 1 {
      assert ps[1..] == [];
    }
  }

  /** The memory when the walk is over and the last buffer is cut, before the rest is freed. */
  function Cut(m: Mem, ps: seq<nat>, k: nat, rem: nat, d: nat): Mem
    requires k < |ps| && ps[k] in m
  {
    var m1 := AddTot(m, ps[..k], d);
    m1[ps[k] := m1[ps[k]].(len := rem, tot := rem, next := Null)]
  }

  /** The memory after pbuf_realloc; the 16-bit `grow` is added to the totals of the buffers it steps over. */
  function Reallocated(m: Mem, ps: seq<nat>, n: nat): Mem
    requires ps != [] && AllIn(m, ps) && (n < m[ps[0]].tot ==> n <= Len(m, ps))
  {
    if n >= m[ps[0]].tot then m
    else
      KeepFits(m, ps, n);
      var k := KeepIndex(m, ps, n);
      Freed(Cut(m, ps, k, n - Len(m, ps[..k]), Minus(n, m[ps[0]].tot)), ps[k + 1..])
  }

  // ----- Totals -----

  lemma ModIs(x: int, k: int, r: int)
    requires x == r + 0x1_0000 * k && 0 <= r < 0x1_0000
    ensures x % 0x1_0000 == r
  {
  }

  lemma CutShift(before: nat, from: nat, n: nat)
    requires before <= n < WRAP16
    ensures Plus(from % WRAP16, Minus(n, (before + from) % WRAP16)) == n - before
  {
    var t, z := (before + from) % WRAP16, Minus(n, (before + from) % WRAP16);
    var q1, q2, q3 := (before + from) / 0x1_0000, from / 0x1_0000, (n - t) / 0x1_0000;
    assert before + from == 0x1_0000 * q1 + t && from == 0x1_0000 * q2 + from % WRAP16 && n - t == 0x1_0000 * q3 + z;
    ModIs(from % WRAP16 + z, q1 - q2 - q3, n - before);
  }

  lemma MinusZero(n: nat, t: nat)
    requires n < t < WRAP16
    ensures Minus(n, t) % WRAP16 != 0
  {
  }

  lemma CutShifted(m: Mem, p: nat, ps: seq<nat>, k: nat, rem: nat, d: nat)
    requires IsChain(m, At(p), ps) && k < |ps| && ps[k] in m && rem == Plus(m[ps[k]].tot, d)
    ensures Shifted(m, Cut(m, ps, k, rem, d), ps[..k + 1], d)
  {
    ChainLinked(m, At(p), ps, k + 1);
    ChainNoDup(m, At(p), ps);
    CutShape(m, ps, k, rem, d);
  }

  lemma CutTotal(m: Mem, p: nat, ps: seq<nat>, k: nat, n: nat)
    requires Totals(m) && IsChain(m, At(p), ps) && k < |ps| && Len(m, ps[..k]) <= n < WRAP16
    ensures p in m && ps[k] in m && Plus(m[ps[k]].tot, Minus(n, m[p].tot)) == n - Len(m, ps[..k])
  {
    SplitTotals(m, p, ps, k);
    CutShift(Len(m, ps[..k]), Len(m, ps[k..]), n);
  }

  lemma SplitTotals(m: Mem, p: nat, ps: seq<nat>, k: nat)
    requires Totals(m) && IsChain(m, At(p), ps) && k < |ps|
    ensures p in m && m[p].tot == (Len(m, ps[..k]) + Len(m, ps[k..])) % WRAP16
    ensures ps[k] in m && m[ps[k]].tot == Len(m, ps[k..]) % WRAP16
  {
    ChainAt(m, At(p), ps, k);
    TotalMeans(m, At(p), ps);
    TotalMeans(m, At(ps[k]), ps[k..]);
    LenSplit(m, ps, k);
  }

  lemma LenSplit(m: Mem, ps: seq<nat>, k: nat)
    requires k <= |ps|
    ensures Len(m, ps) == Len(m, ps[..k]) + Len(m, ps[k..])
  {
    ContentAppend(m, ps[..k], ps[k..]);
    assert ps[..k] + ps[k..] == ps;
  }

  lemma CutShape(m: Mem, ps: seq<nat>, k: nat, rem: nat, d: nat)
    requires k < |ps| && Linked(m, ps[..k + 1]) && ps[k] in m && ps[k] !in ps[..k]
    requires rem == Plus(m[ps[k]].tot, d)
    requires forall i, j :: 0 <= i < j < |ps| ==> ps[i] != ps[j]
    ensures Shifted(m, Cut(m, ps, k, rem, d), ps[..k + 1], d)
  {
    var qs, m' := ps[..k + 1], Cut(m, ps, k, rem, d);
    assert qs == ps[..k] + [ps[k]];
    assert forall i :: 0 <= i < k ==> qs[i] == ps[i] && ps[i] in ps[..k] && qs[i] in m;
    assert TotalOk(m', qs[k]);
  }

  /** The references: the link behind the new last buffer is given up to pbuf_free. */
  lemma CutRefs(m: Mem, ext: multiset<nat>, p: nat, ps: seq<nat>, k: nat, rem: nat, d: nat)
    requires RefInv(m, ext) && IsChain(m, At(p), ps) && k < |ps| && ps[k] in m
    ensures RefInv(Cut(m, ps, k, rem, d), ext + Bag(Place(ps, k + 1)))
    ensures IsChain(Cut(m, ps, k, rem, d), Place(ps, k + 1), ps[k + 1..])
  {
    assert ext + Bag(Null) == ext;
    ChainAt(m, At(p), ps, k);
    ChainAt(m, At(p), ps, k + 1);
    LinkKeeps(m, ext, ps[k], Null, []);
    SameRefs(SetNext(m, ps[k], Null), Cut(m, ps, k, rem, d), ext + Bag(Place(ps, k + 1)));
    CutTail(m, p, ps, k, rem, d);
  }

  lemma CutTail(m: Mem, p: nat, ps: seq<nat>, k: nat, rem: nat, d: nat)
    requires IsChain(m, At(p), ps) && k < |ps| && ps[k] in m
    ensures ps[k] !in ps[k + 1..]
    ensures IsChain(Cut(m, ps, k, rem, d), Place(ps, k + 1), ps[k + 1..])
  {
    ChainAt(m, At(p), ps, k + 1);
    ChainNoDup(m, At(p), ps);
    ChainFrame(m, Cut(m, ps, k, rem, d), Place(ps, k + 1), ps[k + 1..]);
  }

  lemma ReallocKeepsRefs(m: Mem, ext: multiset<nat>, p: nat, ps: seq<nat>, n: nat)
    requires RefInv(m, ext) && Narrow(m) && IsChain(m, At(p), ps) && AllIn(m, ps) && (n < m[p].tot ==> n <= Len(m, ps))
    ensures RefInv(Reallocated(m, ps, n), ext)
  {
    var k := KeepIndex(m, ps, n);
    if n < m[p].tot {
      KeepFits(m, ps, n);
      CutFreedRefs(m, ext, p, ps, k, n - Len(m, ps[..k]), Minus(n, m[p].tot));
    }
  }

  lemma CutFreedRefs(m: Mem, ext: multiset<nat>, p: nat, ps: seq<nat>, k: nat, rem: nat, d: nat)
    requires RefInv(m, ext) && Narrow(m) && IsChain(m, At(p), ps) && k < |ps| && ps[k] in m
    ensures RefInv(Freed(Cut(m, ps, k, rem, d), ps[k + 1..]), ext)
  {
    CutRefs(m, ext, p, ps, k, rem, d);
    FreedKeeps(Cut(m, ps, k, rem, d), ext, Place(ps, k + 1), ps[k + 1..]);
  }

  /** The rest is freed, and no outside buffer that points into the stretch is in the rest. */
  lemma FreedIff(m: Mem, c: Mem, qs: seq<nat>, d: nat, ext: multiset<nat>, q: Ptr, rest: seq<nat>)
    requires Totals(m) && c.Keys == m.Keys && Shifted(m, c, qs, d) && d % WRAP16 != 0
    requires RefInv(c, ext + Bag(q)) && Narrow(c) && IsChain(c, q, rest)
    requires forall b :: b in m && m[b].next.At? && m[b].next.a in qs && b !in qs ==> b !in rest && m[b].next.a in m
    ensures Totals(Freed(c, rest)) <==> Unshared(m, qs)
  {
    ShiftKeepsTotals(m, c, qs, d);
    if Unshared(m, qs) {
      FreedTotals(c, ext, q, rest);
    } else if Totals(Freed(c, rest)) {
      var b :| b in m && m[b].next.At? && m[b].next.a in qs && b !in qs;
      FreedTotalsBack(c, ext, q, rest, b);
      ShiftOutside(m, c, qs, d, b);
    }
  }

  lemma ReallocIs(m: Mem, ps: seq<nat>, n: nat)
    requires ps != [] && AllIn(m, ps) && n <= Len(m, ps) && n < m[ps[0]].tot
    ensures var k := KeepIndex(m, ps, n);
            && k < |ps| && ps[k] in m && Len(m, ps[..k]) <= n <= Len(m, ps[..k]) + m[ps[k]].len
            && Reallocated(m, ps, n) == Freed(Cut(m, ps, k, n - Len(m, ps[..k]), Minus(n, m[ps[0]].tot)), ps[k + 1..])
  {
    KeepFits(m, ps, n);
    assert ps[KeepIndex(m, ps, n)] in ps;
  }

  lemma GrowNotZero(m: Mem, p: nat, n: nat)
    requires Totals(m) && p in m && n < m[p].tot
    ensures Minus(n, m[p].tot) % WRAP16 != 0
  {
    TotalBelow(m, p);
    MinusZero(n, m[p].tot);
  }

  /** pbuf_realloc keeps all totals right exactly when no other buffer points into what is kept. */
  lemma ReallocTotals(m: Mem, ext: multiset<nat>, p: nat, ps: seq<nat>, n: nat)
    requires RefInv(m, ext) && Narrow(m) && Totals(m)
    requires IsChain(m, At(p), ps) && AllIn(m, ps) && n <= Len(m, ps) && n < m[p].tot
    ensures Totals(Reallocated(m, ps, n)) <==> Unshared(m, ps[..KeepIndex(m, ps, n) + 1])
  {
    ReallocIs(m, ps, n);
    CutTotals(m, ext, p, ps, n, KeepIndex(m, ps, n));
  }

  lemma CutTotals(m: Mem, ext: multiset<nat>, p: nat, ps: seq<nat>, n: nat, k: nat)
    requires RefInv(m, ext) && Narrow(m) && Totals(m) && k < |ps| && Len(m, ps[..k]) <= n
    requires IsChain(m, At(p), ps) && ps[k] in m && p in m && n < m[p].tot
    ensures Totals(Freed(Cut(m, ps, k, n - Len(m, ps[..k]), Minus(n, m[p].tot)), ps[k + 1..])) <==>
            Unshared(m, ps[..k + 1])
  {
    TotalBelow(m, p);
    CutTotal(m, p, ps, k, n);
    GrowNotZero(m, p, n);
    CutFreedIff(m, ext, p, ps, k, n - Len(m, ps[..k]), Minus(n, m[p].tot));
  }

  lemma TotalBelow(m: Mem, a: nat)
    requires Totals(m) && a in m
    ensures m[a].tot < WRAP16
  {
    assert TotalOk(m, a);
  }

  lemma CutFreedIff(m: Mem, ext: multiset<nat>, p: nat, ps: seq<nat>, k: nat, rem: nat, d: nat)
    requires RefInv(m, ext) && Narrow(m) && Totals(m) && IsChain(m, At(p), ps) && k < |ps| && ps[k] in m
             && d % WRAP16 != 0
    requires rem == Plus(m[ps[k]].tot, d)
    ensures Totals(Freed(Cut(m, ps, k, rem, d), ps[k + 1..])) <==> Unshared(m, ps[..k + 1])
  {
    CutShifted(m, p, ps, k, rem, d);
    CutRefs(m, ext, p, ps, k, rem, d);
    TailsPointAway(m, p, ps, k);
    FreedIff(m, Cut(m, ps, k, rem, d), ps[..k + 1], d, ext, Place(ps, k + 1), ps[k + 1..]);
  }

  lemma TailsPointAway(m: Mem, p: nat, ps: seq<nat>, k: nat)
    requires IsChain(m, At(p), ps) && k < |ps|
    ensures forall b :: b in m && m[b].next.At? && m[b].next.a in ps[..k + 1] && b !in ps[..k + 1] ==>
              b !in ps[k + 1..] && m[b].next.a in m
  {
    forall b | b in m && m[b].next.At? && m[b].next.a in ps[..k + 1] && b !in ps[..k + 1]
      ensures b !in ps[k + 1..] && m[b].next.a in m
    {
      TailPointsAway(m, p, ps, k, b);
    }
  }

  /** The freed tail does not point back into what is kept. */
  lemma TailPointsAway(m: Mem, p: nat, ps: seq<nat>, k: nat, b: nat)
    requires IsChain(m, At(p), ps) && k < |ps| && b in m && m[b].next.At? && m[b].next.a in ps[..k + 1]
             && b !in ps[..k + 1]
    ensures b !in ps[k + 1..] && m[b].next.a in m
  {
    ChainLinked(m, At(p), ps, |ps|);
    ChainNoDup(m, At(p), ps);
    var j :| 0 <= j <= k && ps[j] == m[b].next.a;
    forall i | k + 1 <= i < |ps|
      ensures ps[i] != b
    {
      assert m[ps[i]].next == Place(ps, i + 1);
    }
  }

  // ----- Contents -----

  lemma CutContent(m: Mem, p: nat, ps: seq<nat>, k: nat, rem: nat, d: nat)
    requires IsChain(m, At(p), ps) && Sized(m) && k < |ps| && ps[k] in m && rem <= m[ps[k]].len
    ensures Len(m, ps[..k]) + rem <= |Content(m, ps)|
    ensures Content(Cut(m, ps, k, rem, d), ps[..k + 1]) == Content(m, ps)[..Len(m, ps[..k]) + rem]
  {
    var c, front := Cut(m, ps, k, rem, d), Content(m, ps[..k]);
    ChainNoDup(m, At(p), ps);
    ContentFrame(m, c, ps[..k]);
    SplitAt(c, ps, k);
    SplitAt(m, ps, k);
    ContentLength(m, ps[..k]);
    TakeFront(front, m[ps[k]].payload, m[ps[k]].len, Content(m, ps[k + 1..]), rem);
  }

  lemma TakeFront(front: seq<Byte>, payload: seq<Byte>, len: nat, rest: seq<Byte>, rem: nat)
    requires rem <= len <= |payload|
    ensures (front + (payload[..len] + rest))[..|front| + rem] == front + payload[..rem]
  {
  }

  /** pbuf_realloc leaves exactly the first `n` bytes of the chain, or the whole chain when that is no less. */
  lemma ReallocKeepsPrefix(m: Mem, p: nat, ps: seq<nat>, n: nat)
    requires IsChain(m, At(p), ps) && AllIn(m, ps) && Positive(m) && Sized(m) && (n < m[p].tot ==> n <= Len(m, ps))
    ensures var m' := Reallocated(m, ps, n);
            var qs := if n < m[p].tot then ps[..KeepIndex(m, ps, n) + 1] else ps;
            && IsChain(m', At(p), qs)
            && |Content(m, ps)| == Len(m, ps)
            && (n < m[p].tot ==> qs <= ps && (|qs| == 1 || Len(m, qs[..|qs| - 1]) < n))
            && Content(m', qs) == if n < m[p].tot then Content(m, ps)[..n] else Content(m, ps)
  {
    ContentLength(m, ps);
    if n < m[p].tot {
      ReallocIs(m, ps, n);
      KeepFits(m, ps, n);
      var k := KeepIndex(m, ps, n);
      assert ps[..k + 1][..k] == ps[..k];
      CutPrefix(m, p, ps, k, n - Len(m, ps[..k]), Minus(n, m[p].tot), n);
    }
  }

  lemma CutPrefix(m: Mem, p: nat, ps: seq<nat>, k: nat, rem: nat, d: nat, n: nat)
    requires IsChain(m, At(p), ps) && AllIn(m, ps) && Positive(m) && Sized(m)
    requires k < |ps| && rem <= m[ps[k]].len && n == Len(m, ps[..k]) + rem
    ensures var m' := Freed(Cut(m, ps, k, rem, d), ps[k + 1..]);
            && IsChain(m', At(p), ps[..k + 1]) && n <= |Content(m, ps)|
            && Content(m', ps[..k + 1]) == Content(m, ps)[..n]
  {
    CutContent(m, p, ps, k, rem, d);
    FrontStays(m, p, ps, k, rem, d);
  }

  /** The buffers that are kept are not among the freed ones. */
  lemma FrontStays(m: Mem, p: nat, ps: seq<nat>, k: nat, rem: nat, d: nat)
    requires IsChain(m, At(p), ps) && AllIn(m, ps) && Positive(m) && k < |ps|
    ensures var c := Cut(m, ps, k, rem, d);
            var m' := Freed(c, ps[k + 1..]);
            IsChain(m', At(p), ps[..k + 1]) && Content(m', ps[..k + 1]) == Content(c, ps[..k + 1])
  {
    var c, qs, rest := Cut(m, ps, k, rem, d), ps[..k + 1], ps[k + 1..];
    var m' := Freed(c, rest);
    forall a | a in qs
      ensures a in c && a in m' && m'[a] == c[a]
    {
      KeptStays(m, p, ps, k, rem, d, a);
    }
    CutFront(m, p, ps, k, rem, d);
    ChainFrame(c, m', At(ps[0]), qs);
    ContentFrame(c, m', qs);
  }

  lemma CutFront(m: Mem, p: nat, ps: seq<nat>, k: nat, rem: nat, d: nat)
    requires IsChain(m, At(p), ps) && AllIn(m, ps) && k < |ps|
    ensures ps[0] == p && IsChain(Cut(m, ps, k, rem, d), At(p), ps[..k + 1])
  {
    ChainNoDup(m, At(p), ps);
    ChainLinked(m, At(p), ps, |ps|);
    FrontChain(Cut(m, ps, k, rem, d), ps, k);
  }

  lemma KeptStays(m: Mem, p: nat, ps: seq<nat>, k: nat, rem: nat, d: nat, a: nat)
    requires IsChain(m, At(p), ps) && AllIn(m, ps) && Positive(m) && k < |ps| && a in ps[..k + 1]
    ensures var c := Cut(m, ps, k, rem, d);
            var m' := Freed(c, ps[k + 1..]);
            a in c && a in m' && m'[a] == c[a]
  {
    var c, rest := Cut(m, ps, k, rem, d), ps[k + 1..];
    CutTail(m, p, ps, k, rem, d);
    ChainNoDup(m, At(p), ps);
    assert a !in rest;
    assert rest[..Run(c, rest)] <= rest;
    FreedExactly(c, Place(ps, k + 1), rest, a);
  }

  /** A stretch whose last link is cut is a chain. */
  lemma {:induction false} FrontChain(c: Mem, ps: seq<nat>, k: nat)
    requires k < |ps| && AllIn(c, ps[..k + 1]) && c[ps[k]].next == Null
    requires forall i :: 0 <= i < k ==> c[ps[i]].next == At(ps[i + 1])
    ensures IsChain(c, At(ps[0]), ps[..k + 1])
    decreases k
  {
    assert ps[0] in ps[..k + 1];
    if k == 0 {
      assert ps[..1] == [ps[0]] && [ps[0]][1..] == [];
    } else {
      assert ps[..k + 1][1..] == ps[1..][..k];
      assert forall a :: a in ps[1..][..k] ==> a in ps[..k + 1];
      FrontChain(c, ps[1..], k - 1);
    }
  }

  /** The source frees the tail while the last buffer still points to it, and cuts the link after that. */
  lemma {:induction false} FreeThenUnlink(m: Mem, b: nat, rest: seq<nat>)
    requires b in m && b !in rest
    ensures b in Freed(m, rest) && SetNext(Freed(m, rest), b, Null) == Freed(SetNext(m, b, Null), rest)
    decreases rest
  {
    if rest != [] && rest[0] in m {
      assert rest[0] in rest;
      assert forall a :: a in rest[1..] ==> a in rest;
      if m[rest[0]].refs == 1 {
        FreeThenUnlink(m - {rest[0]}, b, rest[1..]);
        assert SetNext(m, b, Null) - {rest[0]} == SetNext(m - {rest[0]}, b, Null);
      }
    }
  }
}
