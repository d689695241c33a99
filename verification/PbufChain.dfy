/**
  The memory of server_code/shinjuku-rocksdb/dp/lwip/pbuf.c: packet buffers at addresses, linked by `next`. A
  chain is the list of addresses from a buffer to the end.
 */
module PbufChains {
  import opened Widths
  import opened Pointers

  /** struct pbuf. `len`, `tot` and `refs` are 16 bits wide in the source. */
  datatype Pbuf = Pbuf(next: Ptr, payload: seq<Byte>, len: nat, tot: nat, refs: nat)

  type Mem = map<nat, Pbuf>

  ghost predicate IsChain(m: Mem, p: Ptr, ps: seq<nat>)
    decreases ps
  {
    if ps == [] then p == Null
    else p == At(ps[0]) && ps[0] in m && IsChain(m, m[ps[0]].next, ps[1..])
  }

  ghost predicate HasChain(m: Mem, p: Ptr)
  {
    exists ps :: IsChain(m, p, ps)
  }

  lemma {:induction false} ChainUnique(m: Mem, p: Ptr, ps: seq<nat>, qs: seq<nat>)
    requires IsChain(m, p, ps) && IsChain(m, p, qs)
    ensures ps == qs
    decreases ps
  {
    if ps != [] {
      ChainUnique(m, m[ps[0]].next, ps[1..], qs[1..]);
      assert ps == [ps[0]] + ps[1..] && qs == [qs[0]] + qs[1..];
    }
  }

  lemma {:induction false} ChainAt(m: Mem, p: Ptr, ps: seq<nat>, i: nat)
    requires IsChain(m, p, ps) && i <= |ps|
    ensures IsChain(m, Place(ps, i), ps[i..])
    ensures i < |ps| ==> ps[i] in m && m[ps[i]].next == Place(ps, i + 1)
    decreases ps
  {
    if i == 0 {
      assert ps[0..] == ps;
    } else {
      ChainAt(m, m[ps[0]].next, ps[1..], i - 1);
      assert ps[1..][i - 1..] == ps[i..];
    }
  }

  /** A chain ends, so it meets no buffer twice. */
  lemma ChainDistinct(m: Mem, p: Ptr, ps: seq<nat>, i: nat, j: nat)
    requires IsChain(m, p, ps) && i < j < |ps|
    ensures ps[i] != ps[j]
  {
    ChainAt(m, p, ps, i);
    ChainAt(m, p, ps, j);
    if ps[i] == ps[j] {
      ChainUnique(m, At(ps[i]), ps[i..], ps[j..]);
    }
  }

  lemma ChainNoDup(m: Mem, p: Ptr, ps: seq<nat>)
    requires IsChain(m, p, ps)
    ensures forall i, j :: 0 <= i < j < |ps| ==> ps[i] != ps[j]
    ensures ps != [] ==> ps[0] !in ps[1..]
  {
    forall i, j | 0 <= i < j < |ps|
      ensures ps[i] != ps[j]
    {
      ChainDistinct(m, p, ps, i, j);
    }
  }

  lemma {:induction false} ChainIn(m: Mem, p: Ptr, ps: seq<nat>)
    requires IsChain(m, p, ps)
    ensures forall a :: a in ps ==> a in m
    decreases ps
  {
    if ps != [] { ChainIn(m, m[ps[0]].next, ps[1..]); }
  }

  /** Only the links of its own buffers make a chain. */
  lemma {:induction false} ChainFrame(m: Mem, m': Mem, p: Ptr, ps: seq<nat>)
    requires IsChain(m, p, ps)
    requires forall a :: a in ps && a in m ==> a in m' && m'[a].next == m[a].next
    ensures IsChain(m', p, ps)
    decreases ps
  {
    if ps != [] {
      assert ps[0] in ps;
      assert forall a :: a in ps[1..] ==> a in ps;
      ChainFrame(m, m', m[ps[0]].next, ps[1..]);
    }
  }

  /** A chain whose last link is turned to another chain goes on there. */
  lemma {:induction false} ChainJoin(m: Mem, m': Mem, p: Ptr, ps: seq<nat>, t: Ptr, ts: seq<nat>)
    requires IsChain(m, p, ps) && ps != [] && IsChain(m', t, ts)
    requires forall i :: 0 <= i < |ps| - 1 && ps[i] in m ==> ps[i] in m' && m'[ps[i]].next == m[ps[i]].next
    requires ps[|ps| - 1] in m' && m'[ps[|ps| - 1]].next == t
    ensures IsChain(m', p, ps + ts)
    decreases ps
  {
    assert (ps + ts)[0] == ps[0] && (ps + ts)[1..] == ps[1..] + ts;
    if |ps| > 1 {
      assert forall i :: 0 <= i < |ps[1..]| - 1 ==> ps[1..][i] == ps[i + 1];
      ChainJoin(m, m', m[ps[0]].next, ps[1..], t, ts);
    } else {
      assert ps[1..] + ts == ts;
    }
  }

  // ----- Lengths and bytes -----

  /** The bytes a buffer shows. */
  function Shown(b: Pbuf): seq<Byte>
  {
    if b.len <= |b.payload| then b.payload[..b.len] else b.payload
  }

  function Len(m: Mem, ps: seq<nat>): nat
  {
    if ps == [] then 0 else (if ps[0] in m then m[ps[0]].len else 0) + Len(m, ps[1..])
  }

  function Content(m: Mem, ps: seq<nat>): seq<Byte>
  {
    if ps == [] then [] else (if ps[0] in m then Shown(m[ps[0]]) else []) + Content(m, ps[1..])
  }

  ghost predicate Sized(m: Mem)
  {
    forall a :: a in m ==> m[a].len <= |m[a].payload| && m[a].len < WRAP16
  }

  lemma {:induction false} ContentLength(m: Mem, ps: seq<nat>)
    requires Sized(m)
    ensures |Content(m, ps)| == Len(m, ps)
  {
    if ps != [] { ContentLength(m, ps[1..]); }
  }

  lemma {:induction false} ContentFrame(m: Mem, m': Mem, ps: seq<nat>)
    requires forall a :: a in ps ==>
               (a in m <==> a in m') && (a in m ==> m[a].payload == m'[a].payload && m[a].len == m'[a].len)
    ensures Content(m, ps) == Content(m', ps) && Len(m, ps) == Len(m', ps)
  {
    if ps != [] {
      assert ps[0] in ps;
      assert forall a :: a in ps[1..] ==> a in ps;
      ContentFrame(m, m', ps[1..]);
    }
  }

  lemma {:induction false} ContentAppend(m: Mem, ps: seq<nat>, qs: seq<nat>)
    ensures Content(m, ps + qs) == Content(m, ps) + Content(m, qs)
    ensures Len(m, ps + qs) == Len(m, ps) + Len(m, qs)
  {
    if ps == [] {
      assert [] + qs == qs;
    } else {
      ContentAppend(m, ps[1..], qs);
      ContentFirst(m, ps, qs);
    }
  }

  lemma ContentFirst(m: Mem, ps: seq<nat>, qs: seq<nat>)
    requires ps != []
    ensures Len(m, ps + qs) == (if ps[0] in m then m[ps[0]].len else 0) + Len(m, ps[1..] + qs)
    ensures Content(m, ps + qs) == (if ps[0] in m then Shown(m[ps[0]]) else []) + Content(m, ps[1..] + qs)
  {
    assert (ps + qs)[0] == ps[0] && (ps + qs)[1..] == ps[1..] + qs;
  }

  /** The content around the buffer at index `k`. */
  lemma SplitAt(m: Mem, ps: seq<nat>, k: nat)
    requires k < |ps| && ps[k] in m
    ensures Content(m, ps) == Content(m, ps[..k]) + (Shown(m[ps[k]]) + Content(m, ps[k + 1..]))
    ensures Len(m, ps) == Len(m, ps[..k]) + m[ps[k]].len + Len(m, ps[k + 1..])
    ensures Content(m, ps[..k + 1]) == Content(m, ps[..k]) + Shown(m[ps[k]])
    ensures Len(m, ps[..k + 1]) == Len(m, ps[..k]) + m[ps[k]].len
  {
    ContentAppend(m, ps[..k], ps[k..]);
    assert ps == ps[..k] + ps[k..];
    assert ps[k..][0] == ps[k] && ps[k..][1..] == ps[k + 1..];
    ContentAppend(m, ps[..k], [ps[k]]);
    assert ps[..k + 1] == ps[..k] + [ps[k]] && [ps[k]][1..] == [];
  }

  // ----- tot_len -----

  function TotAt(m: Mem, p: Ptr): nat
  {
    if p.At? && p.a in m then m[p.a].tot else 0
  }

  /** tot_len counts the bytes from this buffer on, as far as 16 bits go. */
  ghost predicate TotalOk(m: Mem, a: nat)
    requires a in m
  {
    m[a].tot == (m[a].len + TotAt(m, m[a].next)) % WRAP16
  }

  ghost predicate Totals(m: Mem)
  {
    forall a {:trigger TotalOk(m, a)} :: a in m ==> TotalOk(m, a)
  }

  lemma AddMod(x: nat, y: nat)
    ensures (x + y % WRAP16) % WRAP16 == (x + y) % WRAP16
  {
    assert y == WRAP16 * (y / WRAP16) + y % WRAP16;
    ModShift(x + y % WRAP16, y / WRAP16);
  }

  lemma {:induction false} ModShift(x: nat, k: nat)
    ensures (x + WRAP16 * k) % WRAP16 == x % WRAP16
  {
    if k > 0 {
      ModShift(x, k - 1);
      assert x + WRAP16 * k == (x + WRAP16 * (k - 1)) + WRAP16;
    }
  }

  lemma {:induction false} TotalMeans(m: Mem, p: Ptr, ps: seq<nat>)
    requires Totals(m) && IsChain(m, p, ps)
    ensures TotAt(m, p) == Len(m, ps) % WRAP16
    decreases ps
  {
    if ps != [] {
      assert TotalOk(m, ps[0]);
      TotalMeans(m, m[ps[0]].next, ps[1..]);
      AddMod(m[ps[0]].len, Len(m, ps[1..]));
    }
  }
}
