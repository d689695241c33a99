/**
  The two-level allocator of server_code/shinjuku-rocksdb/libix/mempool.h and mempool.c, and of dp/core/mempool.c:
  any number of pools, each with a free list and a private chunk, over one datastore of chunks. The links are in
  the free elements themselves, where their owner may write anything while they are allocated.
 */
module Mempools {
  import opened Pointers
  import opened MempoolLedger

  /** struct mempool_hdr, at the start of a free element. */
  datatype Hdr = Hdr(next: Ptr, nextChunk: Ptr)

  type Mem = map<nat, Hdr>

  /** The fields of struct mempool that change. */
  datatype Pool = Pool(head: Ptr, privateChunk: Ptr, numAlloc: int, numFree: int)

  ghost predicate IsList(h: Mem, p: Ptr, s: seq<nat>)
    decreases s
  {
    if s == [] then p == Null else p == At(s[0]) && s[0] in h && IsList(h, h[s[0]].next, s[1..])
  }

  /** The chunks of the datastore, linked through their first elements. */
  ghost predicate IsChunks(h: Mem, p: Ptr, cs: seq<seq<nat>>)
    decreases cs
  {
    if cs == [] then p == Null
    else cs[0] != [] && IsList(h, p, cs[0]) && IsChunks(h, h[cs[0][0]].nextChunk, cs[1..])
  }

  function Elems(ls: seq<seq<nat>>): multiset<nat>
  {
    if ls == [] then multiset{} else multiset(ls[0]) + Elems(ls[1..])
  }

  lemma {:induction false} ElemsUpdate(ls: seq<seq<nat>>, l: nat, x: seq<nat>)
    requires l < |ls|
    ensures forall e :: Elems(ls[l := x])[e] + multiset(ls[l])[e] == Elems(ls)[e] + multiset(x)[e]
  {
    var u := ls[l := x];
    if l == 0 {
      assert u[1..] == ls[1..];
    } else {
      assert u[1..] == ls[1..][l - 1 := x];
      ElemsUpdate(ls[1..], l - 1, x);
    }
  }

  lemma {:induction false} InElems(ls: seq<seq<nat>>, l: nat, e: nat)
    requires l < |ls| && e in ls[l]
    ensures e in Elems(ls)
  {
    if l > 0 { InElems(ls[1..], l - 1, e); }
  }

  lemma {:induction false} ListFrame(h: Mem, h': Mem, p: Ptr, s: seq<nat>)
    requires IsList(h, p, s)
    requires forall e :: e in s && e in h ==> e in h' && h'[e].next == h[e].next
    ensures IsList(h', p, s)
    decreases s
  {
    if s != [] {
      assert s[0] in s;
      assert forall e :: e in s[1..] ==> e in s;
      ListFrame(h, h', h[s[0]].next, s[1..]);
    }
  }

  lemma {:induction false} ChunksFrame(h: Mem, h': Mem, p: Ptr, cs: seq<seq<nat>>)
    requires IsChunks(h, p, cs)
    requires forall e :: e in Elems(cs) && e in h ==> e in h' && h'[e] == h[e]
    ensures IsChunks(h', p, cs)
    decreases cs
  {
    if cs != [] {
      forall e | e in cs[0] && e in h
        ensures e in h' && h'[e].next == h[e].next
      {
        InElems(cs, 0, e);
      }
      ListFrame(h, h', p, cs[0]);
      InElems(cs, 0, cs[0][0]);
      assert forall e :: e in Elems(cs[1..]) ==> e in Elems(cs);
      ChunksFrame(h, h', h[cs[0][0]].nextChunk, cs[1..]);
    }
  }

  /** Every element is in exactly one place: one position of one list, one position of one chunk, or allocated. */
  ghost predicate Conserved(all: set<nat>, lists: seq<seq<nat>>, chunks: seq<seq<nat>>, used: set<nat>)
  {
    forall e {:trigger Once(all, lists, chunks, used, e)} :: Once(all, lists, chunks, used, e)
  }

  ghost predicate Once(all: set<nat>, lists: seq<seq<nat>>, chunks: seq<seq<nat>>, used: set<nat>, e: nat)
  {
    Elems(lists)[e] + Elems(chunks)[e] + Flag(e in used) == Flag(e in all)
  }

  function Flag(b: bool): nat
  {
    if b then 1 else 0
  }

  lemma OnlyOnce(all: set<nat>, lists: seq<seq<nat>>, chunks: seq<seq<nat>>, used: set<nat>, e: nat)
    requires Conserved(all, lists, chunks, used)
    ensures e in all <==> e in used || e in Elems(lists) || e in Elems(chunks)
    ensures e in used ==> e !in Elems(lists) && e !in Elems(chunks)
    ensures e in Elems(lists) ==> e !in Elems(chunks) && Elems(lists)[e] == 1
    ensures Elems(chunks)[e] <= 1
  {
    assert Once(all, lists, chunks, used, e);
  }

  lemma FreeElsewhere(all: set<nat>, lists: seq<seq<nat>>, chunks: seq<seq<nat>>, used: set<nat>, l: nat)
    requires Conserved(all, lists, chunks, used) && l < |lists| && lists[l] != []
    ensures lists[l][0] in all && lists[l][0] !in Elems(chunks)
  {
    InElems(lists, l, lists[l][0]);
    OnlyOnce(all, lists, chunks, used, lists[l][0]);
  }

  /** The first element of list `l` becomes allocated. */
  lemma TakeConserves(all: set<nat>, lists: seq<seq<nat>>, chunks: seq<seq<nat>>, used: set<nat>, l: nat)
    requires Conserved(all, lists, chunks, used) && l < |lists| && lists[l] != []
    ensures lists[l][0] in all && lists[l][0] !in used
    ensures Conserved(all, lists[l := lists[l][1..]], chunks, used + {lists[l][0]})
  {
    var e := lists[l][0];
    InElems(lists, l, e);
    OnlyOnce(all, lists, chunks, used, e);
    ElemsUpdate(lists, l, lists[l][1..]);
    assert lists[l] == [e] + lists[l][1..];
    var ls, cs, us := lists[l := lists[l][1..]], chunks, used + {lists[l][0]};
    forall d: nat
      ensures Once(all, ls, cs, us, d)
    {
      assert Once(all, lists, chunks, used, d);
    }
  }

  /** An allocated element goes to the front of list `l`. */
  lemma PutConserves(all: set<nat>, lists: seq<seq<nat>>, chunks: seq<seq<nat>>, used: set<nat>, l: nat, e: nat)
    requires Conserved(all, lists, chunks, used) && l < |lists| && e in used
    ensures Conserved(all, lists[l := [e] + lists[l]], chunks, used - {e})
  {
    ElemsUpdate(lists, l, [e] + lists[l]);
    var ls, cs, us := lists[l := [e] + lists[l]], chunks, used - {e};
    forall d: nat
      ensures Once(all, ls, cs, us, d)
    {
      assert Once(all, lists, chunks, used, d);
    }
  }

  /** List `l` moves to the empty list `k`. */
  lemma MoveConserves(all: set<nat>, lists: seq<seq<nat>>, chunks: seq<seq<nat>>, used: set<nat>, l: nat, k: nat)
    requires Conserved(all, lists, chunks, used) && l < |lists| && k < |lists| && l != k && lists[k] == []
    ensures Conserved(all, lists[k := lists[l]][l := []], chunks, used)
  {
    ElemsUpdate(lists, k, lists[l]);
    ElemsUpdate(lists[k := lists[l]], l, []);
    var ls, cs, us := lists[k := lists[l]][l := []], chunks, used;
    forall d: nat
      ensures Once(all, ls, cs, us, d)
    {
      assert Once(all, lists, chunks, used, d);
    }
  }

  /** List `l` becomes the first chunk of the datastore. */
  lemma StoreConserves(all: set<nat>, lists: seq<seq<nat>>, chunks: seq<seq<nat>>, used: set<nat>, l: nat)
    requires Conserved(all, lists, chunks, used) && l < |lists|
    ensures Conserved(all, lists[l := []], [lists[l]] + chunks, used)
  {
    ElemsUpdate(lists, l, []);
    assert ([lists[l]] + chunks)[1..] == chunks;
    var ls, cs, us := lists[l := []], [lists[l]] + chunks, used;
    forall d: nat
      ensures Once(all, ls, cs, us, d)
    {
      assert Once(all, lists, chunks, used, d);
    }
  }

  /** The first chunk of the datastore becomes the empty list `l`. */
  lemma FetchConserves(all: set<nat>, lists: seq<seq<nat>>, chunks: seq<seq<nat>>, used: set<nat>, l: nat)
    requires Conserved(all, lists, chunks, used) && l < |lists| && lists[l] == [] && chunks != []
    ensures Conserved(all, lists[l := chunks[0]], chunks[1..], used)
  {
    ElemsUpdate(lists, l, chunks[0]);
    var ls, cs, us := lists[l := chunks[0]], chunks[1..], used;
    forall d: nat
      ensures Once(all, ls, cs, us, d)
    {
      assert Once(all, lists, chunks, used, d);
    }
  }

  /** The pointer to list `l`: free lists at even places, private chunks at odd ones. */
  function Start(pools: seq<Pool>, l: nat): Ptr
    requires l < 2 * |pools|
  {
    if l % 2 == 0 then pools[l / 2].head else pools[l / 2].privateChunk
  }

  ghost predicate Linked(h: Mem, pools: seq<Pool>, first: Ptr, lists: seq<seq<nat>>, chunks: seq<seq<nat>>)
  {
    && |lists| == 2 * |pools|
    && (forall l {:trigger ListAt(h, pools, lists, l)} :: 0 <= l < |lists| ==> ListAt(h, pools, lists, l))
    && IsChunks(h, first, chunks)
  }

  ghost predicate ListAt(h: Mem, pools: seq<Pool>, lists: seq<seq<nat>>, l: nat)
    requires |lists| == 2 * |pools|
  {
    l < |lists| && IsList(h, Start(pools, l), lists[l])
  }

  /** Writing the header of an element that is in no list and no chunk. */
  lemma UnusedFrame(h: Mem, pools: seq<Pool>, first: Ptr, lists: seq<seq<nat>>, chunks: seq<seq<nat>>, e: nat, v: Hdr)
    requires Linked(h, pools, first, lists, chunks) && e !in Elems(lists) && e !in Elems(chunks)
    ensures Linked(h[e := v], pools, first, lists, chunks)
  {
    var h' := h[e := v];
    forall l | 0 <= l < |lists|
      ensures ListAt(h', pools, lists, l)
    {
      assert ListAt(h, pools, lists, l);
      if e in lists[l] { InElems(lists, l, e); }
      ListFrame(h, h[e := v], Start(pools, l), lists[l]);
    }
    ChunksFrame(h, h[e := v], first, chunks);
  }

  /** A new free list for pool `i`. */
  lemma SetHead(h: Mem, pools: seq<Pool>, first: Ptr, lists: seq<seq<nat>>, chunks: seq<seq<nat>>, i: nat, q: Pool,
                s: seq<nat>)
    requires Linked(h, pools, first, lists, chunks) && i < |pools| && IsList(h, q.head, s)
             && q.privateChunk == pools[i].privateChunk
    ensures Linked(h, pools[i := q], first, lists[2 * i := s], chunks)
  {
    var lists', pools' := lists[2 * i := s], pools[i := q];
    forall l | 0 <= l < |lists'|
      ensures ListAt(h, pools', lists', l)
    {
      assert ListAt(h, pools, lists, l);
    }
  }

  /** A new private chunk for pool `i`. */
  lemma SetPrivate(h: Mem, pools: seq<Pool>, first: Ptr, lists: seq<seq<nat>>, chunks: seq<seq<nat>>, i: nat, q: Pool,
                   s: seq<nat>)
    requires Linked(h, pools, first, lists, chunks) && i < |pools| && IsList(h, q.privateChunk, s)
             && q.head == pools[i].head
    ensures Linked(h, pools[i := q], first, lists[2 * i + 1 := s], chunks)
  {
    var lists', pools' := lists[2 * i + 1 := s], pools[i := q];
    forall l | 0 <= l < |lists'|
      ensures ListAt(h, pools', lists', l)
    {
      assert ListAt(h, pools, lists, l);
    }
  }

  /** List `l` is linked in front of the chunks. */
  lemma PushChunk(h: Mem, pools: seq<Pool>, first: Ptr, lists: seq<seq<nat>>, chunks: seq<seq<nat>>, l: nat)
    requires Linked(h, pools, first, lists, chunks) && l < |lists| && lists[l] != [] && lists[l][0] in h
             && lists[l][0] !in Elems(chunks)
    ensures var e := lists[l][0];
            var h' := h[e := h[e].(nextChunk := first)];
            Linked(h', pools, At(e), lists, [lists[l]] + chunks)
  {
    var e := lists[l][0];
    var h' := h[e := h[e].(nextChunk := first)];
    forall k | 0 <= k < |lists|
      ensures ListAt(h', pools, lists, k)
    {
      assert ListAt(h, pools, lists, k);
      ListFrame(h, h', Start(pools, k), lists[k]);
    }
    assert ListAt(h', pools, lists, l);
    ChunksFrame(h, h', first, chunks);
    assert ([lists[l]] + chunks)[1..] == chunks;
  }

  lemma PrivateIs(h: Mem, pools: seq<Pool>, first: Ptr, lists: seq<seq<nat>>, chunks: seq<seq<nat>>, i: nat)
    requires Linked(h, pools, first, lists, chunks) && i < |pools|
    ensures lists[2 * i + 1] == [] <==> pools[i].privateChunk == Null
    ensures lists[2 * i + 1] != [] ==> pools[i].privateChunk == At(lists[2 * i + 1][0])
  {
    assert ListAt(h, pools, lists, 2 * i + 1);
  }

  lemma RetireLinked(h: Mem, pools: seq<Pool>, first: Ptr, lists: seq<seq<nat>>, chunks: seq<seq<nat>>, i: nat)
    requires Linked(h, pools, first, lists, chunks) && i < |pools| && lists[2 * i + 1] != []
    requires lists[2 * i + 1][0] in h && lists[2 * i + 1][0] !in Elems(chunks)
    ensures var c := lists[2 * i + 1][0];
            Linked(h[c := h[c].(nextChunk := first)], pools[i := pools[i].(privateChunk := Null)], At(c),
                   lists[2 * i + 1 := []],
                   [lists[2 * i + 1]] + chunks)
  {
    var c := lists[2 * i + 1][0];
    PushChunk(h, pools, first, lists, chunks, 2 * i + 1);
    SetPrivate(h[c := h[c].(nextChunk := first)], pools, At(c), lists, [lists[2 * i + 1]] + chunks, i,
               pools[i].(privateChunk := Null), []);
  }

  lemma FillLinked(h: Mem, pools: seq<Pool>, first: Ptr, lists: seq<seq<nat>>, chunks: seq<seq<nat>>, i: nat, e: nat,
                   n: int)
    requires Linked(h, pools, first, lists, chunks) && i < |pools| && e in h && h[e].next == Null
    ensures Linked(h, pools[i := Pool(At(e), pools[i].head, pools[i].numAlloc, n)], first,
                   lists[2 * i + 1 := lists[2 * i]][2 * i := [e]], chunks)
  {
    assert ListAt(h, pools, lists, 2 * i);
    var q := pools[i].(privateChunk := pools[i].head);
    SetPrivate(h, pools, first, lists, chunks, i, q, lists[2 * i]);
    assert [e][1..] == [];
    SetHead(h, pools[i := q], first, lists[2 * i + 1 := lists[2 * i]], chunks, i, q.(head := At(e), numFree := n), [e]);
    assert pools[i := q][i := q.(head := At(e), numFree := n)] ==
          pools[i := Pool(At(e), pools[i].head, pools[i].numAlloc, n)];
  }

  lemma FillConserves(all: set<nat>, lists: seq<seq<nat>>, chunks: seq<seq<nat>>, used: set<nat>, i: nat, e: nat)
    requires Conserved(all, lists, chunks, used) && 2 * i + 1 < |lists| && lists[2 * i + 1] == [] && e in used
    ensures Conserved(all, lists[2 * i + 1 := lists[2 * i]][2 * i := [e]], chunks, used - {e})
  {
    MoveConserves(all, lists, chunks, used, 2 * i, 2 * i + 1);
    var moved := lists[2 * i + 1 := lists[2 * i]][2 * i := []];
    PutConserves(all, moved, chunks, used, 2 * i, e);
    assert [e] + moved[2 * i] == [e];
    assert moved[2 * i := [e] + moved[2 * i]] == lists[2 * i + 1 := lists[2 * i]][2 * i := [e]];
  }

  lemma {:induction false} NoElems(ls: seq<seq<nat>>)
    requires forall l :: 0 <= l < |ls| ==> ls[l] == []
    ensures Elems(ls) == multiset{}
  {
    if ls != [] { NoElems(ls[1..]); }
  }

  class Allocator {
    ghost const all: set<nat>
    const chunkSize: int
    /** dp/core resets `num_free` when a chunk is retired, libix does not. */
    const resets: bool
    var hdr: Mem
    var chunkHead: Ptr
    var freeChunks: int
    var pools: seq<Pool>
    ghost var lists: seq<seq<nat>>
    ghost var chunks: seq<seq<nat>>
    ghost var used: set<nat>

    /** Every element is in exactly one place, `free_chunks` counts the chunks, and `num_free` is never above
        the chunk size, so the assertion of mempool_free_2 never fires. */
    ghost predicate Valid()
      reads this
    {
      && 1 <= chunkSize && all <= hdr.Keys
      && Linked(hdr, pools, chunkHead, lists, chunks) && Conserved(all, lists, chunks, used)
      && freeChunks == |chunks|
      && forall i :: 0 <= i < |pools| ==> pools[i].numFree <= chunkSize
    }

    /** The bookkeeping of pool `i`. */
    ghost function Account(i: nat): Ledger
      requires 2 * i + 1 < |lists| && i < |pools|
      reads this
    {
      Ledger(|lists[2 * i]|, |lists[2 * i + 1]|, pools[i].numFree)
    }

    /** What an allocation from pool `i` does. */
    ghost function AllocAct(i: nat): Act
      requires 2 * i + 1 < |lists| && i < |pools|
      reads this
    {
      if lists[2 * i] != [] then Pop
      else if lists[2 * i + 1] != [] then FetchPrivate
      else FetchChunk(if chunks == [] then 0 else |chunks[0]|)
    }

    /** What a free into pool `i` does. */
    ghost function FreeAct(i: nat): Act
      requires i < |pools|
      reads this
    {
      if pools[i].numFree < chunkSize then Push else Retire
    }

    /** A datastore with its chunks as created, and pools that have nothing yet (mempool_create on zeroed memory). */
    constructor (mem: Mem, first: Ptr, count: int, size: int, npools: nat, reset: bool, ghost cs: seq<seq<nat>>,
                 ghost elems: set<nat>)
      requires 1 <= size && elems <= mem.Keys && IsChunks(mem, first, cs) && Elems(cs) == multiset(elems)
               && count == |cs|
      ensures Valid() && used == {} && |pools| == npools && chunkSize == size && resets == reset && chunks == cs
              && all == elems
      ensures forall i :: 0 <= i < npools ==> Account(i) == Ledger(0, 0, 0)
    {
      all := elems;
      chunkSize, resets := size, reset;
      hdr, chunkHead, freeChunks := mem, first, count;
      pools := seq(npools, i => Pool(Null, Null, 0, 0));
      lists := seq(2 * npools, i => []);
      chunks, used := cs, {};
      new;
      NoElems(lists);
    }

    /** Only pool `i` changed, its counters by what was allocated and freed on the fast paths. */
    ghost predicate Counts(was: seq<Pool>, i: nat, allocs: int, frees: int)
      reads this
      requires i < |was|
    {
      && |pools| == |was| && (forall k :: 0 <= k < |was| && k != i ==> pools[k] == was[k])
      && pools[i].numAlloc == was[i].numAlloc + allocs - frees && pools[i].numFree == was[i].numFree - allocs + frees
    }

    /** mempool_alloc: an element that was not allocated, or NULL only when the pool's list, its private chunk and
        the datastore are all empty. */
    method Alloc(i: nat) returns (r: Ptr)
      requires Valid() && i < |pools|
      modifies this
      ensures Valid() && |pools| == old(|pools|)
      ensures r == Null <==> old(Start(pools, 2 * i) == Null && Start(pools, 2 * i + 1) == Null && chunkHead == Null)
      ensures r == Null ==>
                used == old(used) && lists == old(lists) && chunks == old(chunks) && pools == old(pools)
                && hdr == old(hdr)
      ensures r.At? ==> r.a in all && r.a !in old(used) && used == old(used) + {r.a}
      ensures Counts(old(pools), i, if old(pools[i].head) == Null then 0 else 1, 0)
      ensures old(lists[2 * i]) != [] ==> lists == old(lists[2 * i := lists[2 * i][1..]]) && chunks == old(chunks)
      ensures old(lists[2 * i] == [] && lists[2 * i + 1] != []) ==>
                lists == old(lists[2 * i + 1 := []][2 * i := lists[2 * i + 1][1..]]) && chunks == old(chunks)
      ensures old(lists[2 * i] == [] && lists[2 * i + 1] == [] && chunks != []) ==>
                lists == old(lists[2 * i := chunks[0][1..]]) && chunks == old(chunks[1..])
      ensures r.At? ==> old(Possible(Account(i), AllocAct(i), chunkSize))
      ensures r.At? ==> Account(i) == old(Next(Account(i), AllocAct(i), chunkSize, resets))
    {
      assert ListAt(hdr, pools, lists, 2 * i);
      var h := pools[i].head;
      if h == Null {
        PrivateIs(hdr, pools, chunkHead, lists, chunks, i);
        assert IsChunks(hdr, chunkHead, chunks) && (chunks != [] ==> chunks[0] != []);
        r := Alloc2(i);
        return;
      }
      TakeConserves(all, lists, chunks, used, 2 * i);
      var q := pools[i].(head := hdr[h.a].next, numAlloc := pools[i].numAlloc + 1, numFree := pools[i].numFree - 1);
      SetHead(hdr, pools, chunkHead, lists, chunks, i, q, lists[2 * i][1..]);
      pools := pools[i := q];
      lists, used := lists[2 * i := lists[2 * i][1..]], used + {h.a};
      return h;
    }

    /** mempool_alloc_2: the private chunk, or else a chunk of the datastore; all but its first element stay free. */
    method Alloc2(i: nat) returns (r: Ptr)
      requires Valid() && i < |pools| && pools[i].head == Null
      modifies this
      ensures Valid() && |pools| == old(|pools|)
      ensures r == Null <==> old(Start(pools, 2 * i + 1) == Null && chunkHead == Null)
      ensures r == Null ==>
                used == old(used) && lists == old(lists) && chunks == old(chunks) && pools == old(pools)
                && hdr == old(hdr)
      ensures r.At? ==> r.a in all && r.a !in old(used) && used == old(used) + {r.a}
      ensures Counts(old(pools), i, 0, 0)
      ensures old(lists[2 * i + 1]) != [] ==>
                lists == old(lists[2 * i + 1 := []][2 * i := lists[2 * i + 1][1..]]) && chunks == old(chunks)
      ensures old(lists[2 * i + 1] == [] && chunks != []) ==>
                lists == old(lists[2 * i := chunks[0][1..]]) && chunks == old(chunks[1..])
    {
      assert ListAt(hdr, pools, lists, 2 * i) && ListAt(hdr, pools, lists, 2 * i + 1);
      var h := pools[i].privateChunk;
      if h.At? {
        MoveConserves(all, lists, chunks, used, 2 * i + 1, 2 * i);
        var q := pools[i].(privateChunk := Null);
        SetPrivate(hdr, pools, chunkHead, lists, chunks, i, q, []);
        assert lists[2 * i := lists[2 * i + 1]][2 * i + 1 := []] == lists[2 * i + 1 := []][2 * i := lists[2 * i + 1]];
        assert lists[2 * i + 1 := []][2 * i := lists[2 * i + 1]][2 * i := []] == lists[2 * i + 1 := []];
        TakeFirst(i, h, pools[i := q], chunkHead, lists[2 * i + 1 := []][2 * i := lists[2 * i + 1]], chunks);
      } else {
        h := chunkHead;
        if h == Null {
          return h;
        }
        FetchConserves(all, lists, chunks, used, 2 * i);
        freeChunks := freeChunks - 1;
        assert lists[2 * i := chunks[0]][2 * i := []] == lists;
        TakeFirst(i, h, pools, hdr[h.a].nextChunk, lists[2 * i := chunks[0]], chunks[1..]);
      }
      return h;
    }

    /** The list at `h` becomes the pool's list, without its first element. */
    method TakeFirst(i: nat, h: Ptr, ps: seq<Pool>, first: Ptr, ghost ls: seq<seq<nat>>, ghost cs: seq<seq<nat>>)
      requires i < |ps| && |ls| == 2 * |ps| && h.At? && ls[2 * i] != [] && IsList(hdr, h, ls[2 * i])
      requires Linked(hdr, ps, first, ls[2 * i := []], cs) && Conserved(all, ls, cs, used) && ps[i].head == Null
      modifies this`pools, this`chunkHead, this`lists, this`chunks, this`used
      ensures Linked(hdr, pools, chunkHead, lists, chunks) && Conserved(all, lists, chunks, used) && chunks == cs
      ensures pools == ps[i := ps[i].(head := hdr[h.a].next)] && lists == ls[2 * i := ls[2 * i][1..]]
      ensures h.a in all && h.a !in old(used) && used == old(used) + {h.a}
    {
      TakeConserves(all, ls, cs, used, 2 * i);
      SetHead(hdr, ps, first, ls[2 * i := []], cs, i, ps[i].(head := hdr[h.a].next), ls[2 * i][1..]);
      assert ls[2 * i := []][2 * i := ls[2 * i][1..]] == ls[2 * i := ls[2 * i][1..]];
      pools, chunkHead := ps[i := ps[i].(head := hdr[h.a].next)], first;
      lists, chunks, used := ls[2 * i := ls[2 * i][1..]], cs, used + {h.a};
    }

    /** mempool_free: back to the front of the pool's list, or to mempool_free_2 when that is full. */
    method Free(i: nat, e: nat)
      requires Valid() && i < |pools| && e in used
      modifies this
      ensures Valid() && |pools| == old(|pools|) && used == old(used) - {e}
      ensures old(pools[i].numFree) < chunkSize ==>
                lists == old(lists[2 * i := [e] + lists[2 * i]]) && chunks == old(chunks) && Counts(old(pools), i, 0, 1)
      ensures old(pools[i].numFree) == chunkSize ==>
                && lists == old(lists[2 * i + 1 := lists[2 * i]][2 * i := [e]])
                && chunks == old(if lists[2 * i + 1] == [] then chunks else [lists[2 * i + 1]] + chunks)
                && Counts(old(pools[i := pools[i].(numFree := if resets then 1 else pools[i].numFree)]), i, 0, 0)
      ensures old(Possible(Account(i), FreeAct(i), chunkSize))
      ensures Account(i) == old(Next(Account(i), FreeAct(i), chunkSize, resets))
    {
      if pools[i].numFree < chunkSize {
        assert ListAt(hdr, pools, lists, 2 * i);
        var q := pools[i].(numFree := pools[i].numFree + 1, numAlloc := pools[i].numAlloc - 1, head := At(e));
        SetLink(e, pools[i].head);
        assert ListAt(hdr, pools, lists, 2 * i);
        assert ([e] + lists[2 * i])[1..] == lists[2 * i];
        SetHead(hdr, pools, chunkHead, lists, chunks, i, q, [e] + lists[2 * i]);
        PutConserves(all, lists, chunks, used, 2 * i, e);
        pools := pools[i := q];
        lists, used := lists[2 * i := [e] + lists[2 * i]], used - {e};
      } else {
        Free2(i, e);
      }
    }

    /** elem->next; no list and no chunk runs through an allocated element. */
    method SetLink(e: nat, next: Ptr)
      requires all <= hdr.Keys && Linked(hdr, pools, chunkHead, lists, chunks) && Conserved(all, lists, chunks, used)
               && e in used
      modifies this`hdr
      ensures all <= hdr.Keys && Linked(hdr, pools, chunkHead, lists, chunks) && e in hdr && hdr[e].next == next
    {
      OnlyOnce(all, lists, chunks, used, e);
      UnusedFrame(hdr, pools, chunkHead, lists, chunks, e, hdr[e].(next := next));
      hdr := hdr[e := hdr[e].(next := next)];
    }

    /** mempool_free_2: the full list becomes the private chunk, and the private chunk before it goes to the
        datastore. */
    method Free2(i: nat, e: nat)
      requires Valid() && i < |pools| && e in used && pools[i].numFree == chunkSize
      modifies this
      ensures Valid() && |pools| == old(|pools|) && used == old(used) - {e}
      ensures lists == old(lists[2 * i + 1 := lists[2 * i]][2 * i := [e]])
      ensures chunks == old(if lists[2 * i + 1] == [] then chunks else [lists[2 * i + 1]] + chunks)
      ensures Counts(old(pools[i := pools[i].(numFree := if resets then 1 else pools[i].numFree)]), i, 0, 0)
    {
      SetLink(e, Null);
      PrivateIs(hdr, pools, chunkHead, lists, chunks, i);
      if pools[i].privateChunk.At? {
        RetirePrivate(i, pools[i].privateChunk.a);
      }
      FillLinked(hdr, pools, chunkHead, lists, chunks, i, e, if resets then 1 else pools[i].numFree);
      FillConserves(all, lists, chunks, used, i, e);
      pools := pools[i := Pool(At(e), pools[i].head, pools[i].numAlloc, if resets then 1 else pools[i].numFree)];
      lists, used := lists[2 * i + 1 := lists[2 * i]][2 * i := [e]], used - {e};
    }

    /** The locked part of mempool_free_2. The pool's own pointer to the chunk is overwritten after it. */
    method RetirePrivate(i: nat, c: nat)
      requires all <= hdr.Keys && Linked(hdr, pools, chunkHead, lists, chunks) && Conserved(all, lists, chunks, used)
      requires i < |pools| && 2 * i + 1 < |lists| && lists[2 * i + 1] != [] && c == lists[2 * i + 1][0]
      modifies this`hdr, this`chunkHead, this`freeChunks, this`pools, this`lists, this`chunks
      ensures all <= hdr.Keys && Linked(hdr, pools, chunkHead, lists, chunks) && Conserved(all, lists, chunks, used)
      ensures hdr.Keys == old(hdr).Keys && forall d :: d in hdr ==> hdr[d].next == old(hdr)[d].next
      ensures pools == old(pools)[i := old(pools)[i].(privateChunk := Null)] && lists == old(lists[2 * i + 1 := []])
      ensures chunks == old([lists[2 * i + 1]] + chunks) && freeChunks == old(freeChunks) + 1
    {
      FreeElsewhere(all, lists, chunks, used, 2 * i + 1);
      RetireLinked(hdr, pools, chunkHead, lists, chunks, i);
      StoreConserves(all, lists, chunks, used, 2 * i + 1);
      hdr := hdr[c := hdr[c].(nextChunk := chunkHead)];
      chunkHead := At(c);
      freeChunks := freeChunks + 1;
      pools := pools[i := pools[i].(privateChunk := Null)];
      lists, chunks := lists[2 * i + 1 := []], [lists[2 * i + 1]] + chunks;
    }

    /** libix does not reset `num_free`, so a pool at its limit retires every further element as a chunk of its own,
        whatever the chunk size. */
    method OneElementChunks(i: nat, a: nat, b: nat, c: nat)
      requires Valid() && i < |pools| && pools[i].numFree == chunkSize && !resets
      requires a in used && b in used && c in used && a != b && b != c && a != c
      modifies this
      ensures Valid() && |pools| == old(|pools|) && |chunks| > 0 && chunks[0] == [a] && lists[2 * i + 1] == [b]
              && lists[2 * i] == [c]
    {
      Free(i, a);
      Free(i, b);
      Free(i, c);
    }

    /** The owner of an element writes anything over its header. */
    method OwnerWrites(e: nat, v: Hdr)
      requires Valid() && e in used
      modifies this`hdr
      ensures Valid()
    {
      OnlyOnce(all, lists, chunks, used, e);
      UnusedFrame(hdr, pools, chunkHead, lists, chunks, e, v);
      hdr := hdr[e := v];
    }
  }
}
