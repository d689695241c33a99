/**
  A run of the allocator from zeroed pages: one pool takes elements of several chunks and gives them back.
 */
module MempoolRuns {
  import opened Pointers
  import opened MempoolLedger
  import opened Mempools
  import opened MempoolPlan
  import opened MempoolInit

  ghost predicate HeldBy(got: seq<nat>, used: set<nat>)
  {
    Distinct(got) && forall k :: 0 <= k < |got| ==> got[k] in used
  }

  /** The elements of a sequence without repetitions. */
  lemma {:induction false} ElementsOf(s: seq<nat>) returns (elems: set<nat>)
    requires Distinct(s)
    ensures multiset(elems) == multiset(s)
  {
    elems := {};
    if s != [] {
      var n := |s| - 1;
      var t := ElementsOf(s[..n]);
      assert s == s[..n] + [s[n]];
      assert s[n] !in multiset(s[..n]);
      elems := t + {s[n]};
      assert multiset(elems) == multiset(t) + multiset{s[n]};
    }
  }

  lemma SpacedDistinct(all: seq<nat>, buf: nat, end: nat, len: nat, n: nat)
    requires Spaced(all, buf, end, len) && 0 < len && n <= |all|
    ensures Distinct(all[..n])
  {
  }

  /** All elements of linked chunks have headers. */
  lemma {:induction false} ChunksIn(h: Mem, p: Ptr, cs: seq<seq<nat>>)
    requires IsChunks(h, p, cs)
    ensures forall e :: e in Elems(cs) ==> e in h
    decreases cs
  {
    if cs != [] {
      ListIn(h, p, cs[0]);
      ChunksIn(h, h[cs[0][0]].nextChunk, cs[1..]);
    }
  }

  lemma {:induction false} ListIn(h: Mem, p: Ptr, s: seq<nat>)
    requires IsList(h, p, s)
    ensures forall e :: e in s ==> e in h
    decreases s
  {
    if s != [] { ListIn(h, h[s[0]].next, s[1..]); }
  }

  /** Zeroed pages for `n` chunks of `c` elements of 16 bytes, fewer than 1024 of them. */
  ghost predicate Pages(zero: Words, n: nat, c: nat)
  {
    && 0 < n && 0 < c && Sizes(0, n * c, 16, false) && LayoutRight(n * c, 16, false)
    && Clean(zero, 0, Plan(n * c, 16, false).pages * PAGE)
  }

  /** A datastore of at least `n` chunks of `c` elements, and one pool. */
  method Boot(zero: Words, n: nat, c: nat, reset: bool) returns (al: Allocator)
    requires Pages(zero, n, c)
    ensures fresh(al) && al.Valid() && al.chunkSize == c && al.resets == reset && |al.pools| == 1
            && al.Account(0) == Ledger(0, 0, 0)
    ensures n <= |al.chunks| && forall j :: 0 <= j < |al.chunks| ==> |al.chunks[j]| == c
  {
    Exactly(n, c);
    var d, ok := CreateDatastore(zero, 0, n * c, 16, false, c);
    ghost var all := Elements(0, 0, Plan(n * c, 16, false));
    ghost var cs := Chunks(all, c);
    SpacedDistinct(all, 0, Plan(n * c, 16, false).pages * PAGE, AlignUp(16), |cs| * c);
    ghost var elems := ElementsOf(all[..|cs| * c]);
    JoinedElems(cs);
    ChunksIn(Headers(d.words), d.chunkHead, cs);
    assert forall e :: e in elems ==> e in multiset(elems);
    al := new Allocator(Headers(d.words), d.chunkHead, d.freeChunks, c, 1, reset, cs, elems);
    AtLeast(n, |cs|, c);
  }

  lemma Exactly(n: nat, c: nat)
    requires 0 < n && 0 < c
    ensures n * c % c == 0 && 0 < n * c
  {
    Quotient(n * c, c, n, 0);
    Multiple(n, c);
  }

  lemma AtLeast(n: nat, m: nat, c: nat)
    requires 0 < c && n * c <= m * c
    ensures n <= m
  {
    Multiple(m - n, c);
  }

  /** Take the elements of one chunk, all of them. */
  method TakeChunk(al: Allocator, got0: seq<nat>) returns (got: seq<nat>)
    requires al.Valid() && |al.pools| == 1 && al.Account(0).len == al.Account(0).priv == 0
    requires al.chunks != [] && |al.chunks[0]| == al.chunkSize && HeldBy(got0, al.used)
    modifies al
    ensures al.Valid() && |al.pools| == 1 && al.Account(0) == Ledger(0, 0, old(al.Account(0)).free - (al.chunkSize - 1))
    ensures al.chunks == old(al.chunks[1..]) && HeldBy(got, al.used) && |got| == |got0| + al.chunkSize
  {
    assert al.lists[0] == [] && al.lists[1] == [];
    var e := Take(al);
    got := got0 + [e];
    var j := 1;
    while j < al.chunkSize
      invariant 1 <= j <= al.chunkSize && al.Valid() && |al.pools| == 1
      invariant al.Account(0) == Ledger(al.chunkSize - j, 0, old(al.Account(0)).free - (j - 1))
      invariant al.chunks == old(al.chunks[1..]) && HeldBy(got, al.used) && |got| == |got0| + j
    {
      e := Take(al);
      got := got + [e];
      j := j + 1;
    }
  }

  /** An allocation that succeeds. */
  method Take(al: Allocator) returns (e: nat)
    requires al.Valid() && |al.pools| == 1 && Possible(al.Account(0), al.AllocAct(0), al.chunkSize)
    modifies al
    ensures al.Valid() && |al.pools| == 1 && al.used == old(al.used) + {e} && e !in old(al.used)
    ensures old(Possible(al.Account(0), al.AllocAct(0), al.chunkSize))
    ensures al.Account(0) == old(Next(al.Account(0), al.AllocAct(0), al.chunkSize, al.resets))
    ensures al.chunks == if old(al.AllocAct(0).FetchChunk?) then old(al.chunks)[1..] else old(al.chunks)
  {
    var r := al.Alloc(0);
    e := r.a;
  }

  /** Give back the last of the elements. */
  method GiveBack(al: Allocator, got0: seq<nat>) returns (got: seq<nat>)
    requires al.Valid() && |al.pools| == 1 && got0 != [] && HeldBy(got0, al.used)
    modifies al
    ensures al.Valid() && |al.pools| == 1 && got == got0[..|got0| - 1] && HeldBy(got, al.used)
    ensures old(Possible(al.Account(0), al.FreeAct(0), al.chunkSize))
    ensures al.Account(0) == old(Next(al.Account(0), al.FreeAct(0), al.chunkSize, al.resets))
  {
    got := got0[..|got0| - 1];
    al.Free(0, got0[|got0| - 1]);
  }

  /** Take all elements of `n` chunks, then give elements back until `num_free` has reached the chunk size. */
  method TakeAndFill(al: Allocator, n: nat) returns (got: seq<nat>)
    requires al.Valid() && |al.pools| == 1 && al.Account(0) == Ledger(0, 0, 0) && al.chunkSize <= n <= |al.chunks|
    requires forall j :: 0 <= j < |al.chunks| ==> |al.chunks[j]| == al.chunkSize
    modifies al
    ensures al.Valid() && |al.pools| == 1 && HeldBy(got, al.used) && |got| == n - al.chunkSize
    ensures al.Account(0) == Ledger(al.chunkSize + n * (al.chunkSize - 1), 0, al.chunkSize)
  {
    var c := al.chunkSize;
    got := [];
    var q := 0;
    while q < n
      invariant 0 <= q <= n && al.Valid() && |al.pools| == 1 && al.Account(0) == Ledger(0, 0, -(q * (c - 1)))
      invariant al.chunks == old(al.chunks)[q..] && HeldBy(got, al.used) && |got| == q * c
    {
      got := TakeChunk(al, got);
      Times(q, c);
      q := q + 1;
    }
    var f := 0;
    TimesLess(n, c);
    while f < c + n * (c - 1)
      invariant 0 <= f <= c + n * (c - 1) && al.Valid() && |al.pools| == 1
                && al.Account(0) == Ledger(f, 0, f - n * (c - 1))
      invariant HeldBy(got, al.used) && |got| == n * c - f
    {
      got := GiveBack(al, got);
      f := f + 1;
    }
  }

  lemma Times(q: nat, c: nat)
    requires 0 < c
    ensures (q + 1) * (c - 1) == q * (c - 1) + (c - 1) && (q + 1) * c == q * c + c
  {
  }

  lemma TimesLess(n: nat, c: nat)
    requires 0 < c <= n
    ensures 0 <= n * (c - 1) && n * c - (c + n * (c - 1)) == n - c
  {
  }

  /** From zeroed pages, for every chunk size there is room for: the first list the pool retires has `n * (c - 1)`
      elements too many, in dp/core as well. */
  method LongRetiredList(zero: Words, n: nat, c: nat, reset: bool) returns (al: Allocator)
    requires 0 < c < n && Pages(zero, n, c)
    ensures al.Valid() && al.chunkSize == c && al.resets == reset && |al.pools| == 1
    ensures al.Account(0).priv == c + n * (c - 1)
  {
    al := Boot(zero, n, c, reset);
    var got := TakeAndFill(al, n);
    got := GiveBack(al, got);
  }

  /** From zeroed pages, for every chunk size there is room for: libix ends up with a chunk of one element in the
      datastore. */
  method OneElementRun(zero: Words, c: nat) returns (al: Allocator)
    requires Pages(zero, c + 3, c)
    ensures al.Valid() && al.chunkSize == c && !al.resets && |al.pools| == 1
    ensures |al.chunks| > 0 && |al.chunks[0]| == 1
  {
    al := Boot(zero, c + 3, c, false);
    var got := TakeAndFill(al, c + 3);
    al.OneElementChunks(0, got[0], got[1], got[2]);
  }
}
