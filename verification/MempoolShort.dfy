/**
  Elements of at most eight bytes: a header does not fit into one, and the link from chunk to chunk is stored over
  the link between two elements. mempool_create_datastore of libix/mempool.c accepts them.
 */
module MempoolShort {
  import opened Pointers
  import opened Mempools
  import opened MempoolPlan
  import opened MempoolInit

  // ----- Where the loops are -----

  /** The variables of the loops after `es`. */
  ghost predicate Tracks(c: Chain, es: seq<nat>, size: nat)
  {
    var part, chunks := Part(es, size), Chunks(es, size);
    && c.count == |part|
    && (if part == [] then c.prev == Null else c.prev == At(part[|part| - 1]) && c.head == At(part[0]))
    && (if chunks == [] then c.chunkHead == Null else chunks[0] != [] && c.chunkHead == At(chunks[0][0]))
  }

  lemma TracksLink(c: Chain, es: seq<nat>, e: nat, size: nat)
    requires Tracks(c, es, size)
    ensures Tracks(Link(c, e, size), es + [e], size)
  {
    PartSnoc(es, e, size);
  }

  lemma {:induction false} TracksAll(c: Chain, es: seq<nat>, fs: seq<nat>, size: nat)
    requires Tracks(c, es, size)
    ensures Tracks(LinkAll(c, fs, size), es + fs, size)
    decreases |fs|
  {
    if fs == [] {
      assert es + [] == es;
    } else {
      TracksLink(c, es, fs[0], size);
      TracksAll(Link(c, fs[0], size), es + [fs[0]], fs[1..], size);
      MoveOne(es, fs);
    }
  }

  /** Elements above a word leave it alone. */
  lemma {:induction false} KeepsBelow(c: Chain, es: seq<nat>, size: nat, x: nat)
    requires x in c.words && (c.prev.At? ==> x < c.prev.a && c.head.At? && x < c.head.a)
    requires forall k :: 0 <= k < |es| ==> x < es[k]
    ensures x in LinkAll(c, es, size).words && LinkAll(c, es, size).words[x] == c.words[x]
    decreases |es|
  {
    if es != [] { KeepsBelow(Link(c, es[0], size), es[1..], size, x); }
  }

  // ----- Chunks -----

  lemma SnocJoin(a: seq<nat>, b: seq<nat>)
    requires b != []
    ensures a + b == (a + b[..|b| - 1]) + [b[|b| - 1]] && b == b[..|b| - 1] + [b[|b| - 1]]
  {
  }

  /** Elements that do not fill a chunk, behind full chunks. */
  lemma {:induction false} PartOf(a: seq<nat>, b: seq<nat>, size: nat)
    requires Part(a, size) == [] && |b| < size
    ensures Part(a + b, size) == b && Chunks(a + b, size) == Chunks(a, size)
    decreases |b|
  {
    if b == [] {
      assert a + b == a;
    } else {
      var q, e := b[..|b| - 1], b[|b| - 1];
      SnocJoin(a, b);
      PartOf(a, q, size);
      PartSnoc(a + q, e, size);
    }
  }

  /** Elements that just fill one. */
  lemma FullOf(a: seq<nat>, b: seq<nat>, size: nat)
    requires Part(a, size) == [] && |b| == size && 1 <= size
    ensures Part(a + b, size) == [] && Chunks(a + b, size) == [b] + Chunks(a, size)
  {
    SnocJoin(a, b);
    PartOf(a, b[..size - 1], size);
    PartSnoc(a + b[..size - 1], b[size - 1], size);
  }

  /** Later elements put chunks in front. */
  lemma {:induction false} ChunksGrow(a: seq<nat>, b: seq<nat>, size: nat) returns (front: seq<seq<nat>>)
    ensures Chunks(a + b, size) == front + Chunks(a, size)
    decreases |b|
  {
    if b == [] {
      front := [];
      assert a + b == a;
    } else {
      var q, e := b[..|b| - 1], b[|b| - 1];
      var f := ChunksGrow(a, q, size);
      PartSnoc(a + q, e, size);
      SnocJoin(a, b);
      var p := Part(a + q, size) + [e];
      front := if |p| == size then [p] + f else f;
      assert [p] + (f + Chunks(a, size)) == ([p] + f) + Chunks(a, size);
    }
  }

  lemma {:induction false} ChunkIsList(h: Mem, p: Ptr, cs: seq<seq<nat>>, j: nat)
    requires IsChunks(h, p, cs) && j < |cs|
    ensures cs[j] != [] && IsList(h, At(cs[j][0]), cs[j])
    decreases j
  {
    if 0 < j { ChunkIsList(h, h[cs[0][0]].nextChunk, cs[1..], j - 1); }
  }

  /** The second element of a list. */
  lemma SecondNext(h: Mem, s: seq<nat>)
    requires 2 <= |s| && IsList(h, At(s[0]), s)
    ensures s[1] in h && h[s[1]].next == if |s| == 2 then Null else At(s[2])
  {
    var t := s[1..];
    assert t[0] == s[1] && IsList(h, h[s[1]].next, t[1..]);
    if |s| > 2 { assert t[1..][0] == s[2]; }
  }

  // ----- The clash -----

  ghost predicate Ascending(es: seq<nat>)
  {
    forall i, j :: 0 <= i < j < |es| ==> es[i] < es[j]
  }

  /** Before the last element of the second chunk. */
  lemma BeforeLast(w: Words, a: seq<nat>, q: seq<nat>, size: nat)
    requires 2 <= size == |a| && |q| == size - 1
    ensures var c := LinkAll(Fresh(w), a + q, size);
            c.count == size - 1 && c.prev.At? && c.head == At(q[0]) && c.chunkHead == At(a[0])
  {
    assert [] + a == a && [] + (a + q) == a + q;
    FullOf([], a, size);
    PartOf(a, q, size);
    TracksAll(Fresh(w), [], a + q, size);
  }

  lemma LastLink(c: Chain, e: nat, size: nat, h: nat)
    requires c.count + 1 == size && c.prev.At? && c.head == At(h) && c.chunkHead.At?
    ensures var d := Link(c, e, size); h + 8 in d.words && d.words[h + 8] == c.chunkHead && d.prev == Null
  {
    assert Second(h) == h + 8;
  }

  /** When the second chunk has just been completed, its `next_chunk` is in the word of its second element. */
  lemma SecondChunk(w: Words, a: seq<nat>, b: seq<nat>, size: nat)
    requires 2 <= size == |a| == |b| && b[1] == b[0] + 8
    ensures var c := LinkAll(Fresh(w), a + b, size);
            b[1] in c.words && c.words[b[1]] == At(a[0]) && c.prev == Null
  {
    var q, e := b[..size - 1], b[size - 1];
    var c := LinkAll(Fresh(w), a + q, size);
    BeforeLast(w, a, q, size);
    SnocJoin(a, b);
    LinkJoined(Fresh(w), a + q, [e], size);
    assert LinkAll(c, [e], size) == Link(c, e, size);
    LastLink(c, e, size, b[0]);
  }

  lemma TwoChunks(a: seq<nat>, b: seq<nat>, size: nat)
    requires 1 <= size == |a| == |b|
    ensures Chunks(a + b, size) == [b, a]
  {
    assert [] + a == a;
    FullOf([], a, size);
    FullOf(a, b, size);
  }

  /** Two chunks of elements eight bytes apart are not linked as they should be, and stay so. */
  lemma ShortBreaks(w: Words, es: seq<nat>, size: nat)
    requires 2 <= size && 2 * size <= |es| && Ascending(es) && es[size + 1] == es[size] + 8
    ensures var c := LinkAll(Fresh(w), es, size); !IsChunks(Headers(c.words), c.chunkHead, Chunks(es, size))
  {
    var a, b, rest := es[..size], es[size..2 * size], es[2 * size..];
    assert es == (a + b) + rest;
    SecondChunk(w, a, b, size);
    TwoChunks(a, b, size);
    LinkJoined(Fresh(w), a + b, rest, size);
    KeepsBelow(LinkAll(Fresh(w), a + b, size), rest, size, b[1]);
    var front := ChunksGrow(a + b, rest, size);
    var c, cs := LinkAll(Fresh(w), es, size), Chunks(es, size);
    assert cs[|front|] == b;
    if IsChunks(Headers(c.words), c.chunkHead, cs) {
      ChunkIsList(Headers(c.words), c.chunkHead, cs, |front|);
      SecondNext(Headers(c.words), b);
    }
  }

  // ----- Exactly -----

  lemma SpacedAscends(es: seq<nat>, buf: nat, end: nat, len: nat)
    requires Spaced(es, buf, end, len) && 0 < len
    ensures Ascending(es)
  {
  }

  /** Elements of eight bytes fill their pages, so that they are all eight bytes apart. */
  lemma {:induction false} EightApart(buf: nat, i: nat, l: Layout)
    requires l.Layout? && i < l.loops && 0 < l.perPage && l.len == 8 && (l.loops == 1 || l.perPage * 8 == PAGE)
    ensures Elements(buf, i, l) == Run(buf + i * PAGE, (l.loops - i) * l.perPage, 8)
    decreases l.loops - i
  {
    var here, n := buf + i * PAGE, l.perPage;
    if i + 1 < l.loops {
      EightApart(buf, i + 1, l);
      RunJoin(here, n, (l.loops - (i + 1)) * n, 8, here + PAGE);
      assert (l.loops - i) * n == n + (l.loops - (i + 1)) * n;
    } else {
      assert Elements(buf, i + 1, l) == [];
    }
  }

  lemma {:induction false} RunJoin(start: nat, n: nat, k: nat, len: nat, mid: nat)
    requires mid == start + n * len
    ensures Run(start, n, len) + Run(mid, k, len) == Run(start, n + k, len)
    decreases n
  {
    if 0 < n {
      OneMore(n - 1, n, len);
      RunJoin(start + len, n - 1, k, len, mid);
      FirstJoin(start, Run(start + len, n - 1, len), Run(mid, k, len));
    }
  }

  lemma FirstJoin(x: nat, a: seq<nat>, b: seq<nat>)
    ensures ([x] + a) + b == [x] + (a + b)
  {
  }

  lemma ShortLayout(nrElems: nat, elemLen: nat, nostraddle: bool)
    requires 0 < nrElems && 1 <= elemLen <= 8
    ensures AlignUp(elemLen) == 8
    ensures var l := Plan(nrElems, elemLen, nostraddle);
            l.Layout? && l.len == 8 && (nostraddle ==> l.perPage * 8 == PAGE) && (!nostraddle ==> l.loops == 1)
  {
    assert PAGE / 8 == 0x4_0000;
  }

  /** Two chunks or more, of two elements or more: they are linked as they should be if and only if elements have more
      than eight bytes. */
  lemma HeadersExactly(w: Words, buf: nat, nrElems: nat, elemLen: nat, nostraddle: bool, size: nat)
    requires 0 < nrElems && 0 < elemLen && (nostraddle ==> AlignUp(elemLen) <= PAGE)
    requires 2 <= size && 2 * size <= nrElems
    requires var l := Plan(nrElems, elemLen, nostraddle); 0 <= l.pages && Clean(w, buf, buf + l.pages * PAGE)
    ensures var l := Plan(nrElems, elemLen, nostraddle);
            && l.Layout?
            && var all := Elements(buf, 0, l);
               var c := LinkAll(Fresh(w), all, size);
               IsChunks(Headers(c.words), c.chunkHead, Chunks(all, size)) <==> 9 <= elemLen
  {
    var l := Plan(nrElems, elemLen, nostraddle);
    var all, end := Elements(buf, 0, l), buf + l.pages * PAGE;
    PlanSpaced(buf, nrElems, elemLen, nostraddle);
    if 9 <= elemLen {
      ChunksLinked(w, all, size, buf, end, l.len);
    } else {
      ShortLayout(nrElems, elemLen, nostraddle);
      PlanFits(nrElems, elemLen, nostraddle);
      SpacedAscends(all, buf, end, 8);
      ShortChunks(w, buf, l, size);
    }
  }

  lemma ShortChunks(w: Words, buf: nat, l: Layout, size: nat)
    requires l.Layout? && 0 < l.loops && 0 < l.perPage && l.len == 8 && (l.loops == 1 || l.perPage * 8 == PAGE)
    requires 2 <= size && 2 * size <= |Elements(buf, 0, l)| && Ascending(Elements(buf, 0, l))
    ensures var all := Elements(buf, 0, l);
            var c := LinkAll(Fresh(w), all, size);
            !IsChunks(Headers(c.words), c.chunkHead, Chunks(all, size))
  {
    EightApart(buf, 0, l);
    RunAt(buf, l.loops * l.perPage, 8, size);
    RunAt(buf, l.loops * l.perPage, 8, size + 1);
    ShortBreaks(w, Elements(buf, 0, l), size);
  }
}
