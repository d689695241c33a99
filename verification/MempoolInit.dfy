/**
  Creating a datastore: mempool_create_datastore and mempool_init_buf_with_pages of libix/mempool.c. The two links of
  an element are words of eight bytes in its memory, so that elements may be too short for them.
 */
module MempoolInit {
  import opened Pointers
  import opened Mempools
  import opened MempoolPlan

  /** The words in memory that hold links. */
  type Words = map<nat, Ptr>

  /** The address of `next_chunk` in the header at `e`. */
  function Second(e: nat): nat
  {
    e + 8
  }

  /** The headers that the words at all addresses make. */
  function Headers(w: Words): Mem
  {
    map e {:trigger Second(e)} | e in w && Second(e) in w :: Hdr(w[e], w[Second(e)])
  }

  /** Elements apart by at least their length, inside the pages. */
  ghost predicate Spaced(all: seq<nat>, buf: nat, end: nat, len: nat)
  {
    && (forall k :: 0 <= k < |all| ==> buf <= all[k] && all[k] + len <= end)
    && (forall a, b :: 0 <= a < b < |all| ==> all[a] + len <= all[b])
  }

  /** The chunks, last one first, spell the elements. */
  function Joined(cs: seq<seq<nat>>): seq<nat>
  {
    if cs == [] then [] else Joined(cs[1..]) + cs[0]
  }

  lemma {:induction false} JoinedElems(cs: seq<seq<nat>>)
    ensures multiset(Joined(cs)) == Elems(cs)
  {
    if cs != [] { JoinedElems(cs[1..]); }
  }

  lemma {:induction false} JoinedLength(cs: seq<seq<nat>>, c: nat)
    requires forall j :: 0 <= j < |cs| ==> |cs[j]| == c
    ensures |Joined(cs)| == |cs| * c
  {
    if cs != [] {
      JoinedLength(cs[1..], c);
      assert |cs| * c == (|cs| - 1) * c + c;
    }
  }

  // ----- What the loops do -----

  /** The words and the variables of the loops; `chunks` is num_chunks and free_chunks. */
  datatype Chain = Chain(words: Words, chunkHead: Ptr, head: Ptr, prev: Ptr, count: nat, chunks: nat)

  function Fresh(w: Words): Chain
  {
    Chain(w, Null, Null, Null, 0, 0)
  }

  /** One element. */
  function Link(c: Chain, e: nat, size: nat): Chain
  {
    var w := if c.prev.At? then c.words[c.prev.a := At(e)] else c.words;
    var h := if c.prev.At? then c.head else At(e);
    if c.count + 1 == size then
      Chain(if c.chunkHead.At? && h.At? then w[Second(h.a) := c.chunkHead] else w, h, Null, Null, 0, c.chunks + 1)
    else Chain(w, c.chunkHead, h, At(e), c.count + 1, c.chunks)
  }

  function LinkAll(c: Chain, es: seq<nat>, size: nat): Chain
    decreases |es|
  {
    if es == [] then c else LinkAll(Link(c, es[0], size), es[1..], size)
  }

  lemma {:induction false} LinkJoined(c: Chain, es: seq<nat>, fs: seq<nat>, size: nat)
    ensures LinkAll(c, es + fs, size) == LinkAll(LinkAll(c, es, size), fs, size)
    decreases |es|
  {
    if es == [] {
      assert es + fs == fs;
    } else {
      assert (es + fs)[0] == es[0] && (es + fs)[1..] == es[1..] + fs;
      LinkJoined(Link(c, es[0], size), es[1..], fs, size);
    }
  }

  // ----- What they should do -----

  /** The chunk being built when all of `es` have been linked. */
  function Part(es: seq<nat>, size: nat): seq<nat>
    decreases |es|
  {
    if es == [] then []
    else
      var p := Part(es[..|es| - 1], size) + [es[|es| - 1]];
      if |p| == size then [] else p
  }

  /** The full chunks, last one first. */
  function Chunks(es: seq<nat>, size: nat): seq<seq<nat>>
    decreases |es|
  {
    if es == [] then []
    else
      var cs, p := Chunks(es[..|es| - 1], size), Part(es[..|es| - 1], size) + [es[|es| - 1]];
      if |p| == size then [p] + cs else cs
  }

  lemma PartSnoc(es: seq<nat>, e: nat, size: nat)
    ensures var p := Part(es, size) + [e];
            && Part(es + [e], size) == (if |p| == size then [] else p)
            && Chunks(es + [e], size) == if |p| == size then [p] + Chunks(es, size) else Chunks(es, size)
  {
    assert (es + [e])[..|es + [e]| - 1] == es;
  }

  /** All elements are in a chunk or in the last part, in order. */
  lemma {:induction false} PartsJoin(es: seq<nat>, size: nat)
    requires 1 <= size
    ensures Joined(Chunks(es, size)) + Part(es, size) == es && |Part(es, size)| < size
    ensures forall j :: 0 <= j < |Chunks(es, size)| ==> |Chunks(es, size)[j]| == size
    decreases |es|
  {
    if es != [] {
      var q, e := es[..|es| - 1], es[|es| - 1];
      assert es == q + [e];
      PartsJoin(q, size);
      PartSnoc(q, e, size);
      assert (Joined(Chunks(q, size)) + Part(q, size)) + [e] == Joined(Chunks(q, size)) + (Part(q, size) + [e]);
    }
  }

  /** The number of chunks. */
  lemma ChunksCounted(es: seq<nat>, size: nat)
    requires 1 <= size
    ensures |Chunks(es, size)| == |es| / size && |Chunks(es, size)| * size <= |es|
    ensures Joined(Chunks(es, size)) == es[..|Chunks(es, size)| * size]
  {
    PartsJoin(es, size);
    JoinedLength(Chunks(es, size), size);
    Quotient(|es|, size, |Chunks(es, size)|, |Part(es, size)|);
  }

  // ----- Elements that are long enough -----

  /** The state of the loops as lists: `part` is the chunk being built. */
  datatype Build = Build(hdr: Mem, chunkHead: Ptr, head: Ptr, prev: Ptr, chunks: seq<seq<nat>>, part: seq<nat>,
                         all: seq<nat>)

  ghost predicate Distinct(s: seq<nat>)
  {
    forall i, j :: 0 <= i < j < |s| ==> s[i] != s[j]
  }

  ghost predicate Blank(h: Mem, e: nat)
  {
    e in h && h[e] == Hdr(Null, Null)
  }

  ghost predicate Building(b: Build)
  {
    && Distinct(b.all) && Joined(b.chunks) + b.part == b.all
    && IsChunks(b.hdr, b.chunkHead, b.chunks) && IsList(b.hdr, b.head, b.part)
    && (b.part == [] ==> b.prev == Null)
    && (b.part != [] ==> b.prev == At(b.part[|b.part| - 1]))
    && forall e :: e in b.part ==> e in b.hdr && b.hdr[e].nextChunk == Null
  }

  lemma {:induction false} ListSnoc(h: Mem, p: Ptr, s: seq<nat>, e: nat)
    requires IsList(h, p, s) && s != [] && Distinct(s + [e]) && e in h && h[e].next == Null
    ensures s[|s| - 1] in h
    ensures var l := s[|s| - 1]; IsList(h[l := h[l].(next := At(e))], p, s + [e])
    decreases s
  {
    var l := s[|s| - 1];
    if |s| == 1 {
      assert (s + [e])[1..] == [e] && [e][1..] == [];
      assert (s + [e])[0] != (s + [e])[1];
    } else {
      var t := s[1..];
      assert (s + [e])[1..] == t + [e];
      assert Distinct(t + [e]) by {
        assert forall k :: 0 <= k < |t + [e]| ==> (t + [e])[k] == (s + [e])[k + 1];
      }
      assert s[0] != l by { assert (s + [e])[0] != (s + [e])[|s| - 1]; }
      ListSnoc(h, h[s[0]].next, t, e);
    }
  }

  function Linked1(b: Build, e: nat): Build
    requires b.prev.At? ==> b.prev.a in b.hdr
  {
    b.(hdr := if b.prev == Null then b.hdr else b.hdr[b.prev.a := b.hdr[b.prev.a].(next := At(e))],
       head := if b.prev == Null then At(e) else b.head, prev := At(e), part := b.part + [e], all := b.all + [e])
  }

  lemma AppendDistinct(s: seq<nat>, e: nat)
    requires Distinct(s) && e !in s
    ensures Distinct(s + [e])
  {
  }

  lemma JoinedHas(cs: seq<seq<nat>>, part: seq<nat>, all: seq<nat>)
    requires Joined(cs) + part == all && Distinct(all)
    ensures Distinct(part) && forall e :: e in part ==> e !in Elems(cs) && e in all
  {
    JoinedElems(cs);
    var n := |Joined(cs)|;
    forall i, j | 0 <= i < j < |part|
      ensures part[i] != part[j]
    {
      assert part[i] == all[n + i] && part[j] == all[n + j];
    }
    forall e | e in part
      ensures e !in Elems(cs) && e in all
    {
      var j :| 0 <= j < |part| && part[j] == e;
      assert all[n + j] == e;
      forall i | 0 <= i < n
        ensures Joined(cs)[i] != e
      {
        assert all[i] != all[n + j];
      }
    }
  }

  /** One more element goes to the end of the chunk being built. */
  lemma LinkBuilds(b: Build, e: nat)
    requires Building(b) && e !in b.all && Blank(b.hdr, e)
    ensures b.prev.At? ==> b.prev.a in b.hdr
    ensures Building(Linked1(b, e))
  {
    AppendDistinct(b.all, e);
    JoinedHas(b.chunks, b.part, b.all);
    assert Joined(b.chunks) + (b.part + [e]) == b.all + [e];
    if b.part == [] {
      assert [] + [e] == [e] && [e][1..] == [];
    } else {
      var l := b.part[|b.part| - 1];
      assert l in b.part;
      AppendDistinct(b.part, e);
      ListSnoc(b.hdr, b.head, b.part, e);
      ChunksFrame(b.hdr, Linked1(b, e).hdr, b.chunkHead, b.chunks);
    }
  }

  /** The chunk is complete and becomes the first of the datastore. */
  function Closed(b: Build): Build
    requires b.head.At? && b.head.a in b.hdr
  {
    b.(hdr := if b.chunkHead == Null then b.hdr else b.hdr[b.head.a := b.hdr[b.head.a].(nextChunk := b.chunkHead)],
       chunkHead := b.head, head := Null, prev := Null, chunks := [b.part] + b.chunks, part := [])
  }

  lemma CloseBuilds(b: Build)
    requires Building(b) && b.part != []
    ensures b.head.At? && b.head.a in b.hdr && Building(Closed(b))
  {
    var t := Closed(b);
    JoinedHas(b.chunks, b.part, b.all);
    assert t.chunks[1..] == b.chunks;
    assert b.head.a in b.part;
    ListFrame(b.hdr, t.hdr, b.head, b.part);
    ChunksFrame(b.hdr, t.hdr, b.chunkHead, b.chunks);
    assert Joined(t.chunks) + [] == Joined(b.chunks) + b.part;
  }

  // ----- Words -----

  function BuildOf(c: Chain, es: seq<nat>, size: nat): Build
  {
    Build(Headers(c.words), c.chunkHead, c.head, c.prev, Chunks(es, size), Part(es, size), es)
  }

  lemma ElemsIn(cs: seq<seq<nat>>, part: seq<nat>, all: seq<nat>)
    requires Joined(cs) + part == all
    ensures forall e :: e in Elems(cs) ==> e in all
  {
    JoinedElems(cs);
    forall e | e in Elems(cs)
      ensures e in all
    {
      assert e in multiset(Joined(cs));
    }
  }

  ghost predicate SameHeaders(h: Mem, h': Mem, all: seq<nat>)
  {
    forall e :: e in all && e in h ==> e in h' && h'[e] == h[e]
  }

  lemma LinksFrame(b: Build, h: Mem)
    requires Building(b) && SameHeaders(b.hdr, h, b.all)
    ensures IsChunks(h, b.chunkHead, b.chunks) && IsList(h, b.head, b.part)
  {
    JoinedHas(b.chunks, b.part, b.all);
    ElemsIn(b.chunks, b.part, b.all);
    ListFrame(b.hdr, h, b.head, b.part);
    ChunksFrame(b.hdr, h, b.chunkHead, b.chunks);
  }

  lemma HeadsFrame(b: Build, h: Mem, e: nat)
    requires Building(b) && SameHeaders(b.hdr, h, b.all) && e in b.part
    ensures e in h && h[e].nextChunk == Null
  {
    JoinedHas(b.chunks, b.part, b.all);
  }

  /** Only the headers of its own elements make a chain. */
  lemma BuildingFrame(b: Build, h: Mem)
    requires Building(b) && SameHeaders(b.hdr, h, b.all)
    ensures Building(b.(hdr := h))
  {
    LinksFrame(b, h);
    forall e | e in b.part
      ensures e in h && h[e].nextChunk == Null
    {
      HeadsFrame(b, h, e);
    }
  }

  /** Zeroed memory from `low` on. */
  ghost predicate Clean(w: Words, low: nat, end: nat)
  {
    forall x :: low <= x < end ==> x in w && w[x] == Null
  }

  /** Elements in ascending order, with room for their headers. */
  ghost predicate Roomy(es: seq<nat>)
  {
    forall i, j :: 0 <= i < j < |es| ==> es[i] + 16 <= es[j]
  }

  /** The end of the last header. */
  function Past(es: seq<nat>, buf: nat): nat
  {
    if es == [] then buf else es[|es| - 1] + 16
  }

  ghost predicate Chained(c: Chain, es: seq<nat>, size: nat, buf: nat, end: nat)
  {
    && Building(BuildOf(c, es, size)) && c.count == |Part(es, size)| && c.chunks == |Chunks(es, size)|
    && Roomy(es) && Clean(c.words, Past(es, buf), end) && forall e :: e in es ==> e + 16 <= Past(es, buf)
  }

  lemma ChainedFresh(w: Words, size: nat, buf: nat, end: nat)
    requires Clean(w, buf, end)
    ensures Chained(Fresh(w), [], size, buf, end)
  {
  }

  /** A word written to an element's header changes no other header. */
  lemma WordOnly(w: Words, x: nat, p: Ptr, e: nat)
    requires e in Headers(w) && x != e && x != e + 8
    ensures e in Headers(w[x := p]) && Headers(w[x := p])[e] == Headers(w)[e]
  {
    assert Second(e) == e + 8;
  }

  lemma NextWord(w: Words, x: nat, p: Ptr)
    requires x in Headers(w)
    ensures x in Headers(w[x := p]) && Headers(w[x := p])[x] == Headers(w)[x].(next := p)
  {
    assert Second(x) == x + 8;
  }

  lemma ChunkWord(w: Words, x: nat, p: Ptr)
    requires x in Headers(w)
    ensures x in Headers(w[x + 8 := p]) && Headers(w[x + 8 := p])[x] == Headers(w)[x].(nextChunk := p)
  {
    assert Second(x) == x + 8;
  }

  // One element more

  ghost predicate RoomFor(es: seq<nat>, e: nat)
  {
    Roomy(es) && forall x :: x in es ==> x + 16 <= e
  }

  lemma RoomyMore(es: seq<nat>, e: nat)
    requires RoomFor(es, e)
    ensures Roomy(es + [e]) && e !in es && forall x :: x in es + [e] ==> x + 16 <= e + 16
  {
    var s := es + [e];
    forall i, j | 0 <= i < j < |s|
      ensures s[i] + 16 <= s[j]
    {
      assert s[i] == es[i] && es[i] in es;
    }
  }

  lemma FarApart(es: seq<nat>, x: nat, y: nat)
    requires Roomy(es) && x in es && y in es && x != y
    ensures x != y + 8
  {
    var i :| 0 <= i < |es| && es[i] == x;
    var j :| 0 <= j < |es| && es[j] == y;
  }

  /** The words after the link to `e` has been stored. */
  function Tied(c: Chain, e: nat): Words
  {
    if c.prev.At? then c.words[c.prev.a := At(e)] else c.words
  }

  lemma TiedHeaders(b: Build, w: Words, e: nat)
    requires Building(b) && b.hdr == Headers(w) && RoomFor(b.all, e) && Blank(b.hdr, e)
    requires b.prev.At? ==> b.prev.a in b.hdr && b.prev.a in b.all
    ensures SameHeaders(Linked1(b, e).hdr, Headers(if b.prev.At? then w[b.prev.a := At(e)] else w), b.all + [e])
  {
    RoomyMore(b.all, e);
    if b.prev.At? {
      var h, u, x := Linked1(b, e).hdr, w[b.prev.a := At(e)], b.prev.a;
      forall y | y in b.all + [e] && y in h
        ensures y in Headers(u) && Headers(u)[y] == h[y]
      {
        if y == x {
          NextWord(w, x, At(e));
        } else {
          FarApart(b.all + [e], x, y);
          WordOnly(w, x, At(e), y);
        }
      }
    }
  }

  lemma ClosedHeaders(b: Build, w: Words)
    requires Building(b) && b.part != [] && b.hdr == Headers(w) && Roomy(b.all)
    ensures b.head.At? && b.head.a in b.hdr && b.head.a in b.all
    ensures SameHeaders(Closed(b).hdr, Headers(if b.chunkHead.At? then w[Second(b.head.a) := b.chunkHead] else w),
                        b.all)
  {
    JoinedHas(b.chunks, b.part, b.all);
    assert b.part[0] in b.part;
    if b.chunkHead.At? {
      var h, u, x := Closed(b).hdr, w[Second(b.head.a) := b.chunkHead], b.head.a;
      forall y | y in b.all && y in h
        ensures y in Headers(u) && Headers(u)[y] == h[y]
      {
        if y == x {
          ChunkWord(w, x, b.chunkHead);
        } else {
          FarApart(b.all, y, x);
          WordOnly(w, x + 8, b.chunkHead, y);
        }
      }
    }
  }

  lemma PrevIn(b: Build)
    requires Building(b)
    ensures b.prev.At? ==> b.part != [] && b.prev.a in b.part && b.prev.a in b.all && b.prev.a in b.hdr
  {
    JoinedHas(b.chunks, b.part, b.all);
  }

  /** The list with `e` at its end, over the words. */
  lemma TiedBuilds(c: Chain, es: seq<nat>, e: nat, size: nat)
    requires Building(BuildOf(c, es, size)) && RoomFor(es, e) && Blank(Headers(c.words), e)
    ensures var b := BuildOf(c, es, size);
            && (b.prev.At? ==> b.prev.a in b.hdr)
            && Building(Linked1(b, e).(hdr := Headers(Tied(c, e))))
  {
    var b := BuildOf(c, es, size);
    PrevIn(b);
    RoomyMore(es, e);
    LinkBuilds(b, e);
    TiedHeaders(b, c.words, e);
    BuildingFrame(Linked1(b, e), Headers(Tied(c, e)));
  }

  lemma ClosedBuilds(b: Build, w: Words)
    requires Building(b) && b.part != [] && b.hdr == Headers(w) && Roomy(b.all)
    ensures b.head.At? && b.head.a in b.hdr && b.head.a in b.all
    ensures Building(Closed(b).(hdr := Headers(if b.chunkHead.At? then w[Second(b.head.a) := b.chunkHead] else w)))
  {
    ClosedHeaders(b, w);
    CloseBuilds(b);
    BuildingFrame(Closed(b), Headers(if b.chunkHead.At? then w[Second(b.head.a) := b.chunkHead] else w));
  }

  /** Linking one more element does to the words what it does to the lists. */
  lemma LinkIsBuild(c: Chain, es: seq<nat>, e: nat, size: nat)
    requires Building(BuildOf(c, es, size)) && RoomFor(es, e) && Blank(Headers(c.words), e)
             && c.count == |Part(es, size)|
    ensures Building(BuildOf(Link(c, e, size), es + [e], size))
  {
    TiedBuilds(c, es, e, size);
    PartSnoc(es, e, size);
    RoomyMore(es, e);
    var t := Linked1(BuildOf(c, es, size), e).(hdr := Headers(Tied(c, e)));
    if c.count + 1 == size {
      ClosedBuilds(t, Tied(c, e));
    }
  }

  lemma LinkClean(c: Chain, e: nat, size: nat, low: nat, end: nat)
    requires Clean(c.words, low, end) && low <= e && (c.prev.At? ==> c.prev.a < low && c.head.At? && c.head.a < low)
    ensures Clean(Link(c, e, size).words, e + 16, end)
  {
  }

  lemma LinkCounts(c: Chain, es: seq<nat>, e: nat, size: nat)
    requires c.count == |Part(es, size)| && c.chunks == |Chunks(es, size)|
    ensures Link(c, e, size).count == |Part(es + [e], size)| && Link(c, e, size).chunks == |Chunks(es + [e], size)|
  {
    PartSnoc(es, e, size);
  }

  lemma OwnLow(c: Chain, es: seq<nat>, size: nat, buf: nat, end: nat)
    requires Chained(c, es, size, buf, end) && c.prev.At?
    ensures c.prev.a < Past(es, buf) && c.head.At? && c.head.a < Past(es, buf)
  {
    PrevIn(BuildOf(c, es, size));
    HeadIn(BuildOf(c, es, size));
  }

  lemma LinkChained(c: Chain, es: seq<nat>, e: nat, size: nat, buf: nat, end: nat)
    requires Chained(c, es, size, buf, end) && Past(es, buf) <= e && e + 16 <= end
    ensures Chained(Link(c, e, size), es + [e], size, buf, end) && Past(es + [e], buf) == e + 16
  {
    assert e in c.words && Second(e) in c.words;
    RoomyMore(es, e);
    LinkIsBuild(c, es, e, size);
    LinkCounts(c, es, e, size);
    if c.prev.At? { OwnLow(c, es, size, buf, end); }
    LinkClean(c, e, size, Past(es, buf), end);
  }

  lemma HeadIn(b: Build)
    requires Building(b) && b.part != []
    ensures b.head.At? && b.head.a in b.all
  {
    JoinedHas(b.chunks, b.part, b.all);
    assert b.part[0] in b.part;
  }

  /** `fs` fits behind `low` and before `end`. */
  ghost predicate Follows(fs: seq<nat>, low: nat, end: nat)
  {
    Roomy(fs) && (fs != [] ==> low <= fs[0] && fs[|fs| - 1] + 16 <= end)
  }

  lemma FollowsTail(fs: seq<nat>, low: nat, end: nat)
    requires Follows(fs, low, end) && fs != []
    ensures Follows(fs[1..], fs[0] + 16, end) && low <= fs[0] && fs[0] + 16 <= end
  {
  }

  lemma MoveOne(es: seq<nat>, fs: seq<nat>)
    requires fs != []
    ensures (es + [fs[0]]) + fs[1..] == es + fs
  {
  }

  /** Elements in ascending order with room for their headers, in zeroed memory: the words make exactly the chunks. */
  lemma {:induction false} ChainsAll(c: Chain, es: seq<nat>, fs: seq<nat>, size: nat, buf: nat, end: nat)
    requires Chained(c, es, size, buf, end) && Follows(fs, Past(es, buf), end)
    ensures Chained(LinkAll(c, fs, size), es + fs, size, buf, end)
    decreases |fs|
  {
    if fs == [] {
      assert es + [] == es;
    } else {
      FollowsTail(fs, Past(es, buf), end);
      LinkChained(c, es, fs[0], size, buf, end);
      ChainsAll(Link(c, fs[0], size), es + [fs[0]], fs[1..], size, buf, end);
      MoveOne(es, fs);
    }
  }

  // ----- The elements of a layout -----

  lemma {:induction false} RunAt(start: nat, n: nat, len: nat, k: nat)
    requires k < n
    ensures |Run(start, n, len)| == n && Run(start, n, len)[k] == start + k * len
    decreases n
  {
    if 0 < k {
      RunAt(start + len, n - 1, len, k - 1);
      assert k * len == (k - 1) * len + len;
    }
  }

  lemma RunSpaced(start: nat, n: nat, len: nat)
    ensures Spaced(Run(start, n, len), start, start + n * len, len)
  {
    var es := Run(start, n, len);
    forall k | 0 <= k < |es|
      ensures start <= es[k] && es[k] + len <= start + n * len
    {
      RunAt(start, n, len, k);
      OneMore(k, n, len);
    }
    forall a, b | 0 <= a < b < |es|
      ensures es[a] + len <= es[b]
    {
      RunAt(start, n, len, a);
      RunAt(start, n, len, b);
      OneMore(a, b, len);
    }
  }

  lemma OneMore(j: nat, n: nat, len: nat)
    requires j < n
    ensures (j + 1) * len == j * len + len && j * len + len <= n * len
  {
    AtMost(j + 1, n, len);
  }

  lemma SpacedJoin(es: seq<nat>, fs: seq<nat>, buf: nat, mid: nat, end: nat, len: nat)
    requires Spaced(es, buf, mid, len) && Spaced(fs, mid, end, len) && buf <= mid <= end
    ensures Spaced(es + fs, buf, end, len)
  {
  }

  lemma PageBounds(buf: nat, i: nat, loops: nat, room: nat, end: nat)
    requires i < loops && (1 < loops ==> room <= PAGE) && buf + (loops - 1) * PAGE + room <= end
    ensures buf + i * PAGE + room <= end
    ensures i + 1 < loops ==> room <= PAGE && buf + i * PAGE + PAGE == buf + (i + 1) * PAGE <= end
  {
  }

  /** The elements of a layout are apart and in bounds. */
  lemma {:induction false} ElementsSpaced(buf: nat, i: nat, l: Layout, room: nat, end: nat)
    requires l.Layout? && i < l.loops && 0 <= l.perPage && room == l.perPage * l.len
    requires (1 < l.loops ==> room <= PAGE) && buf + (l.loops - 1) * PAGE + room <= end
    ensures Spaced(Elements(buf, i, l), buf + i * PAGE, end, l.len)
    decreases l.loops - i
  {
    var here := buf + i * PAGE;
    PageBounds(buf, i, l.loops, room, end);
    if i + 1 < l.loops {
      ElementsSpaced(buf, i + 1, l, room, end);
      RunWithin(here, l.perPage, l.len, room, here + PAGE);
      SpacedJoin(Run(here, l.perPage, l.len), Elements(buf, i + 1, l), here, here + PAGE, end, l.len);
    } else {
      assert Elements(buf, i + 1, l) == [];
      RunWithin(here, l.perPage, l.len, room, end);
    }
  }

  lemma RunWithin(start: nat, n: nat, len: nat, room: nat, end: nat)
    requires room == n * len && start + room <= end
    ensures Spaced(Run(start, n, len), start, end, len)
  {
    RunSpaced(start, n, len);
    Widen(Run(start, n, len), start, start + room, end, len);
  }

  /** There are as many as it says. */
  lemma {:induction false} ElementsCounted(buf: nat, i: nat, l: Layout)
    requires l.Layout? && i <= l.loops && 0 <= l.perPage
    ensures |Elements(buf, i, l)| == (l.loops - i) * l.perPage
    decreases l.loops - i
  {
    if i < l.loops {
      ElementsCounted(buf, i + 1, l);
      assert (l.loops - i) * l.perPage == l.perPage + (l.loops - (i + 1)) * l.perPage;
    }
  }

  lemma Widen(es: seq<nat>, buf: nat, low: nat, end: nat, len: nat)
    requires Spaced(es, buf, low, len) && low <= end
    ensures Spaced(es, buf, end, len)
  {
  }

  // ----- The methods -----

  class Datastore {
    var words: Words
    var chunkHead: Ptr
    var numChunks: nat
    var freeChunks: nat

    constructor (memory: Words)
      ensures words == memory && chunkHead == Null && numChunks == 0 && freeChunks == 0
    {
      words, chunkHead, numChunks, freeChunks := memory, Null, 0, 0;
    }

    /** The fields, with the variables of the loops. */
    ghost function State(head: Ptr, prev: Ptr, count: nat): Chain
      reads this
    {
      Chain(words, chunkHead, head, prev, count, numChunks)
    }

    /** mempool_init_buf_with_pages, whatever its arguments: the addresses visited are linked one after the other. */
    method InitBufWithPages(buf: nat, elemsPerPage: int, nrPages: int, elemLen: nat, chunkSize: nat)
      requires chunkHead == Null && numChunks == 0 && freeChunks == 0
      modifies this
      ensures var es := Visited(buf, 0, Layout(elemsPerPage, nrPages, nrPages, elemLen));
              var c := LinkAll(Fresh(old(words)), es, chunkSize);
              words == c.words && chunkHead == c.chunkHead && numChunks == freeChunks == c.chunks
    {
      ghost var l := Layout(elemsPerPage, nrPages, nrPages, elemLen);
      var head, prev := Ptr.Null, Ptr.Null;
      var count: nat, i: nat := 0, 0;
      ghost var end := LinkAll(Fresh(words), Visited(buf, 0, l), chunkSize);
      while i < nrPages
        invariant numChunks == freeChunks && (prev.At? ==> head.At?)
        invariant LinkAll(State(head, prev, count), Visited(buf, i, l), chunkSize) == end
      {
        ghost var c := State(head, prev, count);
        LinkJoined(c, Row(PageAt(buf, i), elemsPerPage, elemLen), Visited(buf, i + 1, l), chunkSize);
        head, prev, count := FillPage(PageAt(buf, i), elemsPerPage, elemLen, chunkSize, head, prev, count);
        i := i + 1;
      }
    }

    /** The inner loop. */
    method FillPage(start: nat, n: int, len: nat, chunkSize: nat, head0: Ptr, prev0: Ptr, count0: nat)
      returns (head: Ptr, prev: Ptr, count: nat)
      requires numChunks == freeChunks && (prev0.At? ==> head0.At?)
      modifies this
      ensures numChunks == freeChunks && (prev.At? ==> head.At?)
      ensures State(head, prev, count) == LinkAll(old(State(head0, prev0, count0)), Row(start, n, len), chunkSize)
    {
      head, prev, count := head0, prev0, count0;
      var cur: nat, j: int := start, 0;
      ghost var end := LinkAll(State(head, prev, count), Row(start, n, len), chunkSize);
      while j < n
        invariant 0 <= j && (j <= n || n < 0) && numChunks == freeChunks && (prev.At? ==> head.At?)
        invariant LinkAll(State(head, prev, count), Row(cur, n - j, len), chunkSize) == end
      {
        ghost var rest := Row(cur, n - j, len);
        assert rest[0] == cur && rest[1..] == Row(Size(cur + len), n - j - 1, len);
        head, prev, count := AddElement(cur, chunkSize, head, prev, count);
        cur := Size(cur + len);
        j := j + 1;
      }
    }

    /** The body of the inner loop. */
    method AddElement(cur: nat, chunkSize: nat, head0: Ptr, prev0: Ptr, count0: nat)
      returns (head: Ptr, prev: Ptr, count: nat)
      requires numChunks == freeChunks && (prev0.At? ==> head0.At?)
      modifies this
      ensures numChunks == freeChunks && (prev.At? ==> head.At?)
      ensures State(head, prev, count) == Link(old(State(head0, prev0, count0)), cur, chunkSize)
    {
      head, prev, count := head0, prev0, count0;
      if prev == Null {
        head := At(cur);
      } else {
        words := words[prev.a := At(cur)];
      }
      count := count + 1;
      if count == chunkSize {
        if chunkHead == Null {
          chunkHead := head;
        } else {
          words := words[Second(head.a) := chunkHead];
          chunkHead := head;
        }
        head, prev, count := Null, Null, 0;
        numChunks, freeChunks := numChunks + 1, freeChunks + 1;
      } else {
        prev := At(cur);
      }
    }
  }

  // ----- Creation -----

  /** What a datastore is to be: `all` are the planned elements, and its chunks are exactly the full ones, linked. */
  ghost predicate Yields(w: Words, chunkHead: Ptr, chunks: nat, all: seq<nat>, buf: nat, l: Layout, nrElems: nat,
                         size: nat)
  {
    var cs := Chunks(all, size);
    && l.Layout? && 0 <= l.pages && all == Elements(buf, 0, l) && Spaced(all, buf, buf + l.pages * PAGE, l.len)
    && IsChunks(Headers(w), chunkHead, cs) && chunks == |cs|
    && nrElems <= |cs| * size <= |all| && Joined(cs) == all[..|cs| * size]
    && forall j :: 0 <= j < |cs| ==> |cs[j]| == size
  }

  lemma EnoughChunks(total: nat, asked: nat, size: nat)
    requires asked <= total && 0 < size && asked % size == 0
    ensures asked <= total / size * size
  {
    DivTimes(total, size);
    assert asked == asked / size * size;
    DivAtLeast(total, size, asked / size);
    AtMost(asked / size, total / size, size);
  }

  lemma SpacedFollows(es: seq<nat>, buf: nat, end: nat, len: nat)
    requires Spaced(es, buf, end, len) && 16 <= len
    ensures Follows(es, buf, end)
  {
  }

  lemma PlanSpaced(buf: nat, nrElems: nat, elemLen: nat, nostraddle: bool)
    requires 0 < nrElems && 0 < elemLen && (nostraddle ==> AlignUp(elemLen) <= PAGE)
    ensures var l := Plan(nrElems, elemLen, nostraddle);
            l.Layout? && Spaced(Elements(buf, 0, l), buf, buf + l.pages * PAGE, l.len)
                && nrElems <= |Elements(buf, 0, l)|
  {
    var l := Plan(nrElems, elemLen, nostraddle);
    PlanFits(nrElems, elemLen, nostraddle);
    ElementsSpaced(buf, 0, l, l.perPage * l.len, buf + l.pages * PAGE);
    ElementsCounted(buf, 0, l);
  }

  lemma ChunksLinked(w: Words, all: seq<nat>, size: nat, buf: nat, end: nat, len: nat)
    requires Spaced(all, buf, end, len) && 16 <= len && Clean(w, buf, end)
    ensures var c := LinkAll(Fresh(w), all, size);
            IsChunks(Headers(c.words), c.chunkHead, Chunks(all, size)) && c.chunks == |Chunks(all, size)|
  {
    ChainedFresh(w, size, buf, end);
    SpacedFollows(all, buf, end, len);
    ChainsAll(Fresh(w), [], all, size, buf, end);
    assert [] + all == all;
  }

  lemma ChunksEnough(all: seq<nat>, nrElems: nat, size: nat)
    requires 1 <= size && nrElems % size == 0 && nrElems <= |all|
    ensures var cs := Chunks(all, size);
            && nrElems <= |cs| * size <= |all| && Joined(cs) == all[..|cs| * size]
            && forall j :: 0 <= j < |cs| ==> |cs[j]| == size
  {
    EnoughChunks(|all|, nrElems, size);
    ChunksCounted(all, size);
    PartsJoin(all, size);
  }

  /** Planned elements of nine bytes or more, in zeroed pages, become what they are to be. */
  lemma PlanYields(w: Words, buf: nat, nrElems: nat, elemLen: nat, nostraddle: bool, size: nat)
    requires 0 < nrElems && 9 <= elemLen && (nostraddle ==> AlignUp(elemLen) <= PAGE)
    requires 1 <= size && nrElems % size == 0
    requires var l := Plan(nrElems, elemLen, nostraddle); 0 <= l.pages && Clean(w, buf, buf + l.pages * PAGE)
    ensures var l := Plan(nrElems, elemLen, nostraddle);
            && l.Layout?
            && var all := Elements(buf, 0, l);
               var c := LinkAll(Fresh(w), all, size);
               Yields(c.words, c.chunkHead, c.chunks, all, buf, l, nrElems, size)
  {
    var l := Plan(nrElems, elemLen, nostraddle);
    var all := Elements(buf, 0, l);
    PlanSpaced(buf, nrElems, elemLen, nostraddle);
    ChunksLinked(w, all, size, buf, buf + l.pages * PAGE, l.len);
    ChunksEnough(all, nrElems, size);
  }

  /** mempool_create_datastore on pages at `buf`. The elements it links are always those it computes; they are the
      ones that were asked for, well linked, where the sizes are right and headers fit into elements. */
  method CreateDatastore(memory: Words, buf: nat, nrElems: nat, elemLen: nat, nostraddle: bool, chunkSize: nat)
    returns (d: Datastore, ok: bool)
    requires 1 <= chunkSize && nrElems % chunkSize == 0 && (nostraddle ==> AlignUp(elemLen) <= PAGE)
    ensures fresh(d) && (ok <==> 0 < elemLen && 0 < nrElems)
    ensures ok ==>
              && Computed(nrElems, elemLen, nostraddle).Layout?
              && var c := LinkAll(Fresh(memory), Visited(buf, 0, Computed(nrElems, elemLen, nostraddle)), chunkSize);
                 d.words == c.words && d.chunkHead == c.chunkHead && d.numChunks == d.freeChunks == c.chunks
    ensures ok && Sizes(buf, nrElems, elemLen, nostraddle) && LayoutRight(nrElems, elemLen, nostraddle) && 9 <= elemLen
            && Clean(memory, buf, buf + Plan(nrElems, elemLen, nostraddle).pages * PAGE) ==>
              var l := Plan(nrElems, elemLen, nostraddle);
              l.Layout? && Yields(d.words, d.chunkHead, d.freeChunks, Elements(buf, 0, l), buf, l, nrElems, chunkSize)
  {
    d := new Datastore(memory);
    ok := elemLen != 0 && nrElems != 0;
    if !ok {
      return;
    }
    var l := Computed(nrElems, elemLen, nostraddle);
    d.InitBufWithPages(buf, l.perPage, l.loops, l.len, chunkSize);
    SameVisits(buf, l);
    if Sizes(buf, nrElems, elemLen, nostraddle) && LayoutRight(nrElems, elemLen, nostraddle) && 9 <= elemLen
       && Clean(memory, buf, buf + Plan(nrElems, elemLen, nostraddle).pages * PAGE) {
      LayoutExactly(buf, nrElems, elemLen, nostraddle);
      PlanYields(memory, buf, nrElems, elemLen, nostraddle, chunkSize);
    }
  }

  lemma SameVisits(buf: nat, l: Layout)
    requires l.Layout?
    ensures Visited(buf, 0, l) == Visited(buf, 0, Layout(l.perPage, l.loops, l.loops, l.len))
  {
    VisitsFrom(buf, 0, l);
  }

  /** Which pages there are beside those visited does not matter. */
  lemma {:induction false} VisitsFrom(buf: nat, i: nat, l: Layout)
    requires l.Layout?
    ensures Visited(buf, i, l) == Visited(buf, i, Layout(l.perPage, l.loops, l.loops, l.len))
    decreases l.loops - i
  {
    if i < l.loops { VisitsFrom(buf, i + 1, l); }
  }
}
