/**
  Reading and writing the bytes of a chain, wherever its buffers end.
 */
module PbufCopy {
  import opened Widths
  import opened Pointers
  import opened PbufChains
  import opened PbufEdits

  function Min(a: int, b: int): int
  {
    if a < b then a else b
  }

  function Splice(s: seq<Byte>, k: nat, d: seq<Byte>): seq<Byte>
    requires k + |d| <= |s|
  {
    s[..k] + d + s[k + |d|..]
  }

  /** MEMCPY into the payload of buffer `a`. */
  function Write(m: Mem, a: nat, off: nat, d: seq<Byte>): Mem
    requires a in m && off + |d| <= |m[a].payload|
  {
    m[a := m[a].(payload := Splice(m[a].payload, off, d))]
  }

  /** Only bytes, and only in the buffers `ps`, have changed. */
  ghost predicate OnlyBytes(m: Mem, m': Mem, ps: seq<nat>)
  {
    && m'.Keys == m.Keys
    && (forall a :: a in m ==> |m'[a].payload| == |m[a].payload| && m'[a] == m[a].(payload := m'[a].payload))
    && (forall a :: a in m && a !in ps ==> m'[a] == m[a])
  }

  lemma SpliceMiddle(x: seq<Byte>, y: seq<Byte>, z: seq<Byte>, k: nat, d: seq<Byte>, s: seq<Byte>, s': seq<Byte>)
    requires k + |d| <= |y| && s == x + (y + z) && s' == x + (Splice(y, k, d) + z)
    ensures |x| + k + |d| <= |s| && s' == Splice(s, |x| + k, d)
  {
  }

  lemma SpliceAt(x: seq<Byte>, y: seq<Byte>, z: seq<Byte>, k: nat, d: seq<Byte>, s: seq<Byte>, s': seq<Byte>, at: nat)
    requires k + |d| <= |y| && s == x + (y + z) && s' == x + (Splice(y, k, d) + z) && at == |x|
    ensures at + k + |d| <= |s| && s' == Splice(s, at + k, d)
  {
    SpliceMiddle(x, y, z, k, d, s, s');
  }

  lemma ShownSplice(payload: seq<Byte>, len: nat, off: nat, d: seq<Byte>)
    requires off + |d| <= len <= |payload|
    ensures Splice(payload, off, d)[..len] == Splice(payload[..len], off, d)
  {
  }

  lemma WriteRest(m: Mem, p: Ptr, ps: seq<nat>, k: nat, m': Mem)
    requires IsChain(m, p, ps) && k < |ps| && ps[k] in m && m'.Keys == m.Keys
    requires forall a :: a in m && a != ps[k] ==> m'[a] == m[a]
    ensures Content(m', ps[..k]) == Content(m, ps[..k]) && Content(m', ps[k + 1..]) == Content(m, ps[k + 1..])
  {
    ChainNoDup(m, p, ps);
    ContentFrame(m, m', ps[..k]);
    ContentFrame(m, m', ps[k + 1..]);
  }

  lemma WriteParts(m: Mem, p: Ptr, ps: seq<nat>, k: nat, off: nat, d: seq<Byte>)
    requires IsChain(m, p, ps) && k < |ps| && ps[k] in m && off + |d| <= m[ps[k]].len <= |m[ps[k]].payload|
    ensures Content(Write(m, ps[k], off, d), ps) ==
              Content(m, ps[..k]) + (Splice(Shown(m[ps[k]]), off, d) + Content(m, ps[k + 1..]))
  {
    var m' := Write(m, ps[k], off, d);
    SplitAt(m', ps, k);
    WriteRest(m, p, ps, k, m');
    ShownSplice(m[ps[k]].payload, m[ps[k]].len, off, d);
  }

  lemma Parts(m: Mem, ps: seq<nat>, k: nat)
    requires Sized(m) && k < |ps| && ps[k] in m
    ensures Content(m, ps) == Content(m, ps[..k]) + (Shown(m[ps[k]]) + Content(m, ps[k + 1..]))
    ensures |Content(m, ps)| == Len(m, ps) && |Content(m, ps[..k])| == Len(m, ps[..k])
    ensures |Shown(m[ps[k]])| == m[ps[k]].len <= |m[ps[k]].payload| && Len(m, ps[..k]) + m[ps[k]].len <= Len(m, ps)
  {
    SplitAt(m, ps, k);
    ContentLength(m, ps);
    ContentLength(m, ps[..k]);
  }

  /** Bytes written into a buffer of the chain appear at their place in the content. */
  lemma WriteContent(m: Mem, p: Ptr, ps: seq<nat>, k: nat, off: nat, d: seq<Byte>)
    requires IsChain(m, p, ps) && Sized(m) && k < |ps| && ps[k] in m && off + |d| <= m[ps[k]].len
    ensures |Content(m, ps)| == Len(m, ps) && Len(m, ps[..k]) + off + |d| <= Len(m, ps)
    ensures Content(Write(m, ps[k], off, d), ps) == Splice(Content(m, ps), Len(m, ps[..k]) + off, d)
  {
    Parts(m, ps, k);
    WriteParts(m, p, ps, k, off, d);
    SpliceAt(Content(m, ps[..k]), Shown(m[ps[k]]), Content(m, ps[k + 1..]), off, d, Content(m, ps),
             Content(Write(m, ps[k], off, d), ps), Len(m, ps[..k]));
  }

  /** Bytes read from a buffer of the chain are bytes of the content. */
  lemma ReadContent(m: Mem, ps: seq<nat>, k: nat, off: nat, n: nat)
    requires Sized(m) && k < |ps| && ps[k] in m && off + n <= m[ps[k]].len
    ensures |Content(m, ps)| == Len(m, ps)
    ensures Len(m, ps[..k]) + off + n <= Len(m, ps)
    ensures m[ps[k]].payload[off..off + n] == Content(m, ps)[Len(m, ps[..k]) + off..Len(m, ps[..k]) + off + n]
  {
    Parts(m, ps, k);
    SliceShown(m[ps[k]], off, n);
    ReadMiddle(Content(m, ps[..k]), Shown(m[ps[k]]), Content(m, ps[k + 1..]), off, n, Content(m, ps));
  }

  lemma SliceShown(b: Pbuf, off: nat, n: nat)
    requires off + n <= b.len <= |b.payload|
    ensures |Shown(b)| == b.len && b.payload[off..off + n] == Shown(b)[off..off + n]
  {
    assert b.payload[..b.len][off..off + n] == b.payload[off..off + n];
  }

  lemma ReadMiddle(x: seq<Byte>, y: seq<Byte>, z: seq<Byte>, off: nat, n: nat, all: seq<Byte>)
    requires off + n <= |y| && all == x + (y + z)
    ensures |x| + off + n <= |all| && all[|x| + off..|x| + off + n] == y[off..off + n]
  {
  }

  /** `now` is `dst` with `k` bytes of `src`, from `offset` on, copied over its first ones. */
  ghost predicate Overlaid(now: seq<Byte>, src: seq<Byte>, offset: nat, dst: seq<Byte>, k: nat)
  {
    && |now| == |dst| && k <= |dst| && (k == 0 || offset + k <= |src|)
    && (forall i :: 0 <= i < k ==> now[i] == src[offset + i])
    && (forall i :: k <= i < |dst| ==> now[i] == dst[i])
  }

  lemma OverlaidMore(now: seq<Byte>, src: seq<Byte>, offset: nat, dst: seq<Byte>, k: nat, d: seq<Byte>)
    requires Overlaid(now, src, offset, dst, k) && k + |d| <= |dst| && offset + k + |d| <= |src|
    requires d == src[offset + k..offset + k + |d|]
    ensures Overlaid(Splice(now, k, d), src, offset, dst, k + |d|)
  {
  }

  lemma OverlaidIs(now: seq<Byte>, src: seq<Byte>, offset: nat, dst: seq<Byte>, k: nat)
    requires Overlaid(now, src, offset, dst, k)
    ensures now == (if k == 0 then [] else src[offset..offset + k]) + dst[k..]
  {
  }

  /** A step of a copy into a chain. */
  lemma WriteStep(m: Mem, p: Ptr, ps: seq<nat>, i: nat, off: nat, d: seq<Byte>, src: seq<Byte>, dst: seq<Byte>, k: nat)
    requires IsChain(m, p, ps) && Sized(m) && i < |ps| && ps[i] in m && off + |d| <= m[ps[i]].len
    requires Overlaid(Content(m, ps), src, 0, dst, k)
    requires k == Len(m, ps[..i]) + off && k + |d| <= |src| && d == src[k..k + |d|]
    ensures Overlaid(Content(Write(m, ps[i], off, d), ps), src, 0, dst, k + |d|)
  {
    WriteContent(m, p, ps, i, off, d);
    OverlaidMore(Content(m, ps), src, 0, dst, k, d);
  }

  lemma OnlyBytesMore(m: Mem, m': Mem, ps: seq<nat>, a: nat, off: nat, d: seq<Byte>)
    requires OnlyBytes(m, m', ps) && a in ps && a in m' && off + |d| <= |m'[a].payload|
    ensures OnlyBytes(m, Write(m', a, off, d), ps)
  {
  }

  /** Nothing but bytes has changed: chains, lengths, totals and references are what they were. */
  lemma OnlyBytesMeans(m: Mem, m': Mem, ps: seq<nat>, p: Ptr, qs: seq<nat>)
    requires OnlyBytes(m, m', ps) && IsChain(m, p, qs)
    ensures IsChain(m', p, qs) && Len(m', qs) == Len(m, qs)
    ensures Disjoint(ps, qs) ==> Content(m', qs) == Content(m, qs)
  {
    ChainIn(m, p, qs);
    ChainFrame(m, m', p, qs);
    SameLen(m, m', qs);
    if Disjoint(ps, qs) {
      forall a | a in qs
        ensures a in m && m'[a] == m[a]
      {
        assert a !in ps;
      }
      ContentFrame(m, m', qs);
    }
  }

  lemma OnlyBytesSized(m: Mem, m': Mem, ps: seq<nat>)
    requires OnlyBytes(m, m', ps) && Sized(m)
    ensures Sized(m')
  {
  }

  /** Lengths do not depend on the bytes. */
  lemma {:induction false} SameLen(m: Mem, m': Mem, ps: seq<nat>)
    requires m'.Keys == m.Keys && forall a :: a in m ==> m'[a].len == m[a].len
    ensures Len(m', ps) == Len(m, ps)
  {
    if ps != [] { SameLen(m, m', ps[1..]); }
  }
}
