/**
  The send side of an ixev context as a value, each change the code makes to it, and what every change keeps:
  no byte is lost or altered on its way to the kernel, and no buffer is reused while it is still needed.
 */
module SendState {
  import opened Widths
  import opened SendQueue

  const WINDOW: nat := 65536
  const DEPTH: nat := 16

  /** An entry of the reference list: the reference inside a copy buffer, or one the application registered. */
  datatype Ref = OfBuf(id: nat) | OfUser(id: nat)

  datatype Current = NoBuf | CurBuf(id: nat)

  /** `stream` is all that was accepted, `taken` the part handed to the kernel, `sent` the part acknowledged. */
  datatype View = View(
    es: seq<Entry>, refs: seq<Ref>, cur: Current,
    bufs: Bufs, pool: seq<nat>, user: User, userPos: map<nat, nat>,
    stream: seq<Byte>, taken: nat, sent: nat)

  ghost predicate NoDup<T>(s: seq<T>)
  {
    forall i, j :: 0 <= i < j < |s| ==> s[i] != s[j]
  }

  ghost predicate BufsOk(bufs: Bufs)
  {
    forall b :: b in bufs ==> |bufs[b].payload| == BUF_SIZE && bufs[b].len <= BUF_SIZE
  }

  /** A buffer on the list still holds its piece of the stream, which ends at its position. */
  ghost predicate RefOk(v: View, r: Ref)
  {
    match r
    case OfBuf(b) =>
      && b in v.bufs && v.bufs[b].len <= |v.bufs[b].payload|
      && v.bufs[b].len <= v.bufs[b].sendPos <= |v.stream|
      && v.bufs[b].payload[..v.bufs[b].len] == v.stream[v.bufs[b].sendPos - v.bufs[b].len..v.bufs[b].sendPos]
    case OfUser(u) => u in v.userPos && v.userPos[u] <= |v.stream|
  }

  ghost predicate RefsOk(v: View)
  {
    NoDup(v.refs) && forall i :: 0 <= i < |v.refs| ==> RefOk(v, v.refs[i])
  }

  /** Free buffers exist once and are on no list. */
  ghost predicate PoolOk(v: View)
  {
    NoDup(v.pool) && forall i :: 0 <= i < |v.pool| ==> v.pool[i] in v.bufs && OfBuf(v.pool[i]) !in v.refs
  }

  ghost predicate EntriesHeld(v: View)
  {
    forall j :: 0 <= j < |v.es| && v.es[j].base.InBuf? ==> OfBuf(v.es[j].base.id) in v.refs
  }

  /** The cached buffer is never a released one, ends at the end of the stream, and owns the last entry. */
  ghost predicate CurOk(v: View)
  {
    v.cur.CurBuf? ==>
      && v.cur.id in v.bufs && OfBuf(v.cur.id) in v.refs
      && v.bufs[v.cur.id].sendPos == |v.stream|
      && (v.es != [] ==> v.es[|v.es| - 1].base == InBuf(v.cur.id))
  }

  /** What was accepted is what the kernel has taken followed by the entries. */
  ghost predicate StreamOk(v: View)
  {
    && v.sent <= v.taken <= |v.stream| <= v.sent + WINDOW
    && |v.es| <= DEPTH
    && EntriesOk(v.bufs, v.user, v.es, |v.stream|)
    && Total(v.es) == |v.stream| - v.taken
    && Gather(v.bufs, v.user, v.es) == v.stream[v.taken..]
  }

  ghost predicate Sound(v: View)
  {
    BufsOk(v.bufs) && StreamOk(v) && RefsOk(v) && PoolOk(v) && EntriesHeld(v) && CurOk(v)
  }

  // ----- ixev_buf_store -----

  /** Copy `data` behind what the buffer holds, and let its reference be due at `pos`. */
  function Stored(buf: Buf, data: seq<Byte>, pos: nat): (r: Buf)
    requires buf.len + |data| <= |buf.payload|
    ensures |r.payload| == |buf.payload| && r.len == buf.len + |data| && r.sendPos == pos
    ensures r.payload[..r.len] == buf.payload[..buf.len] + data
  {
    Buf(buf.len + |data|, pos, buf.payload[..buf.len] + data + buf.payload[buf.len + |data|..])
  }

  // ----- The hot path: append to the cached buffer -----

  ghost predicate CanAppend(v: View, data: seq<Byte>)
  {
    && v.cur.CurBuf? && v.es != [] && v.cur.id in v.bufs
    && v.bufs[v.cur.id].len + |data| <= |v.bufs[v.cur.id].payload|
    && |v.stream| + |data| <= v.sent + WINDOW
  }

  function Appended(v: View, data: seq<Byte>): View
    requires v.cur.CurBuf? && v.es != [] && v.cur.id in v.bufs
    requires v.bufs[v.cur.id].len + |data| <= |v.bufs[v.cur.id].payload|
  {
    var b := v.cur.id;
    var last := v.es[|v.es| - 1];
    v.(bufs := v.bufs[b := Stored(v.bufs[b], data, |v.stream| + |data|)],
       es := v.es[..|v.es| - 1] + [last.(len := last.len + |data|)],
       stream := v.stream + data)
  }

  lemma GrownLast(bufs: Bufs, user: User, last: Entry, total: int, b: nat, buf: Buf, n: nat)
    requires EntryOk(bufs, user, last, total) && last.base == InBuf(b)
    requires buf.len == bufs[b].len + n <= |buf.payload| && buf.sendPos == total + n
    ensures EntryOk(bufs[b := buf], user, last.(len := last.len + n), total + n)
  {
  }

  /** The parts of the hot path: the entries before the last, the last one, and the last one longer. */
  lemma GrownEntries(bufs: Bufs, user: User, es: seq<Entry>, last: Entry, total: int, b: nat, buf: Buf, n: nat)
    requires EntriesOk(bufs, user, es + [last], total) && last.base == InBuf(b) && b in bufs
    requires buf.len == bufs[b].len + n <= |buf.payload| && buf.sendPos == total + n
    ensures Elsewhere(es, b) && EntryOk(bufs, user, last, total)
    ensures EntriesOk(bufs[b := buf], user, es + [last.(len := last.len + n)], total + n)
    ensures Total(es + [last.(len := last.len + n)]) == Total(es + [last]) + n
  {
    var last' := last.(len := last.len + n);
    LastOk(bufs, user, es, last, total);
    OthersElsewhere(bufs, user, es, last, total, b);
    GrownLast(bufs, user, last, total, b, buf, n);
    assert [last][1..] == [] && Total([last]) == last.len;
    ExtendOk(bufs, user, es, [last], [last'], total, b, buf);
    TotalAppend(es, last);
    TotalAppend(es, last');
  }

  lemma Assoc(g: seq<Byte>, x: seq<Byte>, y: seq<Byte>)
    ensures g + (x + y) == (g + x) + y
  {
  }

  lemma GrownGather(bufs: Bufs, user: User, es: seq<Entry>, last: Entry, last': Entry, b: nat, buf: Buf,
                    data: seq<Byte>)
    requires Elsewhere(es, b)
    requires Bytes(bufs[b := buf], user, last') == Bytes(bufs, user, last) + data
    ensures Gather(bufs[b := buf], user, es + [last']) == Gather(bufs, user, es + [last]) + data
  {
    GatherElsewhere(bufs, user, es, b, buf);
    GatherAppend(bufs, user, es, last);
    GatherAppend(bufs[b := buf], user, es, last');
    Assoc(Gather(bufs, user, es), Bytes(bufs, user, last), data);
  }

  lemma AppendedGather(v: View, data: seq<Byte>, es: seq<Entry>, last: Entry)
    requires CurOk(v) && CanAppend(v, data) && v.es == es + [last] && Elsewhere(es, v.cur.id)
    requires EntryOk(v.bufs, v.user, last, |v.stream|)
    requires v.taken <= |v.stream| && Gather(v.bufs, v.user, v.es) == v.stream[v.taken..]
    ensures var t := Appended(v, data);
            Gather(t.bufs, v.user, es + [last.(len := last.len + |data|)]) == t.stream[v.taken..]
  {
    LastBytes(v, data);
    GrownGather(v.bufs, v.user, es, last, last.(len := last.len + |data|), v.cur.id, Appended(v, data).bufs[v.cur.id],
                data);
    SliceFrom(v.stream, data, v.taken);
  }

  lemma AppendedEntries(v: View, data: seq<Byte>, es: seq<Entry>, last: Entry)
    requires CurOk(v) && CanAppend(v, data) && v.es == es + [last]
    requires EntriesOk(v.bufs, v.user, es + [last], |v.stream|)
    ensures Elsewhere(es, v.cur.id) && EntryOk(v.bufs, v.user, last, |v.stream|)
    ensures var t := Appended(v, data);
            EntriesOk(t.bufs, v.user, es + [last.(len := last.len + |data|)], |t.stream|)
    ensures Total(es + [last.(len := last.len + |data|)]) == Total(es + [last]) + |data|
  {
    LastIsCurrent(v, es, last);
    GrownEntries(v.bufs, v.user, es, last, |v.stream|, v.cur.id, Stored(v.bufs[v.cur.id], data, |v.stream| + |data|),
                 |data|);
    AppendedIs(v, data);
  }

  lemma LastIsCurrent(v: View, es: seq<Entry>, last: Entry)
    requires CurOk(v) && v.cur.CurBuf? && v.es == es + [last]
    ensures last.base == InBuf(v.cur.id) && v.bufs[v.cur.id].sendPos == |v.stream|
  {
    assert last == v.es[|v.es| - 1];
  }

  lemma AppendedIs(v: View, data: seq<Byte>)
    requires CanAppend(v, data)
    ensures Appended(v, data).bufs == v.bufs[v.cur.id := Stored(v.bufs[v.cur.id], data, |v.stream| + |data|)]
    ensures |Appended(v, data).stream| == |v.stream| + |data|
  {
  }

  lemma AppendedParts(v: View, t: View, data: seq<Byte>, es: seq<Entry>, last: Entry)
    requires CurOk(v) && StreamOk(v) && CanAppend(v, data) && v.es == es + [last]
    requires t == Appended(v, data) && t.es == es + [last.(len := last.len + |data|)]
    ensures StreamOk(t)
  {
    AppendedEntries(v, data, es, last);
    AppendedGather(v, data, es, last);
  }

  lemma SplitLast(es: seq<Entry>)
    requires es != []
    ensures es == es[..|es| - 1] + [es[|es| - 1]]
  {
  }

  lemma AppendedStream(v: View, data: seq<Byte>)
    requires CurOk(v) && StreamOk(v) && CanAppend(v, data)
    ensures StreamOk(Appended(v, data))
  {
    SplitLast(v.es);
    AppendedParts(v, Appended(v, data), data, v.es[..|v.es| - 1], v.es[|v.es| - 1]);
  }

  lemma SliceFrom(s: seq<Byte>, d: seq<Byte>, a: nat)
    requires a <= |s|
    ensures (s + d)[a..] == s[a..] + d
  {
  }

  lemma SliceOf(s: seq<Byte>, d: seq<Byte>, a: nat, b: nat)
    requires a <= b <= |s|
    ensures (s + d)[a..b] == s[a..b]
  {
  }

  /** The last entry, extended, shows its old bytes and then the new ones. */
  lemma LastBytes(v: View, data: seq<Byte>)
    requires CurOk(v) && CanAppend(v, data)
    requires EntryOk(v.bufs, v.user, v.es[|v.es| - 1], |v.stream|)
    ensures var last := v.es[|v.es| - 1];
            Bytes(Appended(v, data).bufs, v.user, last.(len := last.len + |data|)) == Bytes(v.bufs, v.user, last) + data
  {
    var last, b := v.es[|v.es| - 1], v.bufs[v.cur.id];
    var p := b.payload[..b.len] + data;
    var q := Stored(b, data, |v.stream| + |data|).payload;
    assert q[..b.len + |data|] == p;
    assert q[last.off..b.len + |data|] == p[last.off..];
  }

  /** A reference to an unchanged buffer is as good for a longer stream. */
  lemma LongerRef(v: View, t: View, r: Ref, d: seq<Byte>)
    requires RefOk(v, r) && t.stream == v.stream + d
    requires r.OfBuf? ==> r.id in t.bufs && t.bufs[r.id] == v.bufs[r.id]
    requires r.OfUser? ==> r.id in t.userPos && t.userPos[r.id] == v.userPos[r.id]
    ensures RefOk(t, r)
  {
    if r.OfBuf? {
      var x := v.bufs[r.id];
      SliceOf(v.stream, d, x.sendPos - x.len, x.sendPos);
    }
  }

  lemma GrownRef(v: View, data: seq<Byte>)
    requires CanAppend(v, data) && RefOk(v, OfBuf(v.cur.id)) && v.bufs[v.cur.id].sendPos == |v.stream|
    ensures RefOk(Appended(v, data), OfBuf(v.cur.id))
  {
    var b := v.bufs[v.cur.id];
    SliceFrom(v.stream, data, |v.stream| - b.len);
  }

  lemma AppendedRefs(v: View, data: seq<Byte>)
    requires CurOk(v) && RefsOk(v) && CanAppend(v, data)
    ensures RefsOk(Appended(v, data))
  {
    var t := Appended(v, data);
    forall i | 0 <= i < |t.refs|
      ensures RefOk(t, t.refs[i])
    {
      assert RefOk(v, v.refs[i]);
      if v.refs[i] == OfBuf(v.cur.id) {
        GrownRef(v, data);
      } else {
        LongerRef(v, t, v.refs[i], data);
      }
    }
  }

  lemma AppendedSound(v: View, data: seq<Byte>)
    requires Sound(v) && CanAppend(v, data)
    ensures Sound(Appended(v, data))
  {
    AppendedStream(v, data);
    AppendedRefs(v, data);
  }

  // ----- The cold path: a new buffer and a new entry -----

  ghost predicate CanOpen(v: View, data: seq<Byte>)
  {
    && |v.es| < DEPTH && v.pool != [] && v.pool[0] in v.bufs
    && 0 < |data| <= |v.bufs[v.pool[0]].payload|
    && |v.stream| + |data| <= v.sent + WINDOW
  }

  function Opened(v: View, data: seq<Byte>): View
    requires v.pool != [] && v.pool[0] in v.bufs && |data| <= |v.bufs[v.pool[0]].payload|
  {
    var b := v.pool[0];
    v.(bufs := v.bufs[b := Stored(v.bufs[b].(len := 0), data, |v.stream| + |data|)],
       pool := v.pool[1..],
       es := v.es + [Entry(InBuf(b), 0, |data|)],
       refs := v.refs + [OfBuf(b)],
       cur := CurBuf(b),
       stream := v.stream + data)
  }

  lemma OpenedStream(v: View, data: seq<Byte>)
    requires StreamOk(v) && EntriesHeld(v) && CanOpen(v, data) && OfBuf(v.pool[0]) !in v.refs
    ensures StreamOk(Opened(v, data))
  {
    var t, b := Opened(v, data), v.pool[0];
    var e := Entry(InBuf(b), 0, |data|);
    assert Elsewhere(v.es, b);
    OpenedEntries(v, data, e);
    OpenedGather(v, data, e);
    SliceFrom(v.stream, data, v.taken);
  }

  lemma OpenedEntries(v: View, data: seq<Byte>, e: Entry)
    requires CanOpen(v, data) && e == Entry(InBuf(v.pool[0]), 0, |data|)
    requires EntriesOk(v.bufs, v.user, v.es, |v.stream|)
    requires Elsewhere(v.es, v.pool[0])
    ensures var t := Opened(v, data);
            EntriesOk(t.bufs, v.user, t.es, |t.stream|) && Total(t.es) == Total(v.es) + |data|
  {
    assert v.es + [] == v.es;
    ExtendOk(v.bufs, v.user, v.es, [], [e], |v.stream|, v.pool[0], Opened(v, data).bufs[v.pool[0]]);
    TotalAppend(v.es, e);
  }

  lemma OpenedGather(v: View, data: seq<Byte>, e: Entry)
    requires CanOpen(v, data) && e == Entry(InBuf(v.pool[0]), 0, |data|)
    requires Elsewhere(v.es, v.pool[0])
    ensures Gather(Opened(v, data).bufs, v.user, Opened(v, data).es) == Gather(v.bufs, v.user, v.es) + data
  {
    var t, b := Opened(v, data), v.pool[0];
    assert Bytes(t.bufs, v.user, e) == data;
    GatherElsewhere(v.bufs, v.user, v.es, b, t.bufs[b]);
    GatherAppend(t.bufs, v.user, v.es, e);
  }

  lemma OpenedRefs(v: View, data: seq<Byte>)
    requires RefsOk(v) && PoolOk(v) && CanOpen(v, data)
    ensures RefsOk(Opened(v, data)) && PoolOk(Opened(v, data))
  {
    var t, b := Opened(v, data), v.pool[0];
    forall i | 0 <= i < |t.refs|
      ensures RefOk(t, t.refs[i])
    {
      if i < |v.refs| {
        assert RefOk(v, v.refs[i]) && v.refs[i] in v.refs;
        LongerRef(v, t, v.refs[i], data);
      } else {
        SliceFrom(v.stream, data, |v.stream|);
      }
    }
  }

  lemma OpenedSound(v: View, data: seq<Byte>)
    requires Sound(v) && CanOpen(v, data)
    ensures Sound(Opened(v, data))
  {
    OpenedStream(v, data);
    OpenedRefs(v, data);
    var t := Opened(v, data);
    forall j | 0 <= j < |t.es| && t.es[j].base.InBuf?
      ensures OfBuf(t.es[j].base.id) in t.refs
    {
      if j < |v.es| {
        assert OfBuf(v.es[j].base.id) in v.refs;
      } else {
        assert t.refs[|v.refs|] == OfBuf(v.pool[0]);
      }
    }
  }

  lemma NoCurrentSound(v: View)
    requires Sound(v)
    ensures Sound(v.(cur := NoBuf))
  {
    LongerRefs(v, v.(cur := NoBuf));
  }

  // ----- Zero copy -----

  /** The application's bytes [off, off + len) of its memory `u`. */
  ghost predicate CanPass(v: View, u: nat, off: nat, len: nat)
  {
    && |v.es| < DEPTH && u in v.user && 0 < len && off + len <= |v.user[u]|
    && |v.stream| + len <= v.sent + WINDOW
  }

  function Passed(v: View, u: nat, off: nat, len: nat): View
    requires u in v.user && off + len <= |v.user[u]|
  {
    v.(cur := NoBuf, es := v.es + [Entry(InUser(u), off, len)], stream := v.stream + v.user[u][off..off + len])
  }

  lemma {:induction false} PassOk(bufs: Bufs, user: User, es: seq<Entry>, e: Entry, total: int)
    requires EntriesOk(bufs, user, es, total) && EntryOk(bufs, user, e, total + e.len)
    ensures EntriesOk(bufs, user, es + [e], total + e.len)
  {
    if es == [] {
      assert [] + [e] == [e];
      assert [e][1..] == [];
    } else {
      assert (es + [e])[1..] == es[1..] + [e];
      PassOk(bufs, user, es[1..], e, total);
      TotalAppend(es[1..], e);
    }
  }

  lemma LongerRefs(v: View, t: View)
    requires RefsOk(v) && v.stream <= t.stream && t.refs == v.refs && t.bufs == v.bufs && t.userPos == v.userPos
    ensures RefsOk(t)
  {
    forall i | 0 <= i < |t.refs|
      ensures RefOk(t, t.refs[i])
    {
      assert RefOk(v, v.refs[i]);
      LongerRef(v, t, v.refs[i], t.stream[|v.stream|..]);
    }
  }

  lemma PassedStream(v: View, u: nat, off: nat, len: nat)
    requires StreamOk(v) && CanPass(v, u, off, len)
    ensures StreamOk(Passed(v, u, off, len))
  {
    var e := Entry(InUser(u), off, len);
    PassOk(v.bufs, v.user, v.es, e, |v.stream|);
    TotalAppend(v.es, e);
    GatherAppend(v.bufs, v.user, v.es, e);
    SliceFrom(v.stream, v.user[u][off..off + len], v.taken);
  }

  lemma PassedSound(v: View, u: nat, off: nat, len: nat)
    requires Sound(v) && CanPass(v, u, off, len)
    ensures Sound(Passed(v, u, off, len))
  {
    PassedStream(v, u, off, len);
    LongerRefs(v, Passed(v, u, off, len));
  }

  // ----- The kernel's answers -----

  function KernelTook(v: View, n: nat): View
  {
    v.(es := Taken(v.es, n), taken := v.taken + n)
  }

  lemma {:induction false} TakenBases(es: seq<Entry>, n: nat, j: nat)
    requires j < |Taken(es, n)|
    ensures exists k :: 0 <= k < |es| && es[k].base == Taken(es, n)[j].base
    ensures |Taken(es, n)| <= |es|
  {
    if n < es[0].len {
      assert es[j].base == Taken(es, n)[j].base;
    } else {
      TakenBases(es[1..], n - es[0].len, j);
      var k :| 0 <= k < |es[1..]| && es[1..][k].base == Taken(es, n)[j].base;
      assert es[k + 1].base == Taken(es, n)[j].base;
    }
  }

  lemma {:induction false} TakenShorter(es: seq<Entry>, n: nat)
    ensures |Taken(es, n)| <= |es|
  {
    if es != [] && es[0].len <= n { TakenShorter(es[1..], n - es[0].len); }
  }

  lemma KernelTookStream(v: View, n: nat)
    requires StreamOk(v) && n <= Total(v.es)
    ensures StreamOk(KernelTook(v, n))
  {
    var es := Taken(v.es, n);
    TakenOk(v.bufs, v.user, v.es, n, |v.stream|);
    TakenShorter(v.es, n);
    KernelTookBytes(v, n);
    assert Total(es) == |v.stream| - (v.taken + n);
  }

  lemma KernelTookBytes(v: View, n: nat)
    requires StreamOk(v) && n <= Total(v.es)
    ensures v.taken + n <= |v.stream|
    ensures Gather(v.bufs, v.user, Taken(v.es, n)) == v.stream[v.taken + n..]
  {
    TakenBytes(v.bufs, v.user, v.es, n, |v.stream|);
    DropTwice(v.stream, v.taken, n);
  }

  lemma DropTwice(s: seq<Byte>, a: nat, n: nat)
    requires a + n <= |s|
    ensures s[a + n..] == s[a..][n..]
  {
  }

  lemma KernelTookHeld(v: View, n: nat)
    requires EntriesHeld(v)
    ensures EntriesHeld(KernelTook(v, n))
  {
    var t := KernelTook(v, n);
    forall j | 0 <= j < |t.es| && t.es[j].base.InBuf?
      ensures OfBuf(t.es[j].base.id) in t.refs
    {
      TakenBases(v.es, n, j);
      var k :| 0 <= k < |v.es| && v.es[k].base == t.es[j].base;
    }
  }

  lemma KernelTookCur(v: View, n: nat)
    requires CurOk(v) && StreamOk(v) && n <= Total(v.es)
    ensures CurOk(KernelTook(v, n))
  {
    if n < Total(v.es) {
      TakenLast(v.es, n);
    } else {
      TakenOk(v.bufs, v.user, v.es, n, |v.stream|);
      GatherLength(v.bufs, v.user, Taken(v.es, n), |v.stream|);
    }
  }

  lemma KernelTookSound(v: View, n: nat)
    requires Sound(v) && n <= Total(v.es)
    ensures Sound(KernelTook(v, n))
  {
    KernelTookStream(v, n);
    KernelTookHeld(v, n);
    KernelTookCur(v, n);
    LongerRefs(v, KernelTook(v, n));
  }

  // ----- Acknowledgements -----

  /** ref->send_pos */
  function Due(bufs: Bufs, userPos: map<nat, nat>, r: Ref): nat
  {
    match r
    case OfBuf(b) => if b in bufs then bufs[b].sendPos else 0
    case OfUser(u) => if u in userPos then userPos[u] else 0
  }

  /** How many references at the head of the list are due by `sent`. */
  function DueCount(bufs: Bufs, userPos: map<nat, nat>, rs: seq<Ref>, sent: nat): (n: nat)
    ensures n <= |rs|
  {
    if rs == [] || sent < Due(bufs, userPos, rs[0]) then 0 else 1 + DueCount(bufs, userPos, rs[1..], sent)
  }

  lemma {:induction false} DueCountMeans(bufs: Bufs, userPos: map<nat, nat>, rs: seq<Ref>, sent: nat)
    ensures var n := DueCount(bufs, userPos, rs, sent);
            && (forall i :: 0 <= i < n ==> Due(bufs, userPos, rs[i]) <= sent)
            && (n < |rs| ==> sent < Due(bufs, userPos, rs[n]))
  {
    if rs != [] { DueCountMeans(bufs, userPos, rs[1..], sent); }
  }

  /** ixev_buf_release for the buffers among some references: back to the head of the free list, one by one. */
  function Freed(pool: seq<nat>, rs: seq<Ref>): seq<nat>
    decreases |rs|
  {
    if rs == [] then pool
    else Freed(if rs[0].OfBuf? then [rs[0].id] + pool else pool, rs[1..])
  }

  lemma {:induction false} FreedSnoc(pool: seq<nat>, rs: seq<Ref>, r: Ref)
    ensures Freed(pool, rs + [r]) == if r.OfBuf? then [r.id] + Freed(pool, rs) else Freed(pool, rs)
    decreases |rs|
  {
    if rs == [] {
      assert [] + [r] == [r];
    } else {
      assert (rs + [r])[1..] == rs[1..] + [r];
      FreedSnoc(if rs[0].OfBuf? then [rs[0].id] + pool else pool, rs[1..], r);
    }
  }

  function Acknowledged(v: View, len: nat): View
  {
    var n := DueCount(v.bufs, v.userPos, v.refs, v.sent + len);
    v.(sent := v.sent + len, refs := v.refs[n..], pool := Freed(v.pool, v.refs[..n]),
       cur := if n == |v.refs| then NoBuf else v.cur)
  }

  lemma KernelTookStorage(v: View, n: nat)
    requires Storage(v)
    ensures Storage(KernelTook(v, n))
  {
    TakenShorter(v.es, n);
  }

  lemma AcknowledgedStorage(v: View, len: nat)
    requires Storage(v)
    ensures Storage(Acknowledged(v, len))
  {
    var n := DueCount(v.bufs, v.userPos, v.refs, v.sent + len);
    FreedIn(v.bufs, v.pool, v.refs[..n]);
  }

  lemma {:induction false} FreedOk(bufs: Bufs, pool: seq<nat>, rs: seq<Ref>, rest: seq<Ref>)
    requires NoDup(pool) && NoDup(rs + rest)
    requires forall i :: 0 <= i < |pool| ==> pool[i] in bufs && OfBuf(pool[i]) !in rs + rest
    requires forall i :: 0 <= i < |rs| && rs[i].OfBuf? ==> rs[i].id in bufs
    ensures var p := Freed(pool, rs);
            NoDup(p) && forall i :: 0 <= i < |p| ==> p[i] in bufs && OfBuf(p[i]) !in rest
    decreases |rs|
  {
    if rs == [] {
      assert rs + rest == rest;
    } else {
      var all := rs + rest;
      assert all[1..] == rs[1..] + rest;
      NoDupTail(all);
      FreedOk(bufs, if rs[0].OfBuf? then [rs[0].id] + pool else pool, rs[1..], rest);
    }
  }

  lemma NoDupTail(s: seq<Ref>)
    requires NoDup(s) && s != []
    ensures NoDup(s[1..]) && s[0] !in s[1..] && s[0] in s
    ensures forall r :: r in s[1..] ==> r in s
  {
  }

  /** A reference that is not due yet stays on the list. */
  lemma LateStays(v: View, len: nat, r: Ref)
    requires r in v.refs && v.sent + len < Due(v.bufs, v.userPos, r)
    ensures r in Acknowledged(v, len).refs
  {
    var n := DueCount(v.bufs, v.userPos, v.refs, v.sent + len);
    DueCountMeans(v.bufs, v.userPos, v.refs, v.sent + len);
    var k :| 0 <= k < |v.refs| && v.refs[k] == r;
    assert n <= k;
    assert v.refs[n..][k - n] == r;
  }

  /** A reference that leaves the list was due. */
  lemma GoneWasDue(v: View, len: nat, r: Ref)
    requires r in v.refs && r !in Acknowledged(v, len).refs
    ensures Due(v.bufs, v.userPos, r) <= v.sent + len
  {
    if v.sent + len < Due(v.bufs, v.userPos, r) { LateStays(v, len, r); }
  }

  /** While references are left, some byte is not acknowledged. */
  lemma LeftMeansUnacknowledged(v: View, len: nat)
    requires RefsOk(v) && DueCount(v.bufs, v.userPos, v.refs, v.sent + len) < |v.refs|
    ensures v.sent + len < |v.stream|
  {
    DueCountMeans(v.bufs, v.userPos, v.refs, v.sent + len);
    assert RefOk(v, v.refs[DueCount(v.bufs, v.userPos, v.refs, v.sent + len)]);
  }

  lemma StillInUse(v: View, len: nat)
    requires StreamOk(v) && EntriesHeld(v) && v.sent + len <= v.taken
    ensures EntriesHeld(Acknowledged(v, len))
  {
    var t := Acknowledged(v, len);
    forall j | 0 <= j < |v.es| && v.es[j].base.InBuf?
      ensures OfBuf(v.es[j].base.id) in t.refs
    {
      QueuedDueLater(v.bufs, v.user, v.es, |v.stream|, j);
      LateStays(v, len, OfBuf(v.es[j].base.id));
    }
  }

  lemma StillCached(v: View, len: nat)
    requires RefsOk(v) && CurOk(v)
    ensures CurOk(Acknowledged(v, len))
  {
    if Acknowledged(v, len).cur.CurBuf? {
      LeftMeansUnacknowledged(v, len);
      LateStays(v, len, OfBuf(v.cur.id));
    }
  }

  /** A released buffer is in no entry, and is not the cached one. */
  lemma StillNeeded(v: View, len: nat)
    requires Sound(v) && v.sent + len <= v.taken
    ensures EntriesHeld(Acknowledged(v, len)) && CurOk(Acknowledged(v, len))
  {
    StillInUse(v, len);
    StillCached(v, len);
  }

  lemma AcknowledgedPool(v: View, len: nat)
    requires RefsOk(v) && PoolOk(v)
    ensures PoolOk(Acknowledged(v, len))
  {
    var n := DueCount(v.bufs, v.userPos, v.refs, v.sent + len);
    var gone := v.refs[..n];
    assert gone + v.refs[n..] == v.refs;
    forall i | 0 <= i < |gone| && gone[i].OfBuf?
      ensures gone[i].id in v.bufs
    {
      assert RefOk(v, v.refs[i]);
    }
    FreedOk(v.bufs, v.pool, gone, v.refs[n..]);
  }

  lemma AcknowledgedRefs(v: View, len: nat)
    requires RefsOk(v)
    ensures RefsOk(Acknowledged(v, len))
  {
    var t := Acknowledged(v, len);
    var n := DueCount(v.bufs, v.userPos, v.refs, v.sent + len);
    forall i | 0 <= i < |t.refs|
      ensures RefOk(t, t.refs[i])
    {
      assert RefOk(v, v.refs[i + n]);
    }
  }

  lemma AcknowledgedSound(v: View, len: nat)
    requires Sound(v) && v.sent + len <= v.taken
    ensures Sound(Acknowledged(v, len))
  {
    StillNeeded(v, len);
    AcknowledgedPool(v, len);
    AcknowledgedRefs(v, len);
  }

  // ----- A callback of the application -----

  function Registered(v: View, u: nat): View
  {
    v.(refs := v.refs + [OfUser(u)], userPos := v.userPos[u := |v.stream|])
  }

  lemma RegisteredSound(v: View, u: nat)
    requires Sound(v) && OfUser(u) !in v.refs
    ensures Sound(Registered(v, u))
  {
    var t := Registered(v, u);
    forall i | 0 <= i < |t.refs|
      ensures RefOk(t, t.refs[i])
    {
      if i < |v.refs| { assert RefOk(v, v.refs[i]); }
    }
  }

  /** A buffer is released only when all its bytes are acknowledged; until then it holds its bytes of the stream. */
  lemma UnacknowledgedIntact(v: View, len: nat, b: nat)
    requires Sound(v) && v.sent + len <= v.taken && OfBuf(b) in v.refs
    ensures OfBuf(b) !in Acknowledged(v, len).refs ==> b in v.bufs && v.bufs[b].sendPos <= v.sent + len
    ensures OfBuf(b) in Acknowledged(v, len).refs ==> RefOk(Acknowledged(v, len), OfBuf(b))
  {
    HeldRef(v, OfBuf(b));
    if OfBuf(b) !in Acknowledged(v, len).refs {
      GoneWasDue(v, len, OfBuf(b));
    }
  }

  lemma HeldRef(v: View, r: Ref)
    requires RefsOk(v) && r in v.refs
    ensures RefOk(v, r)
  {
    var k :| 0 <= k < |v.refs| && v.refs[k] == r;
    assert RefOk(v, v.refs[k]);
  }

  // ----- ixev_send -----

  function Min(a: int, b: int): int
  {
    if a < b then a else b
  }

  ghost predicate PoolIn(bufs: Bufs, pool: seq<nat>)
  {
    forall i :: 0 <= i < |pool| ==> pool[i] in bufs
  }

  ghost predicate RefsIn(bufs: Bufs, refs: seq<Ref>)
  {
    forall i :: 0 <= i < |refs| && refs[i].OfBuf? ==> refs[i].id in bufs
  }

  /** What the code relies on to run at all. */
  ghost predicate Storage(v: View)
  {
    && BufsOk(v.bufs) && |v.stream| <= v.sent + WINDOW && |v.es| <= DEPTH
    && PoolIn(v.bufs, v.pool) && RefsIn(v.bufs, v.refs)
    && (v.cur.CurBuf? ==> v.cur.id in v.bufs)
  }

  /** ixev_window_len */
  function Window(v: View, len: nat): nat
    requires |v.stream| <= v.sent + WINDOW
  {
    Min(v.sent + WINDOW - |v.stream|, len)
  }

  /** Bytes that still fit in the buffer the last entry shows. */
  function HotRoom(v: View): nat
    requires Storage(v)
  {
    if v.es != [] && v.cur.CurBuf? then BUF_SIZE - v.bufs[v.cur.id].len else 0
  }

  function Hot(v: View, data: seq<Byte>): View
    requires Storage(v) && |v.stream| + |data| <= v.sent + WINDOW
  {
    if v.es != [] && v.cur.CurBuf? then Appended(v, data[..Min(|data|, HotRoom(v))]) else v
  }

  /** New buffers until the data, the entries or the free buffers run out. */
  function Cold(v: View, data: seq<Byte>): View
    requires Storage(v) && |v.stream| + |data| <= v.sent + WINDOW
    decreases |data|
  {
    if data == [] || |v.es| >= DEPTH then v
    else if v.pool == [] then v.(cur := NoBuf)
    else
      var n := Min(|data|, BUF_SIZE);
      OpenedStorage(v, data[..n]);
      Cold(Opened(v, data[..n]), data[n..])
  }

  lemma OpenedStorage(v: View, data: seq<Byte>)
    requires Storage(v) && |v.es| < DEPTH && v.pool != [] && |data| <= BUF_SIZE
             && |v.stream| + |data| <= v.sent + WINDOW
    ensures Storage(Opened(v, data))
  {
  }

  /** One round of the cold path. */
  lemma ColdTurn(v: View, data: seq<Byte>, n: nat)
    requires Storage(v) && |v.stream| + |data| <= v.sent + WINDOW && |v.es| < DEPTH && v.pool != [] && data != []
    requires n == Min(|data|, BUF_SIZE)
    ensures Storage(Opened(v, data[..n])) && Cold(v, data) == Cold(Opened(v, data[..n]), data[n..])
  {
    OpenedStorage(v, data[..n]);
  }

  /** Without free buffers the cold path only forgets the cached one. */
  lemma ColdDry(v: View, data: seq<Byte>)
    requires Storage(v) && |v.stream| + |data| <= v.sent + WINDOW && |v.es| < DEPTH && v.pool == [] && data != []
    ensures Cold(v, data) == v.(cur := NoBuf) && Storage(v.(cur := NoBuf)) && data[0..] == data
    ensures Cold(v.(cur := NoBuf), data) == v.(cur := NoBuf)
  {
  }

  lemma HotStorage(v: View, data: seq<Byte>)
    requires Storage(v) && |v.stream| + |data| <= v.sent + WINDOW
    ensures Storage(Hot(v, data))
  {
  }

  /** The view after ixev_send, when the context is not dead. */
  function Sent(v: View, data: seq<Byte>): View
    requires Storage(v)
  {
    var d := data[..Window(v, |data|)];
    HotStorage(v, d);
    if d == [] then v else Cold(Hot(v, d), d[Min(|d|, HotRoom(v))..])
  }

  /** How many bytes fit in the window, in the cached buffer, and in new buffers with entries for them. */
  function Accepted(v: View, len: nat): nat
    requires Storage(v)
  {
    Min(Window(v, len), HotRoom(v) + ColdRoom(v))
  }

  function ColdRoom(v: View): nat
    requires |v.es| <= DEPTH
  {
    BUF_SIZE * Min(DEPTH - |v.es|, |v.pool|)
  }

  lemma {:induction false} FreedIn(bufs: Bufs, pool: seq<nat>, rs: seq<Ref>)
    requires PoolIn(bufs, pool) && RefsIn(bufs, rs)
    ensures PoolIn(bufs, Freed(pool, rs))
    decreases |rs|
  {
    if rs != [] { FreedIn(bufs, if rs[0].OfBuf? then [rs[0].id] + pool else pool, rs[1..]); }
  }

  lemma SoundStorage(v: View)
    requires Sound(v)
    ensures Storage(v)
  {
    forall i | 0 <= i < |v.refs| && v.refs[i].OfBuf?
      ensures v.refs[i].id in v.bufs
    {
      assert RefOk(v, v.refs[i]);
    }
  }

  lemma Joined(s: seq<Byte>, data: seq<Byte>, n: nat, m: nat)
    requires n <= |data| && m <= |data| - n
    ensures (s + data[..n]) + data[n..][..m] == s + data[..n + m]
  {
    assert data[..n] + data[n..][..m] == data[..n + m];
    Assoc(s, data[..n], data[n..][..m]);
  }

  lemma OpenedRoom(v: View, data: seq<Byte>, len: nat)
    requires Storage(v) && |v.es| < DEPTH && v.pool != [] && 0 < |data| == Min(len, BUF_SIZE)
    ensures |data| + Min(len - |data|, ColdRoom(Opened(v, data))) == Min(len, ColdRoom(v))
  {
  }

  lemma ColdIs(v: View, data: seq<Byte>, n: nat)
    requires Storage(v) && |v.stream| + |data| <= v.sent + WINDOW
    requires data != [] && |v.es| < DEPTH && v.pool != [] && n == Min(|data|, BUF_SIZE)
    ensures Storage(Opened(v, data[..n])) && Cold(v, data) == Cold(Opened(v, data[..n]), data[n..])
    ensures Opened(v, data[..n]).stream == v.stream + data[..n] && Opened(v, data[..n]).sent == v.sent
  {
    OpenedStorage(v, data[..n]);
  }

  lemma {:induction false} ColdAccepts(v: View, data: seq<Byte>)
    requires Storage(v) && |v.stream| + |data| <= v.sent + WINDOW
    ensures Cold(v, data).stream == v.stream + data[..Min(|data|, ColdRoom(v))]
    decreases |data|
  {
    if data == [] || |v.es| >= DEPTH || v.pool == [] {
      assert data[..Min(|data|, ColdRoom(v))] == [];
    } else {
      var n := Min(|data|, BUF_SIZE);
      ColdIs(v, data, n);
      var t := Opened(v, data[..n]);
      ColdAccepts(t, data[n..]);
      OpenedRoom(v, data[..n], |data|);
      Joined(v.stream, data, n, Min(|data| - n, ColdRoom(t)));
    }
  }

  /** ixev_send appends to the stream a prefix of its data, as long as window, entries and buffers allow. */
  lemma SendAccepts(v: View, data: seq<Byte>)
    requires Storage(v)
    ensures Sent(v, data).stream == v.stream + data[..Accepted(v, |data|)]
  {
    var d := data[..Window(v, |data|)];
    HotStorage(v, d);
    var t, n := Hot(v, d), Min(|d|, HotRoom(v));
    HotRest(v, d);
    ColdAccepts(t, d[n..]);
    var m := Min(|d| - n, ColdRoom(t));
    Joined(v.stream, d, n, m);
    PrefixTwice(data, |d|, n + m);
  }

  /** How much that is: all the data, unless the unacknowledged 65536 bytes, or what is left of the cached buffer and
      of 16 entries with a free buffer of 5840 bytes for each, come first. */
  lemma AcceptedExactly(v: View, len: nat, n: int)
    requires Storage(v)
    ensures n == Accepted(v, len) <==>
            var window := v.sent + 65536 - |v.stream|;
            var cached := if v.es != [] && v.cur.CurBuf? then 5840 - v.bufs[v.cur.id].len else 0;
            var few, many := cached + 5840 * |v.pool|, cached + 5840 * (16 - |v.es|);
            n <= len && n <= window && n <= few && n <= many && (n == len || n == window || n == few || n == many)
  {
  }

  lemma PrefixTwice(s: seq<Byte>, k: nat, n: nat)
    requires n <= k <= |s|
    ensures s[..k][..n] == s[..n]
  {
  }

  lemma HotRest(v: View, d: seq<Byte>)
    requires Storage(v) && |v.stream| + |d| <= v.sent + WINDOW
    ensures var n := Min(|d|, HotRoom(v)); 0 <= n <= |d| && Hot(v, d).stream == v.stream + d[..n]
    ensures |Hot(v, d).es| == |v.es| && Hot(v, d).pool == v.pool
  {
  }

  lemma SendSplit(v: View, data: seq<Byte>)
    requires Storage(v) && 0 < Window(v, |data|)
    ensures var d := data[..Window(v, |data|)];
            var n := Min(|d|, HotRoom(v));
            && 0 <= n <= |d| && Storage(Hot(v, d)) && Hot(v, d).stream == v.stream + d[..n] && |Hot(v, d).es| == |v.es|
            && Sent(v, data) == Cold(Hot(v, d), d[n..])
    ensures Sent(v, data).stream == v.stream + data[..Accepted(v, |data|)]
  {
    var d := data[..Window(v, |data|)];
    SendAccepts(v, data);
    HotStorage(v, d);
    HotRest(v, d);
  }

  lemma ColdSound(v: View, data: seq<Byte>)
    requires Sound(v) && Storage(v) && |v.stream| + |data| <= v.sent + WINDOW
    ensures Sound(Cold(v, data))
    decreases |data|
  {
    if data == [] || |v.es| >= DEPTH {
    } else if v.pool == [] {
      NoCurrentSound(v);
    } else {
      var n := Min(|data|, BUF_SIZE);
      OpenedStorage(v, data[..n]);
      OpenedSound(v, data[..n]);
      ColdSound(Opened(v, data[..n]), data[n..]);
    }
  }

  lemma SendSound(v: View, data: seq<Byte>)
    requires Sound(v) && Storage(v)
    ensures Sound(Sent(v, data))
  {
    var d := data[..Window(v, |data|)];
    var n := Min(|d|, HotRoom(v));
    HotStorage(v, d);
    if v.es != [] && v.cur.CurBuf? {
      AppendedSound(v, d[..n]);
    }
    ColdSound(Hot(v, d), d[n..]);
  }
}
