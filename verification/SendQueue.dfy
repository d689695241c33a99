/**
  The scatter/gather entries of server_code/shinjuku-rocksdb/libix/ixev.c and the memory they point into: the
  thread's pool of copy buffers and the application's zero-copy memory.
 */
module SendQueue {
  import opened Widths

  const BUF_SIZE: nat := 1460 * 4

  /** struct ixev_buf with its embedded ixev_ref. */
  datatype Buf = Buf(len: nat, sendPos: nat, payload: seq<Byte>)

  /** An address: an offset in a copy buffer, or in a piece of application memory. */
  datatype Base = InBuf(id: nat) | InUser(id: nat)

  /** struct sg_entry */
  datatype Entry = Entry(base: Base, off: nat, len: nat)

  type Bufs = map<nat, Buf>
  type User = map<nat, seq<Byte>>

  /** The bytes at an address; none if there is nothing there. */
  function Memory(bufs: Bufs, user: User, base: Base): seq<Byte>
  {
    match base
    case InBuf(b) => if b in bufs then bufs[b].payload else []
    case InUser(u) => if u in user then user[u] else []
  }

  /** What the kernel reads for an entry. */
  function Bytes(bufs: Bufs, user: User, e: Entry): seq<Byte>
  {
    var m := Memory(bufs, user, e.base);
    if e.off + e.len <= |m| then m[e.off..e.off + e.len] else []
  }

  function Gather(bufs: Bufs, user: User, es: seq<Entry>): seq<Byte>
  {
    if es == [] then [] else Bytes(bufs, user, es[0]) + Gather(bufs, user, es[1..])
  }

  function Total(es: seq<Entry>): nat
  {
    if es == [] then 0 else es[0].len + Total(es[1..])
  }

  /** An entry whose last byte is byte number `end` of the stream. A copy buffer serves one entry, up to the end
      of what it holds, and its reference is due at that byte. */
  ghost predicate EntryOk(bufs: Bufs, user: User, e: Entry, end: int)
  {
    && 0 < e.len && e.off + e.len <= |Memory(bufs, user, e.base)|
    && (e.base.InBuf? ==> e.base.id in bufs && bufs[e.base.id].sendPos == end && bufs[e.base.id].len == e.off + e.len)
  }

  /** The entries end at byte `total` of the stream. */
  ghost predicate EntriesOk(bufs: Bufs, user: User, es: seq<Entry>, total: int)
  {
    es == [] ||
    (EntryOk(bufs, user, es[0], total - Total(es[1..])) && EntriesOk(bufs, user, es[1..], total))
  }

  ghost predicate Elsewhere(es: seq<Entry>, b: nat)
  {
    forall j :: 0 <= j < |es| ==> es[j].base != InBuf(b)
  }

  lemma {:induction false} GatherLength(bufs: Bufs, user: User, es: seq<Entry>, total: int)
    requires EntriesOk(bufs, user, es, total)
    ensures |Gather(bufs, user, es)| == Total(es)
    ensures |es| <= Total(es)
  {
    if es != [] { GatherLength(bufs, user, es[1..], total); }
  }

  lemma {:induction false} TotalAppend(es: seq<Entry>, e: Entry)
    ensures Total(es + [e]) == Total(es) + e.len
  {
    if es != [] {
      assert (es + [e])[1..] == es[1..] + [e];
      TotalAppend(es[1..], e);
    }
  }

  lemma GatherCons(bufs: Bufs, user: User, e: Entry, es: seq<Entry>)
    ensures Gather(bufs, user, [e] + es) == Bytes(bufs, user, e) + Gather(bufs, user, es)
  {
    assert ([e] + es)[1..] == es;
  }

  lemma {:induction false} GatherAppend(bufs: Bufs, user: User, es: seq<Entry>, e: Entry)
    ensures Gather(bufs, user, es + [e]) == Gather(bufs, user, es) + Bytes(bufs, user, e)
  {
    if es == [] {
      assert [] + [e] == [e] + [];
      GatherCons(bufs, user, e, []);
    } else {
      var tail := es[1..];
      assert es + [e] == [es[0]] + (tail + [e]);
      GatherCons(bufs, user, es[0], tail + [e]);
      GatherAppend(bufs, user, tail, e);
      Regroup(Bytes(bufs, user, es[0]), Gather(bufs, user, tail), Bytes(bufs, user, e));
    }
  }

  lemma Regroup(x: seq<Byte>, y: seq<Byte>, z: seq<Byte>)
    ensures x + (y + z) == (x + y) + z
  {
  }

  /** The memory under a run of entries is untouched by a change to buffer `b`. */
  lemma {:induction false} GatherElsewhere(bufs: Bufs, user: User, es: seq<Entry>, b: nat, v: Buf)
    requires Elsewhere(es, b)
    ensures Gather(bufs[b := v], user, es) == Gather(bufs, user, es)
  {
    if es != [] {
      assert es[0].base != InBuf(b);
      GatherElsewhere(bufs, user, es[1..], b, v);
    }
  }

  /** A buffer due at the end of the stream or later belongs to no entry but the last. */
  lemma {:induction false} OthersElsewhere(bufs: Bufs, user: User, es: seq<Entry>, e: Entry, total: int, b: nat)
    requires EntriesOk(bufs, user, es + [e], total) && b in bufs && total <= bufs[b].sendPos
    ensures Elsewhere(es, b)
  {
    if es != [] {
      assert (es + [e])[1..] == es[1..] + [e];
      TotalAppend(es[1..], e);
      OthersElsewhere(bufs, user, es[1..], e, total, b);
      LastOk(bufs, user, es, e, total);
    }
  }

  lemma {:induction false} LastOk(bufs: Bufs, user: User, es: seq<Entry>, e: Entry, total: int)
    requires EntriesOk(bufs, user, es + [e], total)
    ensures EntryOk(bufs, user, e, total)
  {
    if es == [] {
      assert ([] + [e])[1..] == [];
    } else {
      assert (es + [e])[1..] == es[1..] + [e];
      LastOk(bufs, user, es[1..], e, total);
    }
  }

  /** Buffer `b` changes, the entries that do not use it stay in order; a longer stream ends later. */
  lemma {:induction false} ExtendOk(bufs: Bufs, user: User, es: seq<Entry>, last: seq<Entry>, last': seq<Entry>,
                                    total: int, b: nat, v: Buf)
    requires EntriesOk(bufs, user, es + last, total) && |last| <= 1 && |last'| == 1
    requires Elsewhere(es, b)
    requires EntryOk(bufs[b := v], user, last'[0], total + last'[0].len - Total(last))
    ensures EntriesOk(bufs[b := v], user, es + last', total + last'[0].len - Total(last))
  {
    if es == [] {
      assert es + last' == last';
      assert last'[1..] == [];
    } else {
      var tail, total' := es[1..], total + last'[0].len - Total(last);
      assert (es + last)[1..] == tail + last && (es + last')[1..] == tail + last';
      ExtendOk(bufs, user, tail, last, last', total, b, v);
      TotalOneMore(tail, last);
      TotalOneMore(tail, last');
      assert last'[1..] == [];
      OtherOk(bufs, user, es[0], total - Total(tail + last), b, v);
      assert total' - Total(tail + last') == total - Total(tail + last);
    }
  }

  lemma OtherOk(bufs: Bufs, user: User, e: Entry, end: int, b: nat, v: Buf)
    requires e.base != InBuf(b) && EntryOk(bufs, user, e, end)
    ensures EntryOk(bufs[b := v], user, e, end)
  {
  }

  lemma TotalOneMore(es: seq<Entry>, last: seq<Entry>)
    requires |last| <= 1
    ensures Total(es + last) == Total(es) + Total(last)
  {
    if |last| == 1 {
      TotalAppend(es, last[0]);
      assert last == [last[0]];
      assert last[1..] == [];
    } else {
      assert es + last == es;
    }
  }

  /** The entries left when the kernel has taken `n` bytes: whole entries go, the next is cut short. */
  function Taken(es: seq<Entry>, n: nat): seq<Entry>
  {
    if es == [] then []
    else if n < es[0].len then [es[0].(off := es[0].off + n, len := es[0].len - n)] + es[1..]
    else Taken(es[1..], n - es[0].len)
  }

  lemma {:induction false} TakenOk(bufs: Bufs, user: User, es: seq<Entry>, n: nat, total: int)
    requires EntriesOk(bufs, user, es, total) && n <= Total(es)
    ensures EntriesOk(bufs, user, Taken(es, n), total)
    ensures Total(Taken(es, n)) == Total(es) - n
  {
    if es != [] {
      if n < es[0].len {
        assert Taken(es, n)[1..] == es[1..];
      } else {
        TakenOk(bufs, user, es[1..], n - es[0].len, total);
      }
    }
  }

  lemma CutJoin(x: seq<Byte>, y: seq<Byte>, n: nat, all: seq<Byte>, rest: seq<Byte>)
    requires n <= |x| && all == x + y && rest == x[n..] + y
    ensures n <= |all| && rest == all[n..]
  {
  }

  lemma CutBytes(bufs: Bufs, user: User, e: Entry, n: nat)
    requires e.off + e.len <= |Memory(bufs, user, e.base)| && n < e.len
    ensures |Bytes(bufs, user, e)| == e.len
    ensures Bytes(bufs, user, e.(off := e.off + n, len := e.len - n)) == Bytes(bufs, user, e)[n..]
  {
  }

  lemma CutGather(bufs: Bufs, user: User, es: seq<Entry>, n: nat)
    requires es != [] && es[0].off + es[0].len <= |Memory(bufs, user, es[0].base)| && n < es[0].len
    ensures n <= |Gather(bufs, user, es)|
    ensures Gather(bufs, user, Taken(es, n)) == Gather(bufs, user, es)[n..]
  {
    var e, tail := es[0], es[1..];
    CutBytes(bufs, user, e, n);
    var cut := e.(off := e.off + n, len := e.len - n);
    assert Taken(es, n) == [cut] + tail && es == [e] + tail;
    GatherCons(bufs, user, cut, tail);
    GatherCons(bufs, user, e, tail);
    CutJoin(Bytes(bufs, user, e), Gather(bufs, user, tail), n, Gather(bufs, user, [e] + tail),
            Gather(bufs, user, [cut] + tail));
  }

  lemma DropRest(x: seq<Byte>, y: seq<Byte>, n: nat, r: seq<Byte>)
    requires |x| <= n <= |x| + |y| && r == y[n - |x|..]
    ensures r == (x + y)[n..]
  {
  }

  lemma SkipGather(bufs: Bufs, user: User, es: seq<Entry>, n: nat)
    requires es != [] && |Bytes(bufs, user, es[0])| == es[0].len <= n
    requires n - es[0].len <= |Gather(bufs, user, es[1..])|
    requires Gather(bufs, user, Taken(es[1..], n - es[0].len)) == Gather(bufs, user, es[1..])[n - es[0].len..]
    ensures n <= |Gather(bufs, user, es)|
    ensures Gather(bufs, user, Taken(es, n)) == Gather(bufs, user, es)[n..]
  {
    DropRest(Bytes(bufs, user, es[0]), Gather(bufs, user, es[1..]), n, Gather(bufs, user, Taken(es, n)));
  }

  /** What is left to send is what was to be sent, without the bytes the kernel has taken. */
  lemma {:induction false} TakenBytes(bufs: Bufs, user: User, es: seq<Entry>, n: nat, total: int)
    requires EntriesOk(bufs, user, es, total) && n <= Total(es)
    ensures n <= |Gather(bufs, user, es)|
    ensures Gather(bufs, user, Taken(es, n)) == Gather(bufs, user, es)[n..]
  {
    if es == [] {
    } else if n < es[0].len {
      CutGather(bufs, user, es, n);
    } else {
      TakenBytes(bufs, user, es[1..], n - es[0].len, total);
      SkipGather(bufs, user, es, n);
    }
  }

  /** The last entry survives as long as anything does. */
  lemma {:induction false} TakenLast(es: seq<Entry>, n: nat)
    requires n < Total(es)
    ensures Taken(es, n) != [] && es != [] && Taken(es, n)[|Taken(es, n)| - 1].base == es[|es| - 1].base
  {
    if n < es[0].len {
    } else {
      TakenLast(es[1..], n - es[0].len);
    }
  }

  /** An entry still queued keeps its buffer: the reference is due after everything the kernel has taken. */
  lemma {:induction false} QueuedDueLater(bufs: Bufs, user: User, es: seq<Entry>, total: int, j: nat)
    requires EntriesOk(bufs, user, es, total) && j < |es| && es[j].base.InBuf?
    ensures es[j].base.id in bufs && total - Total(es) < bufs[es[j].base.id].sendPos
  {
    if 0 < j { QueuedDueLater(bufs, user, es[1..], total, j - 1); }
  }
}
