/**
  A connection's send side in server_code/shinjuku-rocksdb/libix/ixev.c, with the copy buffers of libix/buf.h:
  the scatter/gather array, the reference list and the cached buffer, updated in place. Each method is tied to the
  function of SendState that says what it does to the view.
 */
module Ixev {
  import opened Widths
  import opened SendQueue
  import opened SendState

  const EIO: int := 5
  const EAGAIN: int := 11

  class IxevCtx {
    const send: array<Entry>
    const user: User
    var sendCount: nat
    var isDead: bool
    var sendTotal: nat
    var sentTotal: nat
    var refs: seq<Ref>
    var curBuf: Current
    var bufs: Bufs
    var pool: seq<nat>
    var userPos: map<nat, nat>
    var completed: seq<Ref>
    ghost var stream: seq<Byte>
    ghost var taken: nat

    ghost function V(): View
      reads this, send
    {
      View(if sendCount <= send.Length then send[..sendCount] else [], refs, curBuf, bufs, pool, user, userPos,
           stream, taken, sentTotal)
    }

    ghost predicate Valid()
      reads this, send
    {
      send.Length == DEPTH && sendCount <= DEPTH && sendTotal == |stream| && Storage(V())
    }

    /** ixev_ctx_init, with the free list of the thread's buffer pool. */
    constructor (free: seq<nat>, memory: User)
      requires NoDup(free)
      ensures Valid() && fresh(send) && !isDead && completed == []
      ensures V() == Fresh(free, memory)
    {
      send := new Entry[DEPTH](i => Entry(InUser(0), 0, 0));
      user := memory;
      sendCount, isDead, sendTotal, sentTotal := 0, false, 0, 0;
      refs, curBuf, userPos, completed := [], NoBuf, map[], [];
      pool := free;
      bufs := map b | b in free :: Buf(0, 0, seq(BUF_SIZE, i => 0));
      stream, taken := [], 0;
    }

    /** ixev_window_len */
    function WindowLen(len: nat): (r: nat)
      requires Valid()
      reads this, send
      ensures r == Window(V(), len)
    {
      Min(WINDOW - sendTotal + sentTotal, len)
    }

    /** ixev_buf_alloc: the buffer at the head of the free list; no buffer when it is empty. */
    method BufAlloc() returns (r: Current)
      requires pool == [] || pool[0] in bufs
      modifies this`pool, this`bufs
      ensures old(pool) == [] ==> r == NoBuf && pool == [] && bufs == old(bufs)
      ensures old(pool) != [] ==>
                r == CurBuf(old(pool)[0]) && pool == old(pool)[1..]
                    && bufs == old(bufs)[r.id := old(bufs)[r.id].(len := 0)]
    {
      if pool == [] {
        r := NoBuf;
      } else {
        r := CurBuf(pool[0]);
        bufs := bufs[r.id := bufs[r.id].(len := 0)];
        pool := pool[1..];
      }
    }

    /** ixev_buf_store, and the new position of the buffer's reference. */
    method BufStore(b: nat, data: seq<Byte>, end: nat) returns (ret: nat)
      requires b in bufs && bufs[b].len <= BUF_SIZE == |bufs[b].payload|
      modifies this`bufs
      ensures ret == Min(|data|, BUF_SIZE - old(bufs[b].len))
      ensures bufs == old(bufs)[b := Stored(old(bufs[b]), data[..ret], end + ret)]
    {
      var buf := bufs[b];
      ret := Min(|data|, BUF_SIZE - buf.len);
      var payload := buf.payload[..buf.len] + data[..ret] + buf.payload[buf.len + ret..];
      bufs := bufs[b := Buf(buf.len + ret, end + ret, payload)];
    }

    /** ixev_next_entry, and what its caller puts in the entry. */
    method NextEntry(base: Base, off: nat, len: nat)
      requires sendCount < send.Length
      modifies this`sendCount, send
      ensures sendCount == old(sendCount) + 1 && send[..sendCount] == old(send[..sendCount]) + [Entry(base, off, len)]
    {
      send[sendCount] := Entry(base, off, len);
      sendCount := sendCount + 1;
    }

    /** The hot path of ixev_send: append to the cached buffer, which the last entry shows. */
    method AppendToCurrent(data: seq<Byte>, soFar: nat) returns (ret: nat)
      requires 0 < sendCount <= send.Length && sendTotal + soFar == |stream|
      requires curBuf.CurBuf? && curBuf.id in bufs && bufs[curBuf.id].len <= BUF_SIZE == |bufs[curBuf.id].payload|
      modifies this`bufs, this`stream, send
      ensures ret == Min(|data|, BUF_SIZE - old(bufs[curBuf.id].len))
      ensures V() == Appended(old(V()), data[..ret])
    {
      var b := curBuf.id;
      ret := BufStore(b, data, sendTotal + soFar);
      var last := send[sendCount - 1];
      send[sendCount - 1] := last.(len := last.len + ret);
      stream := stream + data[..ret];
      assert send[..sendCount] == old(send[..sendCount - 1]) + [last.(len := last.len + ret)];
      assert old(send[..sendCount])[..sendCount - 1] == old(send[..sendCount - 1]);
    }

    /** One round of the cold path of ixev_send: a new buffer and a new entry; nothing if there is no buffer. */
    method StartBuffer(data: seq<Byte>, soFar: nat) returns (ret: nat)
      requires sendCount < send.Length && sendTotal + soFar == |stream|
      requires pool == [] || (pool[0] in bufs && |bufs[pool[0]].payload| == BUF_SIZE)
      modifies this`bufs, this`stream, this`pool, this`curBuf, this`sendCount, this`refs, send
      ensures ret == if old(pool) == [] then 0 else Min(|data|, BUF_SIZE)
      ensures sendCount <= send.Length
      ensures V() == if old(pool) == [] then old(V()).(cur := NoBuf) else Opened(old(V()), data[..ret])
    {
      curBuf := BufAlloc();
      if curBuf == NoBuf {
        return 0;
      }
      var b := curBuf.id;
      ret := BufStore(b, data, sendTotal + soFar);
      NextEntry(InBuf(b), 0, ret);
      refs := refs + [OfBuf(b)];
      stream := stream + data[..ret];
    }

    /** The cold path of ixev_send, with `rest` to go, will end in the view `all`. */
    ghost predicate Filling(rest: seq<Byte>, soFar: nat, all: View)
      reads this, send
    {
      && send.Length == DEPTH && sendCount <= DEPTH && Storage(V())
      && |stream| == sendTotal + soFar && sendTotal + soFar + |rest| <= sentTotal + WINDOW && Cold(V(), rest) == all
    }

    /** The cold path of ixev_send, from byte `from` of the data that fits the window. */
    method FillBuffers(data: seq<Byte>, from: nat) returns (soFar: nat)
      requires send.Length == DEPTH && sendCount <= DEPTH && Storage(V()) && from <= |data|
      requires |stream| == sendTotal + from && sendTotal + |data| <= sentTotal + WINDOW
      modifies this`bufs, this`stream, this`pool, this`curBuf, this`sendCount, this`refs, send
      ensures V() == Cold(old(V()), data[from..]) && sendCount <= DEPTH && Storage(V())
      ensures from <= soFar <= |data| && |stream| == sendTotal + soFar
    {
      soFar := from;
      ghost var all := Cold(V(), data[from..]);
      while soFar < |data|
        invariant from <= soFar <= |data| && Filling(data[soFar..], soFar, all)
      {
        if sendCount >= DEPTH {
          return;
        }
        var n := FillOne(data[soFar..], soFar, all);
        if curBuf == NoBuf {
          return;
        }
        DropTwice(data, soFar, n);
        soFar := soFar + n;
      }
    }

    /** One buffer of the cold path. */
    method FillOne(data: seq<Byte>, soFar: nat, ghost all: View) returns (n: nat)
      requires sendCount < DEPTH && data != [] && Filling(data, soFar, all)
      modifies this`bufs, this`stream, this`pool, this`curBuf, this`sendCount, this`refs, send
      ensures n <= |data| && Filling(data[n..], soFar + n, all)
      ensures if curBuf == NoBuf then n == 0 && V() == all else 0 < n
    {
      ghost var v := V();
      assert pool != [] ==> v.pool[0] in v.bufs;
      n := StartBuffer(data, soFar);
      if v.pool != [] {
        ColdTurn(v, data, n);
      } else {
        ColdDry(v, data);
      }
    }

    /** The copying of ixev_send: hot path, then cold path. */
    method StoreData(data: seq<Byte>) returns (soFar: nat)
      requires Valid() && |stream| + |data| <= sentTotal + WINDOW && Storage(Hot(V(), data))
      requires 0 <= Min(|data|, HotRoom(V())) && |Hot(V(), data).stream| == |stream| + Min(|data|, HotRoom(V()))
      requires |Hot(V(), data).es| == |V().es|
      modifies this`bufs, this`stream, this`pool, this`curBuf, this`sendCount, this`refs, send
      ensures V() == Cold(Hot(old(V()), data), data[Min(|data|, HotRoom(old(V())))..])
      ensures sendCount <= DEPTH && Storage(V()) && soFar <= |data| && |stream| == sendTotal + soFar
    {
      ghost var was := V();
      soFar := 0;
      if sendCount > 0 && curBuf.CurBuf? {
        soFar := AppendToCurrent(data, 0);
      }
      assert V() == Hot(was, data);
      soFar := FillBuffers(data, soFar);
    }

    /** ixev_send: how much is accepted is limited by the window, the entries and the free buffers alone. */
    method Send(data: seq<Byte>) returns (ret: int)
      requires Valid()
      modifies this, send
      ensures Valid() && isDead == old(isDead) && completed == old(completed)
      ensures V() == if old(isDead) then old(V()) else Sent(old(V()), data)
      ensures old(isDead) ==> ret == -5
      ensures !old(isDead) ==> if Accepted(old(V()), |data|) == 0 then ret == -11 else ret == Accepted(old(V()), |data|)
      ensures stream == old(stream) + data[..if ret < 0 then 0 else ret]
    {
      var actual := WindowLen(|data|);
      if isDead {
        return -EIO;
      }
      if actual == 0 {
        return -EAGAIN;
      }
      SendSplit(V(), data);
      var soFar := StoreData(data[..actual]);
      if soFar == 0 {
        return -EAGAIN;
      }
      sendTotal := sendTotal + soFar;
      return soFar;
    }

    /** ixev_send_zc on the application's bytes [off, off + len) of its memory `u`. */
    method SendZc(u: nat, off: nat, len: nat) returns (ret: int)
      requires Valid() && u in user && off + len <= |user[u]|
      modifies this, send
      ensures Valid() && isDead == old(isDead) && completed == old(completed)
      ensures old(isDead) ==> ret == -5
      ensures !old(isDead) ==>
                var n := if old(sendCount) < 16 then Min(65536 - |old(stream)| + old(sentTotal), len) else 0;
                if n == 0 then ret == -11 else ret == n
      ensures V() == if ret < 0 then old(V()) else Passed(old(V()), u, off, ret)
    {
      var actual := WindowLen(len);
      if isDead {
        return -EIO;
      }
      if actual == 0 {
        return -EAGAIN;
      }
      if sendCount >= DEPTH {
        return -EAGAIN;
      }
      curBuf := NoBuf;
      NextEntry(InUser(u), off, actual);
      sendTotal := sendTotal + actual;
      stream := stream + user[u][off..off + actual];
      return actual;
    }

    /** ixev_shift_sends */
    method ShiftSends(shift: nat)
      requires shift <= sendCount <= send.Length
      modifies this`sendCount, send
      ensures sendCount == old(sendCount) - shift && send[..sendCount] == old(send[shift..sendCount])
    {
      sendCount := sendCount - shift;
      var i := 0;
      while i < sendCount
        invariant i <= sendCount == old(sendCount) - shift
        invariant forall k :: 0 <= k < i ==> send[k] == old(send[k + shift])
        invariant forall k :: i <= k < send.Length ==> send[k] == old(send[k])
      {
        send[i] := send[i + shift];
        i := i + 1;
      }
    }

    /** The loop of ixev_handle_sendv_ret: how many entries the kernel finished; it cuts the next one short. */
    method FinishedSends(ret: nat) returns (i: nat)
      requires sendCount <= send.Length
      modifies send
      ensures i <= sendCount && send[i..sendCount] == Taken(old(send[..sendCount]), ret)
    {
      ghost var es := send[..sendCount];
      var left := ret;
      i := 0;
      while i < sendCount
        invariant i <= sendCount && 0 <= left && send[..sendCount] == es
        invariant Taken(es[i..], left) == Taken(es, ret)
      {
        assert es[i..][0] == send[i] && es[i..][1..] == es[i + 1..];
        if left < send[i].len {
          send[i] := send[i].(len := send[i].len - left, off := send[i].off + left);
          assert send[i..sendCount] == [send[i]] + es[i + 1..];
          return;
        }
        left := left - send[i].len;
        i := i + 1;
      }
    }

    /** ixev_handle_sendv_ret: the kernel took `ret` bytes, at most what it was offered. */
    method HandleSendvRet(ret: int)
      requires Valid()
      modifies this, send
      ensures isDead == (old(isDead) || ret < 0) && completed == old(completed)
      ensures V() == if ret < 0 then old(V()) else KernelTook(old(V()), ret)
      ensures Valid()
    {
      if ret < 0 {
        isDead := true;
        return;
      }
      KernelTookStorage(V(), ret);
      var shift := FinishedSends(ret);
      ShiftSends(shift);
      taken := taken + ret;
    }

    /** ref->cb(ref): ixev_buf_release for a buffer. */
    method Callback(r: Ref)
      modifies this`pool, this`completed
      ensures completed == old(completed) + [r] && pool == if r.OfBuf? then [r.id] + old(pool) else old(pool)
    {
      if r.OfBuf? {
        pool := [r.id] + pool;
      }
      completed := completed + [r];
    }

    /** The loop of ixev_tcp_sent: run the callbacks due, from the head of the list. */
    method RunCallbacks() returns (r: nat)
      modifies this`pool, this`completed
      ensures r == DueCount(bufs, userPos, refs, sentTotal)
      ensures pool == Freed(old(pool), refs[..r]) && completed == old(completed) + refs[..r]
    {
      r := 0;
      while r < |refs| && Due(bufs, userPos, refs[r]) <= sentTotal
        invariant r <= |refs| && pool == Freed(old(pool), refs[..r]) && completed == old(completed) + refs[..r]
        invariant DueCount(bufs, userPos, refs, sentTotal) == r + DueCount(bufs, userPos, refs[r..], sentTotal)
      {
        ghost var next := refs[r + 1..];
        FreedSnoc(old(pool), refs[..r], refs[r]);
        assert refs[..r + 1] == refs[..r] + [refs[r]];
        assert refs[r..][1..] == next;
        Callback(refs[r]);
        r := r + 1;
      }
    }

    /** The callbacks that are due leave the list; the cached buffer is forgotten with the last of them. */
    method Release()
      requires RefsIn(bufs, refs) && PoolIn(bufs, pool)
      modifies this`refs, this`curBuf, this`pool, this`completed
      ensures var r := DueCount(bufs, userPos, old(refs), sentTotal);
              && refs == old(refs)[r..] && pool == Freed(old(pool), old(refs)[..r])
              && curBuf == (if r == |old(refs)| then NoBuf else old(curBuf))
              && completed == old(completed) + old(refs)[..r]
      ensures RefsIn(bufs, refs) && PoolIn(bufs, pool)
    {
      var r := RunCallbacks();
      FreedIn(bufs, old(pool), refs[..r]);
      refs := refs[r..];
      if refs == [] {
        curBuf := NoBuf;
      }
    }

    /** ixev_tcp_sent: the peer acknowledged `len` more bytes. */
    method TcpSent(len: nat)
      requires Valid()
      modifies this`sentTotal, this`refs, this`curBuf, this`pool, this`completed
      ensures V() == Acknowledged(old(V()), len)
      ensures completed == old(completed) + old(refs)[..old(DueCount(bufs, userPos, refs, sentTotal + len))]
      ensures completed + refs == old(completed) + old(refs) && curBuf == if refs == [] then NoBuf else old(curBuf)
      ensures Valid()
    {
      AcknowledgedStorage(V(), len);
      sentTotal := sentTotal + len;
      Release();
    }

    /** ixev_add_sent_cb */
    method AddSentCb(u: nat)
      requires Valid()
      modifies this`refs, this`userPos
      ensures Valid() && V() == Registered(old(V()), u)
    {
      userPos := userPos[u := sendTotal];
      refs := refs + [OfUser(u)];
    }
  }

  /** What ixev_send_zc accepts of `len` bytes: all the window has room for, if there is an entry for them. */
  function Passable(v: View, len: nat): nat
    requires Storage(v)
  {
    if |v.es| < DEPTH then Window(v, len) else 0
  }

  function Fresh(free: seq<nat>, memory: User): View
  {
    View([], [], NoBuf, map b | b in free :: Buf(0, 0, seq(BUF_SIZE, i => 0)), free, memory, map[], [], 0, 0)
  }
}
