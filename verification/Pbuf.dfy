/**
  The operations of dp/lwip/pbuf.c on the memory they share. Each one walks the links and updates fields in place;
  the contracts name the functions of PbufRefs, PbufEdits and PbufRealloc that say what the memory becomes, or say
  outright what becomes of the bytes. The ghost parameters are the chains the pointers lead to.
 */
module Pbufs {
  import opened Widths
  import opened Pointers
  import opened PbufChains
  import opened PbufRefs
  import opened PbufEdits
  import opened PbufRealloc
  import opened PbufCopy

  datatype Err = ErrOk | ErrArg | ErrVal

  class PbufHeap {
    var mem: Mem

    /** pbuf_ref */
    method Ref(p: Ptr)
      requires p.At? ==> p.a in mem
      modifies this
      ensures mem == if p.At? then Referenced(old(mem), p.a) else old(mem)
    {
      if p.At? {
        mem := mem[p.a := mem[p.a].(refs := Plus(mem[p.a].refs, 1))];
      }
    }

    /** pbuf_free; `count` is an 8-bit counter. */
    method Free(p: Ptr, ghost ps: seq<nat>) returns (count: nat)
      requires IsChain(mem, p, ps) && Positive(mem) && Narrow(mem)
      modifies this
      ensures mem == Freed(old(mem), ps) && count == Run(old(mem), ps) % 256
    {
      count := 0;
      var q := p;
      ghost var was, rest, gone := mem, ps, 0;
      FreeStarts(was, p, ps);
      while q.At?
        invariant Freeing(was, ps, mem, q, rest, gone)
        invariant count == gone % 256
        decreases |rest|
      {
        var next, freed := FreeOne(q.a, was, ps, rest, gone);
        q := next;
        if freed {
          CountsOn(gone);
          count := (count + 1) % 256;
          rest, gone := rest[1..], gone + 1;
        } else {
          rest := [];
        }
      }
      FreeEnds(was, ps, mem, rest, gone);
    }

    /** One buffer of pbuf_free: it loses a reference, and goes when that was the last one. */
    method FreeOne(p: nat, ghost was: Mem, ghost ps: seq<nat>, ghost rest: seq<nat>, ghost gone: nat)
      returns (next: Ptr, freed: bool)
      requires Freeing(was, ps, mem, At(p), rest, gone)
      modifies this
      ensures rest != [] && (freed ==> Freeing(was, ps, mem, next, rest[1..], gone + 1))
      ensures !freed ==> Freeing(was, ps, mem, next, [], gone) && next == Null
    {
      FreeWalk(was, ps, mem, rest, gone);
      var ref := (mem[p].refs + WRAP16 - 1) % WRAP16;
      mem := mem[p := mem[p].(refs := ref)];
      next, freed := Null, ref == 0;
      if freed {
        next := mem[p].next;
        mem := mem - {p};
      }
    }

    /** pbuf_cat */
    method Cat(h: Ptr, t: Ptr, ghost ps: seq<nat>)
      requires h.At? && t.At? ==> IsChain(mem, h, ps) && AllIn(mem, ps) && t.a in mem && t.a !in ps
      modifies this
      ensures mem == if h.At? && t.At? then Catted(old(mem), ps, t.a) else old(mem)
    {
      if h == Null || t == Null {
        return;
      }
      ghost var m, d := mem, mem[t.a].tot;
      var p := h.a;
      ghost var i := 0;
      assert AddTot(m, ps[..0], d) == m;
      WalkAt(m, h, ps, 0, d);
      while mem[p].next.At?
        invariant 0 <= i < |ps| && p == ps[i] && p in mem && mem[p] == m[p] && m[p].next == Place(ps, i + 1)
        invariant mem == AddTot(m, ps[..i], d) && t.a in mem && mem[t.a].tot == d
        decreases |ps| - i
      {
        WalkAt(m, h, ps, i, d);
        AddTotStep(m, ps, i, d);
        WalkAt(m, h, ps, i + 1, d);
        mem := mem[p := mem[p].(tot := Plus(mem[p].tot, mem[t.a].tot))];
        p := mem[p].next.a;
        i := i + 1;
      }
      WalkAt(m, h, ps, i, d);
      AddTotStep(m, ps, i, d);
      assert ps[..i + 1] == ps;
      mem := mem[p := mem[p].(tot := Plus(mem[p].tot, mem[t.a].tot))];
      mem := mem[p := mem[p].(next := t)];
    }

    /** pbuf_chain: the reference to the tail is counted even when there is no head to chain it to. */
    method Chain(h: Ptr, t: Ptr, ghost ps: seq<nat>)
      requires h.At? && t.At? ==> IsChain(mem, h, ps) && AllIn(mem, ps) && t.a !in ps
      requires t.At? ==> t.a in mem
      modifies this
      ensures var m := if h.At? && t.At? then Catted(old(mem), ps, t.a) else old(mem);
              mem == if t.At? then Referenced(m, t.a) else m
    {
      Cat(h, t, ps);
      Ref(t);
    }

    /** pbuf_dechain. The tail is taken for gone unless the 8-bit count of freed buffers is 0. */
    method Dechain(p: nat, ghost ps: seq<nat>) returns (q: Ptr)
      requires IsChain(mem, At(p), ps) && AllIn(mem, ps) && Positive(mem) && Narrow(mem)
      modifies this
      ensures mem == Dechained(old(mem), ps)
      ensures q == DechainResult(old(mem), ps)
    {
      ChainLinked(mem, At(p), ps, |ps|);
      var tailGone := 1;
      q := mem[p].next;
      if q.At? {
        ghost var m := mem;
        DetachedChain(m, p, ps);
        mem := mem[q.a := mem[q.a].(tot := Minus(mem[p].tot, mem[p].len))];
        mem := mem[p := mem[p].(next := Null)];
        mem := mem[p := mem[p].(tot := mem[p].len)];
        assert mem == Detached(m, p, q.a);
        DetachedRun(m, p, ps);
        tailGone := Free(q, ps[1..]);
      }
      return if tailGone > 0 then Null else q;
    }

    /** pbuf_realloc, on a chain that has the bytes to keep. */
    method Realloc(p: nat, newLen: nat, ghost ps: seq<nat>)
      requires IsChain(mem, At(p), ps) && AllIn(mem, ps) && Positive(mem) && Narrow(mem)
      requires newLen < mem[p].tot ==> newLen <= Len(mem, ps)
      modifies this
      ensures mem == Reallocated(old(mem), ps, newLen)
    {
      ghost var m := mem;
      if newLen >= mem[p].tot {
        return;
      }
      var grow := newLen - mem[p].tot;
      ReallocIs(m, ps, newLen);
      var rem, q := StepOver(p, newLen, grow, ps);
      CutOff(q, rem, m, p, ps, KeepIndex(m, ps, newLen), grow % WRAP16);
    }

    /** The end of pbuf_realloc: buffer `q` becomes the last one, and what is behind it is freed. */
    method CutOff(q: nat, rem: nat, ghost m: Mem, ghost p: nat, ghost ps: seq<nat>, ghost k: nat, ghost d: nat)
      requires IsChain(m, At(p), ps) && Positive(m) && Narrow(m) && k < |ps| && q == ps[k] && q in m
      requires mem == AddTot(m, ps[..k], d) && q in mem
      modifies this
      ensures mem == Freed(Cut(m, ps, k, rem, d), ps[k + 1..])
    {
      mem := mem[q := mem[q].(len := rem)];
      mem := mem[q := mem[q].(tot := mem[q].len)];
      CutSteps(m, ps, k, rem, d);
      TailReady(m, p, ps, k, rem, d, mem);
      if mem[q].next.At? {
        var _ := Free(mem[q].next, ps[k + 1..]);
      }
      mem := mem[q := mem[q].(next := Null)];
    }

    /** The walk of pbuf_realloc over the buffers that stay as they are but for their totals. */
    method StepOver(p: nat, newLen: nat, grow: int, ghost ps: seq<nat>) returns (rem: nat, q: nat)
      requires IsChain(mem, At(p), ps) && AllIn(mem, ps) && newLen <= Len(mem, ps)
      modifies this
      ensures var k := KeepIndex(old(mem), ps, newLen);
              && k < |ps| && q == ps[k] && q in mem && rem == newLen - Len(old(mem), ps[..k])
              && mem == AddTot(old(mem), ps[..k], grow % WRAP16)
              && mem[q] == old(mem)[q] && mem[q].next == Place(ps, k + 1)
    {
      ghost var m, d := mem, grow % WRAP16;
      rem, q := newLen, p;
      ghost var i := 0;
      assert AddTot(m, ps[..0], d) == m;
      WalkAt(m, At(p), ps, 0, d);
      SteppingStarts(m, ps, newLen);
      while rem > mem[q].len
        invariant 0 <= i < |ps| && q == ps[i] && q in mem && mem[q] == m[q] && m[q].next == Place(ps, i + 1)
        invariant mem == AddTot(m, ps[..i], d) && Stepping(m, ps, newLen, i, rem)
        decreases |ps| - i
      {
        StepFits(m, ps, newLen, i, rem);
        WalkStep(m, At(p), ps, i, d);
        rem := rem - mem[q].len;
        mem := mem[q := mem[q].(tot := Plus(mem[q].tot, grow % WRAP16))];
        q := mem[q].next.a;
        i := i + 1;
      }
      SteppingEnds(m, ps, newLen, i, rem);
    }

    /** pbuf_copy_partial: from byte `offset` on, as many of `len` bytes as the chain has. */
    method CopyPartial(buf: Ptr, data: array<Byte>, len: nat, offset: nat, ghost ps: seq<nat>) returns (copied: nat)
      requires buf.At? ==> IsChain(mem, buf, ps) && Sized(mem)
      requires len <= data.Length
      modifies data
      ensures copied == if buf == Null || Len(mem, ps) < offset then 0 else Min(len, Len(mem, ps) - offset)
      ensures Overlaid(data[..], if buf.At? then Content(mem, ps) else [], offset, old(data[..]), copied)
    {
      copied := 0;
      if buf == Null {
        return;
      }
      var p, left, off := buf, len, offset;
      ghost var i := 0;
      ghost var was := data[..];
      ContentLength(mem, ps);
      while left != 0 && p.At?
        invariant 0 <= left && 0 <= off && copied + left == len && Reading(mem, ps, i, p, off, offset, copied, left)
        invariant Overlaid(data[..], Content(mem, ps), offset, was, copied)
        decreases |ps| - i
      {
        ReadingOn(mem, buf, ps, i, p, off, offset, copied, left);
        if off != 0 && off >= mem[p.a].len {
          off := off - mem[p.a].len;
        } else {
          var n := Min(mem[p.a].len - off, left);
          CopyPart(data, copied, off, n, p.a, ps, i, was, offset);
          copied, left, off := copied + n, left - n, 0;
        }
        p := mem[p.a].next;
        i := i + 1;
      }
      if p == Null {
        assert ps[..i] == ps;
      }
    }

    /** `n` bytes of the buffer at index `i`, from `off` on, behind the `copied` bytes before. */
    method CopyPart(data: array<Byte>, copied: nat, off: nat, n: nat, a: nat, ghost ps: seq<nat>, ghost i: nat,
                    ghost was: seq<Byte>, ghost offset: nat)
      requires i < |ps| && a == ps[i] && a in mem && Sized(mem) && off + n <= mem[a].len
      requires copied + n <= data.Length == |was| && offset + copied == Len(mem, ps[..i]) + off
      requires Overlaid(data[..], Content(mem, ps), offset, was, copied)
      modifies data
      ensures Overlaid(data[..], Content(mem, ps), offset, was, copied + n)
    {
      ReadContent(mem, ps, i, off, n);
      OverlaidMore(data[..], Content(mem, ps), offset, was, copied, mem[a].payload[off..off + n]);
      Put(data, copied, mem[a].payload, off, n);
    }

    /** MEMCPY of `n` bytes to the application. */
    method Put(data: array<Byte>, at: nat, payload: seq<Byte>, off: nat, n: nat)
      requires at + n <= data.Length && off + n <= |payload|
      modifies data
      ensures data[..] == Splice(old(data[..]), at, payload[off..off + n])
    {
      forall k | 0 <= k < n {
        data[at + k] := payload[off + k];
      }
    }

    /** MEMCPY of `d` into the buffer at index `i` of a chain, as the next part of a copy of `src`. */
    method CopyInto(a: nat, off: nat, d: seq<Byte>, ghost m: Mem, ghost p: Ptr, ghost ps: seq<nat>, ghost i: nat,
                    ghost src: seq<Byte>, ghost k: nat)
      requires IsChain(m, p, ps) && Sized(m) && OnlyBytes(m, mem, ps) && InBuffer(m, At(a), ps, i, off, k)
               && off + |d| <= m[a].len
      requires Overlaid(Content(mem, ps), src, 0, Content(m, ps), k)
      requires k + |d| <= |src| && d == src[k..k + |d|]
      modifies this
      ensures OnlyBytes(m, mem, ps)
      ensures Overlaid(Content(mem, ps), src, 0, Content(m, ps), k + |d|)
    {
      OnlyBytesMeans(m, mem, ps, p, ps);
      OnlyBytesSized(m, mem, ps);
      SameLen(m, mem, ps[..i]);
      WriteStep(mem, p, ps, i, off, d, src, Content(m, ps), k);
      OnlyBytesMore(m, mem, ps, a, off, d);
      mem := mem[a := mem[a].(payload := Splice(mem[a].payload, off, d))];
    }

    /** pbuf_take: the data goes over the first `len` bytes of the chain. Without a chain it reports success, and
        nothing is stored. */
    method Take(buf: Ptr, data: seq<Byte>, len: nat, ghost ps: seq<nat>) returns (err: Err)
      requires buf.At? ==> IsChain(mem, buf, ps) && Sized(mem) && (len <= mem[buf.a].tot ==> len <= Len(mem, ps))
      requires len <= |data|
      modifies this
      ensures err == if buf.At? && old(mem)[buf.a].tot < len then ErrArg else ErrOk
      ensures err != ErrOk || buf == Null ==> mem == old(mem)
      ensures err == ErrOk && buf.At? ==>
                && OnlyBytes(old(mem), mem, ps) && len <= |Content(old(mem), ps)|
                && Content(mem, ps) == data[..len] + Content(old(mem), ps)[len..]
    {
      if buf == Null {
        return ErrOk;
      }
      if mem[buf.a].tot < len {
        return ErrArg;
      }
      ContentLength(mem, ps);
      TakeAll(buf, data[..len], ps);
      OverlaidIs(Content(mem, ps), data[..len], 0, Content(old(mem), ps), len);
      return ErrOk;
    }

    /** The loop of pbuf_take. */
    method TakeAll(buf: Ptr, data: seq<Byte>, ghost ps: seq<nat>)
      requires IsChain(mem, buf, ps) && Sized(mem) && |data| <= Len(mem, ps) == |Content(mem, ps)|
      modifies this
      ensures OnlyBytes(old(mem), mem, ps) && Overlaid(Content(mem, ps), data, 0, Content(old(mem), ps), |data|)
    {
      ghost var m := mem;
      var p := buf;
      var left: nat, copied: nat := |data|, 0;
      ghost var i: nat := 0;
      while left != 0
        invariant copied + left == |data| && i <= |ps|
        invariant left != 0 ==> InBuffer(m, p, ps, i, 0, copied)
        invariant Taken(m, mem, ps, data, copied)
        decreases left, |ps| - i
      {
        var n := Min(left, mem[p.a].len);
        CopyInto(p.a, 0, data[copied..copied + n], m, buf, ps, i, data, copied);
        left, copied := left - n, copied + n;
        if left != 0 {
          Advance(m, buf, ps, p, i, copied);
        }
        p, i := mem[p.a].next, i + 1;
      }
    }

    /** What pbuf_take puts into a chain, pbuf_copy_partial gives back, wherever the buffers end. */
    method TakeThenCopyPartial(buf: nat, data: seq<Byte>, len: nat, out: array<Byte>, ghost ps: seq<nat>)
      returns (err: Err)
      requires IsChain(mem, At(buf), ps) && Sized(mem) && (len <= mem[buf].tot ==> len <= Len(mem, ps))
      requires len <= |data| && len <= out.Length
      modifies this, out
      ensures err == if old(mem)[buf].tot < len then ErrArg else ErrOk
      ensures err == ErrOk ==> out[..len] == data[..len]
    {
      ghost var m := mem;
      err := Take(At(buf), data, len, ps);
      if err == ErrOk {
        OnlyBytesMeans(m, mem, ps, At(buf), ps);
        OnlyBytesSized(m, mem, ps);
        ContentLength(mem, ps);
        var n := CopyPartial(At(buf), out, len, 0, ps);
        assert n == len;
      }
    }

    /** pbuf_copy: whenever it reports success the target starts with the source. With right totals and a target
        that does not end in an empty buffer, it succeeds exactly when `CopyFits`. */
    method Copy(to: Ptr, from: Ptr, ghost ts: seq<nat>, ghost fs: seq<nat>) returns (err: Err)
      requires to.At? && from.At? ==> IsChain(mem, to, ts) && IsChain(mem, from, fs) && Disjoint(ts, fs) && Sized(mem)
      modifies this
      ensures to == Null || from == Null || old(mem)[to.a].tot < old(mem)[from.a].tot ==>
                err == ErrArg && mem == old(mem)
      ensures to.At? && from.At? ==> OnlyBytes(old(mem), mem, ts)
      ensures err == ErrOk ==>
                && to.At? && from.At? && |Content(old(mem), fs)| <= |Content(old(mem), ts)|
                && Content(mem, ts) == Content(old(mem), fs) + Content(old(mem), ts)[|Content(old(mem), fs)|..]
      ensures to.At? && from.At? && old(mem)[from.a].tot <= old(mem)[to.a].tot && Decidable(old(mem), ts, fs) ==>
                (err == ErrOk <==> CopyFits(old(mem), ts, fs))
    {
      if to == Null || from == Null || mem[to.a].tot < mem[from.a].tot {
        return ErrArg;
      }
      err := CopyAll(to, from, ts, fs);
      CopyExact(old(mem), to, ts, from, fs, err);
      if err == ErrOk {
        OverlaidIs(Content(mem, ts), Content(old(mem), fs), 0, Content(old(mem), ts), |Content(old(mem), fs)|);
      }
    }

    /** The loop of pbuf_copy. */
    method CopyAll(to: Ptr, from: Ptr, ghost ts: seq<nat>, ghost fs: seq<nat>) returns (err: Err)
      requires to.At? && from.At? && IsChain(mem, to, ts) && IsChain(mem, from, fs) && Disjoint(ts, fs) && Sized(mem)
      modifies this
      ensures OnlyBytes(old(mem), mem, ts)
      ensures err == ErrOk ==> Overlaid(Content(mem, ts), Content(old(mem), fs), 0, Content(old(mem), ts),
                                        |Content(old(mem), fs)|)
      ensures Reasons(old(mem), ts, fs, err)
    {
      ghost var m := mem;
      ContentLength(m, fs);
      ContentLength(m, ts);
      CopyStarts(m, to, ts, from, fs);
      var q, r, offTo: nat, offFrom: nat := to, from, 0, 0;
      ghost var i: nat, j: nat, k: nat := 0, 0, 0;
      err := ErrOk;
      while r.At? && err == ErrOk
        invariant OnlyBytes(m, mem, ts)
        invariant err == ErrOk ==> CopyAt(m, ts, fs, q, i, offTo, r, j, offFrom, k)
        invariant err == ErrOk ==> Overlaid(Content(mem, ts), Content(m, fs), 0, Content(m, ts), k)
        invariant err != ErrOk ==> Reasons(m, ts, fs, err)
        decreases if err == ErrOk then |ts| + |fs| + 1 - i - j else 0
      {
        q, offTo, r, offFrom, i, j, k, err := CopyStep(q, offTo, r, offFrom, m, to, ts, i, from, fs, j, k);
      }
    }

    /** The body of the loop. An outcome that is not ErrOk is what pbuf_copy returns. */
    method CopyStep(q0: Ptr, offTo0: nat, r0: Ptr, offFrom0: nat, ghost m: Mem, ghost to: Ptr, ghost ts: seq<nat>,
                    ghost i0: nat,
                    ghost from: Ptr, ghost fs: seq<nat>, ghost j0: nat, ghost k0: nat)
      returns (q: Ptr, offTo: nat, r: Ptr, offFrom: nat, ghost i: nat, ghost j: nat, ghost k: nat, err: Err)
      requires IsChain(m, to, ts) && IsChain(m, from, fs) && Disjoint(ts, fs) && Sized(m) && OnlyBytes(m, mem, ts)
      requires r0.At? && CopyAt(m, ts, fs, q0, i0, offTo0, r0, j0, offFrom0, k0)
      requires Overlaid(Content(mem, ts), Content(m, fs), 0, Content(m, ts), k0)
      modifies this
      ensures OnlyBytes(m, mem, ts)
      ensures err == ErrOk ==> CopyAt(m, ts, fs, q, i, offTo, r, j, offFrom, k) && i0 + j0 < i + j
      ensures err == ErrOk ==> Overlaid(Content(mem, ts), Content(m, fs), 0, Content(m, ts), k)
      ensures err != ErrOk ==> Reasons(m, ts, fs, err)
    {
      var n := CopyPiece(q0.a, offTo0, r0.a, offFrom0, m, to, ts, i0, from, fs, j0, k0);
      k := k0 + n;
      r, offFrom, j := StepOn(r0.a, offFrom0 + n, m, ts, from, fs, j0, k);
      q, offTo, i := StepOn(q0.a, offTo0 + n, m, ts, to, ts, i0, k);
      err := ErrOk;
      if q == Null && r.At? {
        ShortFound(m, ts, from, fs, r, j, offFrom);
        return q, offTo, r, offFrom, i, j, k, ErrArg;
      }
      QueueFound(m, mem, ts, from, fs, r, j, offFrom, k);
      QueueFound(m, mem, ts, to, ts, q, i, offTo, k);
      WalkedStep(m, ts, fs, i0, offTo0, j0, offFrom0, n, i, offTo, j, offFrom);
      if InQueue(r) || InQueue(q) {
        QueueRefused(m, ts, fs, i, j);
        return q, offTo, r, offFrom, i, j, k, ErrVal;
      }
    }

    /** From the end of a buffer on to the next one, if any. */
    method StepOn(p: nat, off: nat, ghost m: Mem, ghost written: seq<nat>, ghost start: Ptr, ghost ps: seq<nat>,
                  ghost i: nat, ghost k: nat)
      returns (next: Ptr, o: nat, ghost i': nat)
      requires IsChain(m, start, ps) && OnlyBytes(m, mem, written) && InBuffer(m, At(p), ps, i, off, k)
      ensures next == Null ==> k == Len(m, ps)
      ensures next.At? ==> InBuffer(m, next, ps, i', o, k) && (o < m[next.a].len || (o == 0 && i < i'))
      ensures i' == (if off == m[p].len then i + 1 else i) <= |ps| && o == (if off == m[p].len then 0 else off)
      ensures next == Null ==> i' == |ps|
    {
      next, o, i' := At(p), off, i;
      if off >= mem[p].len {
        Advance(m, start, ps, At(p), i, k);
        next, o, i' := mem[p].next, 0, i + 1;
      }
    }

    /** The test pbuf_copy takes for the end of a packet that is not the last. */
    predicate InQueue(p: Ptr)
      reads this
    {
      p.At? && p.a in mem && mem[p.a].len == mem[p.a].tot && mem[p.a].next.At?
    }

    /** One MEMCPY of pbuf_copy: what is left of one of the two buffers. */
    method CopyPiece(a: nat, offTo: nat, b: nat, offFrom: nat, ghost m: Mem, ghost to: Ptr, ghost ts: seq<nat>,
                     ghost i: nat,
                     ghost from: Ptr, ghost fs: seq<nat>, ghost j: nat, ghost k: nat) returns (n: nat)
      requires IsChain(m, to, ts) && IsChain(m, from, fs) && Disjoint(ts, fs) && Sized(m)
      requires InBuffer(m, At(a), ts, i, offTo, k) && InBuffer(m, At(b), fs, j, offFrom, k) && OnlyBytes(m, mem, ts)
      requires Overlaid(Content(mem, ts), Content(m, fs), 0, Content(m, ts), k)
      modifies this
      ensures n == Min(m[a].len - offTo, m[b].len - offFrom) && OnlyBytes(m, mem, ts)
      ensures Overlaid(Content(mem, ts), Content(m, fs), 0, Content(m, ts), k + n)
    {
      assert b !in ts && mem[b] == m[b] && mem[a].len == m[a].len;
      n := Min(mem[a].len - offTo, mem[b].len - offFrom);
      ReadContent(m, fs, j, offFrom, n);
      CopyInto(a, offTo, mem[b].payload[offFrom..offFrom + n], m, to, ts, i, Content(m, fs), k);
    }

    /** pbuf_alloc of a PBUF_RAM buffer: `answer` and `room` are what the memory pool gives. */
    method AllocRam(answer: Ptr, room: seq<Byte>, length: nat) returns (q: Ptr)
      modifies this
      ensures q == answer
      ensures mem == if answer.At? then old(mem)[answer.a := Pbuf(Null, room, length, length, 1)] else old(mem)
    {
      q := answer;
      if q.At? {
        mem := mem[q.a := Pbuf(Null, room, length, length, 1)];
      }
    }

    /** pbuf_coalesce: the bytes in one buffer, or the old chain when there is none to be had. The caller's
        reference moves to what is returned. `ok` is the assertion that the copy succeeded; with right totals it
        holds exactly when the chain does not end in an empty buffer. */
    method Coalesce(p: nat, answer: Ptr, room: seq<Byte>, ghost ps: seq<nat>, ghost ext: multiset<nat>)
      returns (q: Ptr, ok: bool)
      requires IsChain(mem, At(p), ps) && AllIn(mem, ps) && RefInv(mem, ext + multiset{p}) && Narrow(mem)
      requires Sized(mem) && mem[p].tot < WRAP16
      requires answer.At? ==> answer.a !in mem && mem[p].tot <= |room|
      modifies this
      ensures q == if |ps| == 1 then At(p) else if answer == Null then At(p) else answer
      ensures q == At(p) ==> ok && mem == old(mem)
      ensures q != At(p) && Totals(old(mem)) && Len(old(mem), ps) < WRAP16 ==> (ok <==> !EndsEmpty(old(mem), ps))
      ensures ok ==> q.At? && RefInv(mem, ext + Bag(q))
      ensures ok && q != At(p) ==> IsChain(mem, q, [q.a]) && Content(old(mem), ps) <= Content(mem, [q.a])
      ensures ok && q != At(p) && old(mem)[p].tot == Len(old(mem), ps) ==> Content(mem, [q.a]) == Content(old(mem), ps)
    {
      ghost var m := mem;
      ChainAt(mem, At(p), ps, 0);
      if mem[p].next == Null {
        assert Bag(At(p)) == multiset{p};
        return At(p), true;
      }
      q := AllocRam(answer, room, mem[p].tot);
      if q == Null {
        assert Bag(At(p)) == multiset{p};
        return At(p), true;
      }
      ghost var m1 := mem;
      AllocReady(m, ext + multiset{p}, q.a, room, p, ps);
      AllocDecides(m, ext + multiset{p}, q.a, room, p, ps);
      var err := Copy(q, At(p), [q.a], ps);
      ok := err == ErrOk;
      if ok {
        ContentLength(m, ps);
        CopiedReady(m1, mem, ext, q.a, p, ps);
        var _ := Free(At(p), ps);
      }
    }

    /** pbuf_clen */
    method Clen(p: Ptr, ghost ps: seq<nat>) returns (len: nat)
      requires IsChain(mem, p, ps)
      ensures len == |ps| % 256
    {
      len := 0;
      var q := p;
      ghost var rest := ps;
      while q.At?
        invariant IsChain(mem, q, rest) && (len + |rest|) % 256 == |ps| % 256 && len < 256
        decreases |rest|
      {
        len := (len + 1) % 256;
        q := mem[q.a].next;
        rest := rest[1..];
      }
    }
  }

  /** The last of several buffers is empty. */
  ghost predicate EndsEmpty(m: Mem, ps: seq<nat>)
  {
    |ps| >= 2 && ps[|ps| - 1] in m && m[ps[|ps| - 1]].len == 0
  }

  /** Totals that are right, no more bytes than they can count, and a target that does not end in an empty buffer. */
  ghost predicate Decidable(m: Mem, ts: seq<nat>, fs: seq<nat>)
  {
    Totals(m) && Len(m, ts) < WRAP16 && Len(m, fs) < WRAP16 && !EndsEmpty(m, ts)
  }

  /** The length of the first buffer. */
  function First(m: Mem, ps: seq<nat>): nat
  {
    if ps != [] && ps[0] in m then m[ps[0]].len else 0
  }

  /** The source does not end in an empty buffer; or it is one buffer and an empty one, and the first fits into the
      target's first without filling it as its only buffer. */
  ghost predicate CopyFits(m: Mem, ts: seq<nat>, fs: seq<nat>)
  {
    || !EndsEmpty(m, fs)
    || (|fs| == 2 && First(m, fs) <= First(m, ts) && (|ts| == 1 ==> First(m, fs) < First(m, ts)))
  }

  /** What each outcome of pbuf_copy's loop says about the chains. */
  ghost predicate Reasons(m: Mem, ts: seq<nat>, fs: seq<nat>, err: Err)
  {
    match err
    case ErrOk =>
      && (forall j :: 1 <= j < |fs| ==> !QueueAt(m, fs, j))
      && (First(m, ts) < First(m, fs) ==> !QueueAt(m, fs, 0))
      && !(|ts| == 1 && |fs| >= 2 && First(m, ts) == First(m, fs))
    case ErrArg => Short(m, ts, fs)
    case ErrVal =>
      || LooksLikeQueue(m, ts)
      || (exists j :: 1 <= j < |fs| && QueueAt(m, fs, j))
      || (QueueAt(m, fs, 0) && First(m, ts) < First(m, fs))
  }

  lemma QueueRefused(m: Mem, ts: seq<nat>, fs: seq<nat>, i: nat, j: nat)
    requires QueueAt(m, ts, i) || (QueueAt(m, fs, j) && (j == 0 ==> First(m, ts) < First(m, fs)))
    ensures Reasons(m, ts, fs, ErrVal)
  {
  }

  /** pbuf_copy's loop has come to buffer `i` of the target and `j` of the source, and not refused any before. */
  ghost predicate Walked(m: Mem, ts: seq<nat>, fs: seq<nat>, i: nat, offTo: nat, j: nat, offFrom: nat)
  {
    && (i == 0 && j == 0 ==> offTo == 0 && offFrom == 0)
    && (j == 0 && i > 0 ==> First(m, ts) < First(m, fs))
    && (forall l :: 1 <= l <= j && l < |fs| ==> !QueueAt(m, fs, l))
    && (First(m, ts) < First(m, fs) && i + j > 0 ==> !QueueAt(m, fs, 0))
    && (|ts| == 1 && |fs| >= 2 && First(m, ts) == First(m, fs) ==> i == 0 && j == 0)
  }

  /** The pointers and offsets of pbuf_copy's loop, at byte `k`. */
  ghost predicate CopyAt(m: Mem, ts: seq<nat>, fs: seq<nat>, q: Ptr, i: nat, offTo: nat, r: Ptr, j: nat, offFrom: nat,
                         k: nat)
  {
    && (r.At? ==>
          InBuffer(m, q, ts, i, offTo, k) && InBuffer(m, r, fs, j, offFrom, k)
          && (offFrom < m[r.a].len || offFrom == 0))
    && (r == Null ==> k == Len(m, fs) && j == |fs|)
    && i <= |ts| && j <= |fs|
    && Walked(m, ts, fs, i, offTo, j, offFrom)
  }

  lemma WalkedStep(m: Mem, ts: seq<nat>, fs: seq<nat>, i: nat, offTo: nat, j: nat, offFrom: nat, n: nat,
                   i': nat, offTo': nat, j': nat, offFrom': nat)
    requires Walked(m, ts, fs, i, offTo, j, offFrom) && i < |ts| && j < |fs| && ts[i] in m && fs[j] in m
    requires offTo <= m[ts[i]].len && offFrom <= m[fs[j]].len && n == Min(m[ts[i]].len - offTo, m[fs[j]].len - offFrom)
    requires j' == (if offFrom + n == m[fs[j]].len then j + 1 else j) && (j' == j ==> offFrom' == offFrom + n)
    requires i' == (if offTo + n == m[ts[i]].len then i + 1 else i) && (i' == i ==> offTo' == offTo + n)
    requires j' < |fs| ==> i' < |ts|
    ensures (j' < |fs| ==> !QueueAt(m, fs, j')) ==> Walked(m, ts, fs, i', offTo', j', offFrom')
    ensures j' == 0 ==> First(m, ts) < First(m, fs)
  {
  }

  /** Byte `k` of the chain is at offset `off` of its buffer `i`, which `p` points to, or just behind it. */
  ghost predicate InBuffer(m: Mem, p: Ptr, ps: seq<nat>, i: nat, off: nat, k: nat)
  {
    i < |ps| && p == At(ps[i]) && ps[i] in m && off <= m[ps[i]].len && k == Len(m, ps[..i]) + off
  }

  lemma CopyStarts(m: Mem, t: Ptr, ts: seq<nat>, f: Ptr, fs: seq<nat>)
    requires t.At? && f.At? && IsChain(m, t, ts) && IsChain(m, f, fs)
    ensures InBuffer(m, t, ts, 0, 0, 0) && InBuffer(m, f, fs, 0, 0, 0)
  {
  }

  lemma Advance(m: Mem, p: Ptr, ps: seq<nat>, q: Ptr, i: nat, k: nat)
    requires IsChain(m, p, ps) && i < |ps| && ps[i] in m && InBuffer(m, q, ps, i, m[ps[i]].len, k)
    ensures m[ps[i]].next == Null ==> k == Len(m, ps) && i + 1 == |ps|
    ensures m[ps[i]].next.At? ==> InBuffer(m, m[ps[i]].next, ps, i + 1, 0, k)
  {
    PartAt(m, p, ps, i);
    if i + 1 == |ps| {
      assert ps[..i + 1] == ps;
    } else {
      ChainAt(m, p, ps, i + 1);
    }
  }

  lemma ShortFound(m: Mem, ts: seq<nat>, f: Ptr, fs: seq<nat>, r: Ptr, j: nat, off: nat)
    requires IsChain(m, f, fs) && InBuffer(m, r, fs, j, off, Len(m, ts)) && (off < m[fs[j]].len || (off == 0 && 0 < j))
    ensures Short(m, ts, fs)
  {
    PartAt(m, f, fs, j);
    if m[fs[j]].len == 0 { assert ShortAt(m, ts, fs, j); }
  }

  lemma QueueFound(m: Mem, m': Mem, written: seq<nat>, p: Ptr, ps: seq<nat>, q: Ptr, i: nat, off: nat, k: nat)
    requires IsChain(m, p, ps) && OnlyBytes(m, m', written) && (q.At? ==> InBuffer(m, q, ps, i, off, k))
    ensures q.At? ==> (q.a in m' && m'[q.a].len == m'[q.a].tot && m'[q.a].next.At? <==> QueueAt(m, ps, i))
  {
    if q.At? {
      PartAt(m, p, ps, i);
      assert q.a in m' && m'[q.a].len == m[q.a].len && m'[q.a].tot == m[q.a].tot && m'[q.a].next == m[q.a].next;
    }
  }

  /** A fresh buffer with one reference, held by the caller. */
  lemma AllocKeeps(m: Mem, ext: multiset<nat>, a: nat, b: Pbuf)
    requires RefInv(m, ext) && a !in m && b.next == Null && b.refs == 1
    ensures RefInv(m[a := b], ext + multiset{a})
  {
    var m', ext' := m[a := b], ext + multiset{a};
    forall c | c in m'
      ensures CountOk(m', ext', c) && LinkOk(m', c) && HasChain(m', At(c))
    {
      assert Preds(m', c) == Preds(m, c);
      if c == a {
        NothingPointsTo(m, ext, a);
        assert IsChain(m', At(a), [a]) by { assert [a][1..] == []; }
      } else {
        assert CountOk(m, ext, c) && LinkOk(m, c) && HasChain(m, At(c));
        var ps :| IsChain(m, At(c), ps);
        ChainIn(m, At(c), ps);
        ChainFrame(m, m', At(c), ps);
      }
    }
  }

  lemma NothingPointsTo(m: Mem, ext: multiset<nat>, a: nat)
    requires Closed(m, ext) && a !in m
    ensures Preds(m, a) == {} && ext[a] == 0
  {
    forall b | b in m
      ensures m[b].next != At(a)
    {
      assert LinkOk(m, b);
    }
  }

  lemma AllocReady(m: Mem, ext: multiset<nat>, a: nat, room: seq<Byte>, p: nat, ps: seq<nat>)
    requires IsChain(m, At(p), ps) && RefInv(m, ext) && Sized(m) && Narrow(m)
    requires p in m && m[p].tot < WRAP16 && a !in m && m[p].tot <= |room|
    ensures var m1 := m[a := Pbuf(Null, room, m[p].tot, m[p].tot, 1)];
            && RefInv(m1, ext + multiset{a}) && Narrow(m1) && Sized(m1)
            && IsChain(m1, At(a), [a]) && IsChain(m1, At(p), ps) && Disjoint([a], ps)
                && Content(m1, ps) == Content(m, ps)
            && |Content(m1, [a])| == m[p].tot
  {
    var m1 := m[a := Pbuf(Null, room, m[p].tot, m[p].tot, 1)];
    AllocKeeps(m, ext, a, m1[a]);
    ChainIn(m, At(p), ps);
    ChainFrame(m, m1, At(p), ps);
    ContentFrame(m, m1, ps);
    assert [a][1..] == [];
    ContentLength(m1, [a]);
  }

  lemma AllocSame(m: Mem, a: nat, b: Pbuf, p: nat, ps: seq<nat>)
    requires IsChain(m, At(p), ps) && a !in m
    ensures Len(m[a := b], ps) == Len(m, ps) && (EndsEmpty(m[a := b], ps) <==> EndsEmpty(m, ps))
    ensures First(m[a := b], ps) == First(m, ps)
  {
    ChainIn(m, At(p), ps);
    ContentFrame(m, m[a := b], ps);
  }

  lemma TwoThenEmpty(m: Mem, ps: seq<nat>)
    requires EndsEmpty(m, ps) && |ps| == 2
    ensures First(m, ps) == Len(m, ps)
  {
    assert ps[1..][1..] == [] && ps[1..][0] == ps[1];
    assert Len(m, ps[1..]) == Len(m, ps[1..][1..]);
  }

  /** A single buffer of just the right size takes the chain exactly when that does not end in an empty buffer. */
  lemma AllocDecides(m: Mem, ext: multiset<nat>, a: nat, room: seq<Byte>, p: nat, ps: seq<nat>)
    requires IsChain(m, At(p), ps) && Closed(m, ext) && p in m && m[p].tot < WRAP16 && a !in m && |ps| >= 2
    ensures var m1 := m[a := Pbuf(Null, room, m[p].tot, m[p].tot, 1)];
            Totals(m) && Len(m, ps) < WRAP16 ==>
              Decidable(m1, [a], ps) && (CopyFits(m1, [a], ps) <==> !EndsEmpty(m, ps))
  {
    var b := Pbuf(Null, room, m[p].tot, m[p].tot, 1);
    if Totals(m) && Len(m, ps) < WRAP16 {
      AllocTotals(m, ext, a, b);
      AllocSame(m, a, b, p, ps);
      TotalMeans(m, At(p), ps);
      OneLen(m[a := b], a);
      if EndsEmpty(m, ps) && |ps| == 2 { TwoThenEmpty(m, ps); }
    }
  }

  lemma OneLen(m: Mem, a: nat)
    requires a in m
    ensures Len(m, [a]) == First(m, [a]) == m[a].len
  {
    assert [a][1..] == [];
  }

  lemma AllocTotals(m: Mem, ext: multiset<nat>, a: nat, b: Pbuf)
    requires Closed(m, ext) && Totals(m) && a !in m && b.next == Null && b.tot == b.len < WRAP16
    ensures Totals(m[a := b])
  {
    var m' := m[a := b];
    forall c | c in m'
      ensures TotalOk(m', c)
    {
      if c != a { assert TotalOk(m, c) && LinkOk(m, c); }
    }
  }

  /** After the copy: the accounts still hold, and freeing the source leaves the copy alone. */
  lemma CopiedReady(m1: Mem, m2: Mem, ext: multiset<nat>, a: nat, p: nat, ps: seq<nat>)
    requires RefInv(m1, ext + multiset{p} + multiset{a}) && Narrow(m1) && OnlyBytes(m1, m2, [a])
    requires IsChain(m1, At(p), ps) && IsChain(m1, At(a), [a]) && Disjoint([a], ps)
    ensures IsChain(m2, At(p), ps) && Positive(m2) && Narrow(m2)
    ensures RefInv(Freed(m2, ps), ext + multiset{a})
    ensures IsChain(Freed(m2, ps), At(a), [a]) && Content(Freed(m2, ps), [a]) == Content(m2, [a])
  {
    OnlyBytesMeans(m1, m2, [a], At(p), ps);
    OnlyBytesMeans(m1, m2, [a], At(a), [a]);
    SameRefs(m1, m2, ext + multiset{p} + multiset{a});
    assert ext + multiset{p} + multiset{a} == ext + multiset{a} + Bag(At(p));
    FreedKeeps(m2, ext + multiset{a}, At(p), ps);
    assert a in [a];
    FreedExactly(m2, At(p), ps, a);
    assert a !in ps[..Run(m2, ps)];
    assert a in Freed(m2, ps) && Freed(m2, ps)[a].next == m2[a].next;
    ChainFrame(m2, Freed(m2, ps), At(a), [a]);
    ContentFrame(m2, Freed(m2, ps), [a]);
  }

  /** A target that ends before the source's last buffer is copied: too few bytes, or an empty buffer left over. */
  ghost predicate Short(m: Mem, ts: seq<nat>, fs: seq<nat>)
  {
    Len(m, ts) < Len(m, fs) || exists j :: ShortAt(m, ts, fs, j)
  }

  ghost predicate ShortAt(m: Mem, ts: seq<nat>, fs: seq<nat>, j: nat)
  {
    1 <= j < |fs| && fs[j] in m && m[fs[j]].len == 0 && Len(m, ts) == Len(m, fs[..j])
  }

  /** A buffer that is not the last has a total of its own length, as the last buffer of a packet in a queue would. */
  ghost predicate LooksLikeQueue(m: Mem, ps: seq<nat>)
  {
    exists i :: QueueAt(m, ps, i)
  }

  ghost predicate QueueAt(m: Mem, ps: seq<nat>, i: nat)
  {
    i + 1 < |ps| && ps[i] in m && m[ps[i]].len == m[ps[i]].tot
  }

  lemma LastPart(m: Mem, p: Ptr, ps: seq<nat>, i: nat)
    requires IsChain(m, p, ps) && i < |ps| && ps[i] in m
    ensures Len(m, ps[i..]) == m[ps[i]].len + Len(m, ps[i + 1..])
    ensures Len(m, ps) == Len(m, ps[..i]) + Len(m, ps[i..])
    ensures ps[|ps| - 1] in m && (i + 1 < |ps| ==> m[ps[|ps| - 1]].len <= Len(m, ps[i + 1..]))
  {
    SplitAt(m, ps, i);
    assert ps[i..][0] == ps[i] && ps[i..][1..] == ps[i + 1..];
    PartAt(m, p, ps, |ps| - 1);
    if i + 1 < |ps| {
      var rest := ps[i + 1..];
      SplitAt(m, rest, |rest| - 1);
      assert rest[|rest| - 1] == ps[|ps| - 1];
    }
  }

  /** With right totals, a buffer looks like the end of a packet exactly when nothing but empty buffers follow. */
  lemma QueueMeans(m: Mem, p: Ptr, ps: seq<nat>, i: nat)
    requires Totals(m) && Len(m, ps) < WRAP16 && IsChain(m, p, ps) && i + 1 < |ps|
    ensures ps[i] in m && (QueueAt(m, ps, i) <==> Len(m, ps[i + 1..]) == 0)
  {
    ChainAt(m, p, ps, i);
    TotalMeans(m, At(ps[i]), ps[i..]);
    LastPart(m, p, ps, i);
  }

  lemma NoQueue(m: Mem, p: Ptr, ps: seq<nat>)
    requires Totals(m) && Len(m, ps) < WRAP16 && IsChain(m, p, ps) && !EndsEmpty(m, ps)
    ensures !LooksLikeQueue(m, ps)
  {
    forall i: nat
      ensures !QueueAt(m, ps, i)
    {
      if i + 1 < |ps| {
        QueueMeans(m, p, ps, i);
        LastPart(m, p, ps, i);
      }
    }
  }

  /** The last but one of a chain that ends in an empty buffer looks like the end of a packet. */
  lemma LastButOne(m: Mem, p: Ptr, ps: seq<nat>)
    requires Totals(m) && Len(m, ps) < WRAP16 && IsChain(m, p, ps) && EndsEmpty(m, ps)
    ensures QueueAt(m, ps, |ps| - 2)
  {
    QueueMeans(m, p, ps, |ps| - 2);
    var rest := ps[|ps| - 1..];
    assert rest == [ps[|ps| - 1]] && rest[1..] == [];
  }

  /** An empty buffer at which the source has no bytes left: it ends in one. */
  lemma NothingLeft(m: Mem, p: Ptr, ps: seq<nat>, j: nat)
    requires IsChain(m, p, ps) && 1 <= j < |ps| && Len(m, ps) <= Len(m, ps[..j])
    ensures EndsEmpty(m, ps)
  {
    PartAt(m, p, ps, j);
    LastPart(m, p, ps, j);
  }

  /** Two buffers, and the first has all the bytes. */
  lemma FirstHasAll(m: Mem, p: Ptr, ps: seq<nat>)
    requires IsChain(m, p, ps) && ps != [] && Len(m, ps) <= First(m, ps)
    ensures |ps| >= 2 ==> EndsEmpty(m, ps)
  {
    if |ps| >= 2 {
      assert ps[..1] == [ps[0]] && [ps[0]][1..] == [];
      NothingLeft(m, p, ps, 1);
    }
  }

  lemma NotShort(m: Mem, t: Ptr, ts: seq<nat>, f: Ptr, fs: seq<nat>)
    requires t.At? && f.At? && IsChain(m, t, ts) && IsChain(m, f, fs) && m[f.a].tot <= m[t.a].tot
    requires Decidable(m, ts, fs) && CopyFits(m, ts, fs)
    ensures !Short(m, ts, fs)
  {
    TotalMeans(m, t, ts);
    TotalMeans(m, f, fs);
    OneBuffer(m, ts);
    forall j: nat
      ensures !ShortAt(m, ts, fs, j)
    {
      if ShortAt(m, ts, fs, j) {
        NothingLeft(m, f, fs, j);
        FirstOfTwo(m, fs, j);
        FirstHasAll(m, t, ts);
      }
    }
  }

  lemma OneBuffer(m: Mem, ps: seq<nat>)
    ensures |ps| == 1 ==> Len(m, ps) == First(m, ps)
  {
    if |ps| == 1 { assert ps[1..] == []; }
  }

  lemma FirstOfTwo(m: Mem, ps: seq<nat>, j: nat)
    requires 1 <= j < |ps|
    ensures |ps| == 2 ==> Len(m, ps[..j]) == First(m, ps)
  {
    if |ps| == 2 { OneBuffer(m, ps[..j]); }
  }

  /** What the loop decides. */
  lemma CopyExact(m: Mem, t: Ptr, ts: seq<nat>, f: Ptr, fs: seq<nat>, err: Err)
    requires t.At? && f.At? && IsChain(m, t, ts) && IsChain(m, f, fs) && m[f.a].tot <= m[t.a].tot
    requires Reasons(m, ts, fs, err)
    ensures Decidable(m, ts, fs) ==> (err == ErrOk <==> CopyFits(m, ts, fs))
  {
    if Decidable(m, ts, fs) {
      NoQueue(m, t, ts);
      if EndsEmpty(m, fs) {
        LastButOne(m, f, fs);
      } else {
        NoQueue(m, f, fs);
      }
      if CopyFits(m, ts, fs) { NotShort(m, t, ts, f, fs); }
    }
  }

  /** With the totals right a chain has at least tot_len bytes. */
  lemma RoomFor(m: Mem, p: Ptr, ps: seq<nat>, len: nat)
    requires Totals(m) && Sized(m) && p.At? && IsChain(m, p, ps) && len <= m[p.a].tot
    ensures len <= Len(m, ps) == |Content(m, ps)|
  {
    TotalMeans(m, p, ps);
    ContentLength(m, ps);
  }

  lemma PartAt(m: Mem, p: Ptr, ps: seq<nat>, i: nat)
    requires IsChain(m, p, ps) && i < |ps|
    ensures ps[i] in m && m[ps[i]].next == Place(ps, i + 1)
    ensures Len(m, ps[..i + 1]) == Len(m, ps[..i]) + m[ps[i]].len <= Len(m, ps)
  {
    ChainAt(m, p, ps, i);
    SplitAt(m, ps, i);
  }

  /** The first `copied` bytes of `data` are in the chain. */
  ghost predicate Taken(m: Mem, now: Mem, ps: seq<nat>, data: seq<Byte>, copied: nat)
  {
    OnlyBytes(m, now, ps) && Overlaid(Content(now, ps), data, 0, Content(m, ps), copied)
  }

  /** pbuf_copy_partial, at buffer `p` with `off` bytes to skip in it and `left` bytes to copy. */
  ghost predicate Reading(m: Mem, ps: seq<nat>, i: nat, p: Ptr, off: nat, offset: nat, copied: nat, left: nat)
  {
    && i <= |ps| && p == Place(ps, i) && (copied == 0 || off == 0)
    && (left == 0 || offset + copied == Len(m, ps[..i]) + off)
  }

  lemma ReadingOn(m: Mem, buf: Ptr, ps: seq<nat>, i: nat, p: Ptr, off: nat, offset: nat, copied: nat, left: nat)
    requires IsChain(m, buf, ps) && Reading(m, ps, i, p, off, offset, copied, left) && p.At?
    ensures i < |ps| && p.a == ps[i] && p.a in m
    ensures off >= m[p.a].len ==> Reading(m, ps, i + 1, m[p.a].next, off - m[p.a].len, offset, copied, left)
    ensures off <= m[p.a].len ==>
              var n := Min(m[p.a].len - off, left);
              Reading(m, ps, i + 1, m[p.a].next, 0, offset, copied + n, left - n)
  {
    PartAt(m, buf, ps, i);
  }

  lemma Removed(m: Mem, a: nat, b: Pbuf)
    ensures m[a := b] - {a} == m - {a}
  {
  }

  /** pbuf_free, with `gone` buffers freed and `rest` before it, will end as if it had just begun. */
  ghost predicate Freeing(was: Mem, ps: seq<nat>, m: Mem, q: Ptr, rest: seq<nat>, gone: nat)
  {
    && IsChain(m, q, rest) && (rest != [] ==> Positive(m) && Narrow(m))
    && Freed(m, rest) == Freed(was, ps) && gone + Run(m, rest) == Run(was, ps)
  }

  lemma FreeStarts(m: Mem, p: Ptr, ps: seq<nat>)
    requires IsChain(m, p, ps) && Positive(m) && Narrow(m)
    ensures Freeing(m, ps, m, p, ps, 0)
  {
  }

  lemma CountsOn(gone: nat)
    ensures (gone % 256 + 1) % 256 == (gone + 1) % 256
  {
  }

  lemma FreeEnds(was: Mem, ps: seq<nat>, m: Mem, rest: seq<nat>, gone: nat)
    requires Freeing(was, ps, m, Null, rest, gone)
    ensures m == Freed(was, ps) && gone == Run(was, ps)
  {
  }

  lemma FreeWalk(was: Mem, ps: seq<nat>, m: Mem, rest: seq<nat>, gone: nat)
    requires rest != [] && Freeing(was, ps, m, At(rest[0]), rest, gone)
    ensures (m[rest[0]].refs + WRAP16 - 1) % WRAP16 == m[rest[0]].refs - 1
    ensures m[rest[0]].refs == 1 ==>
              Freeing(was, ps, m[rest[0] := m[rest[0]].(refs := 0)] - {rest[0]}, m[rest[0]].next, rest[1..], gone + 1)
    ensures m[rest[0]].refs > 1 ==>
              Freeing(was, ps, m[rest[0] := m[rest[0]].(refs := m[rest[0]].refs - 1)], Null, [], gone)
  {
    Removed(m, rest[0], m[rest[0]].(refs := 0));
    FreedStep(m, rest);
    RestChain(m, rest);
    RunElsewhere(m, rest[0], rest[1..]);
  }

  lemma WalkStep(m: Mem, p: Ptr, ps: seq<nat>, i: nat, d: nat)
    requires IsChain(m, p, ps) && i + 1 < |ps| && ps[i] in m
    ensures AddTot(m, ps[..i + 1], d) == AddTot(m, ps[..i], d)[ps[i] := m[ps[i]].(tot := Plus(m[ps[i]].tot, d))]
    ensures ps[i + 1] in m && m[ps[i + 1]].next == Place(ps, i + 2) && m[ps[i]].next == At(ps[i + 1])
    ensures ps[i + 1] in AddTot(m, ps[..i + 1], d) && AddTot(m, ps[..i + 1], d)[ps[i + 1]] == m[ps[i + 1]]
  {
    WalkAt(m, p, ps, i, d);
    AddTotStep(m, ps, i, d);
    WalkAt(m, p, ps, i + 1, d);
  }

  lemma TailReady(m: Mem, p: nat, ps: seq<nat>, k: nat, rem: nat, d: nat, m3: Mem)
    requires IsChain(m, At(p), ps) && k < |ps| && ps[k] in m && Positive(m) && Narrow(m)
    requires m3.Keys == m.Keys && Cut(m, ps, k, rem, d) == SetNext(m3, ps[k], Null)
    requires (forall a :: a in m ==> m3[a].refs == m[a].refs) && m3[ps[k]].next == m[ps[k]].next
    ensures IsChain(m3, m3[ps[k]].next, ps[k + 1..]) && Positive(m3) && Narrow(m3)
    ensures ps[k] in Freed(m3, ps[k + 1..])
    ensures SetNext(Freed(m3, ps[k + 1..]), ps[k], Null) == Freed(Cut(m, ps, k, rem, d), ps[k + 1..])
    ensures m3[ps[k]].next == Null ==> ps[k + 1..] == []
  {
    var c, rest := Cut(m, ps, k, rem, d), ps[k + 1..];
    CutTail(m, p, ps, k, rem, d);
    ChainAt(m, At(p), ps, k);
    ChainFrame(c, m3, Place(ps, k + 1), rest);
    FreeThenUnlink(m3, ps[k], rest);
  }

  lemma CutSteps(m: Mem, ps: seq<nat>, k: nat, rem: nat, d: nat)
    requires k < |ps| && ps[k] in m
    ensures var q, m1 := ps[k], AddTot(m, ps[..k], d);
            var m2 := m1[q := m1[q].(len := rem)];
            Cut(m, ps, k, rem, d) == SetNext(m2[q := m2[q].(tot := m2[q].len)], q, Null)
  {
  }

  /** pbuf_realloc has stepped over `i` buffers. */
  ghost predicate Stepping(m: Mem, ps: seq<nat>, newLen: nat, i: nat, rem: nat)
  {
    && i < |ps| && rem == newLen - Len(m, ps[..i]) && rem <= Len(m, ps[i..])
    && KeepIndex(m, ps, newLen) == i + KeepIndex(m, ps[i..], rem)
  }

  lemma SteppingStarts(m: Mem, ps: seq<nat>, newLen: nat)
    requires ps != [] && newLen <= Len(m, ps)
    ensures Stepping(m, ps, newLen, 0, newLen)
  {
    assert ps[0..] == ps;
  }

  lemma SteppingEnds(m: Mem, ps: seq<nat>, newLen: nat, i: nat, rem: nat)
    requires Stepping(m, ps, newLen, i, rem) && ps[i] in m && rem <= m[ps[i]].len
    ensures KeepIndex(m, ps, newLen) == i
  {
    assert ps[i..][0] == ps[i];
  }

  /** The walk does not run off the end. */
  lemma StepFits(m: Mem, ps: seq<nat>, newLen: nat, i: nat, rem: nat)
    requires Stepping(m, ps, newLen, i, rem) && ps[i] in m && m[ps[i]].len < rem
    ensures i + 1 < |ps| && Stepping(m, ps, newLen, i + 1, rem - m[ps[i]].len)
  {
    SplitAt(m, ps, i);
    assert ps[i..][1..] == ps[i + 1..];
    assert Len(m, ps[i..]) == m[ps[i]].len + Len(m, ps[i + 1..]);
  }
}
