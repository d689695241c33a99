/**
  The arithmetic of server_code/shinjuku-rocksdb/dp/core/timer.c: three wheels of 256 buckets, the branch-free
  choice of a bucket, and the passes over them, as functions on the array of buckets.
 */
module WheelMath {

  const SIZE: nat := 256
  const MIN_DELAY: nat := 16
  const MAX_DELAY: nat := 0x1000_0000

  /** A pending timer. */
  datatype Timer = Timer(id: nat, expires: nat)

  /** wheels[index][offset] is element 256 * index + offset; the head of a bucket's list comes first. */
  type Wheels = w: seq<seq<Timer>> | |w| == 768 witness seq(768, _ => [])

  /** Expiry rounded up past the current bucket. */
  function Due(t: Timer): nat
  {
    t.expires + MIN_DELAY
  }

  /** WHEEL_IDX_TO_SHIFT as a power of two: 16 us, 4096 us, 2^20 us. */
  function Unit(index: nat): (u: nat)
    requires index < 3
    ensures 0 < u
  {
    if index == 0 then 16 else if index == 1 then 4096 else 0x10_0000
  }

  /** WHEEL_OFFSET */
  function Offset(val: nat, index: nat): (off: nat)
    requires index < 3
    ensures off < SIZE
  {
    val / Unit(index) % SIZE
  }

  /** 63 - clz64(x) */
  function TopBit(x: nat): nat
    requires 0 < x
  {
    if x == 1 then 0 else TopBit(x / 2) + 1
  }

  function Pow2(k: nat): (p: nat)
    ensures 0 < p
  {
    if k == 0 then 1 else 2 * Pow2(k - 1)
  }

  lemma {:induction false} TopBitBounds(x: nat)
    requires 0 < x
    ensures Pow2(TopBit(x)) <= x < 2 * Pow2(TopBit(x))
  {
    if x > 1 { TopBitBounds(x / 2); }
  }

  lemma {:induction false} Pow2Monotone(j: nat, k: nat)
    requires j <= k
    ensures Pow2(j) <= Pow2(k)
  {
    if j < k { Pow2Monotone(j, k - 1); }
  }

  lemma TopBitAtLeast(x: nat, k: nat)
    requires 0 < x
    ensures TopBit(x) >= k <==> x >= Pow2(k)
  {
    TopBitBounds(x);
    if TopBit(x) >= k {
      Pow2Monotone(k, TopBit(x));
    } else {
      Pow2Monotone(TopBit(x) + 1, k);
    }
  }

  /** The wheel a delay goes to: ((63 - clz64(delay)) - 4) >> 3. */
  function Index(delay: nat): nat
    requires MIN_DELAY <= delay
  {
    TopBitAtLeast(delay, 4);
    assert Pow2(4) == 16;
    (TopBit(delay) - 4) / 8
  }

  lemma Powers()
    ensures Pow2(4) == 16 && Pow2(12) == 4096 && Pow2(20) == 0x10_0000 && Pow2(28) == MAX_DELAY
  {
    assert Pow2(8) == 16 * Pow2(4);
    assert Pow2(12) == 16 * Pow2(8);
    assert Pow2(16) == 16 * Pow2(12);
    assert Pow2(20) == 16 * Pow2(16);
    assert Pow2(24) == 16 * Pow2(20);
    assert Pow2(28) == 16 * Pow2(24);
  }

  /** The clz trick picks the wheel by range, and stays inside the array exactly below 2^28 us. */
  lemma IndexRange(delay: nat)
    requires MIN_DELAY <= delay
    ensures Index(delay) == 0 <==> delay < 4096
    ensures Index(delay) == 1 <==> 4096 <= delay < 0x10_0000
    ensures Index(delay) == 2 <==> 0x10_0000 <= delay < MAX_DELAY
    ensures Index(delay) < 3 <==> delay < MAX_DELAY
  {
    Powers();
    TopBitAtLeast(delay, 4);
    TopBitAtLeast(delay, 12);
    TopBitAtLeast(delay, 20);
    TopBitAtLeast(delay, 28);
  }

  /** A timer can be put on the wheels at time `now`. */
  predicate Fits(t: Timer, now: nat)
  {
    now <= t.expires && Due(t) < now + MAX_DELAY
  }

  function Level(t: Timer, now: nat): (index: nat)
    requires Fits(t, now)
    ensures index < 3
  {
    IndexRange(Due(t) - now);
    Index(Due(t) - now)
  }

  function Bucket(index: nat, off: nat): (b: nat)
    requires index < 3 && off < SIZE
    ensures b < 768 && b / 256 == index && b % 256 == off
  {
    256 * index + off
  }

  function Home(t: Timer, now: nat): (b: nat)
    requires Fits(t, now)
    ensures b < 768 && b / 256 == Level(t, now)
  {
    Bucket(Level(t, now), Offset(Due(t), Level(t, now)))
  }

  /** timer_insert: at the head of the bucket's list. */
  function Insert(w: Wheels, now: nat, t: Timer): Wheels
    requires Fits(t, now)
  {
    w[Home(t, now) := [t] + w[Home(t, now)]]
  }

  /** The wheels after some work, and the timers whose handlers ran, in order. */
  datatype Outcome = Outcome(w: Wheels, fired: seq<Timer>)

  /** Every timer is less than 2^28 us ahead, so an unexpired one can be inserted again. */
  ghost predicate Bounded(ts: seq<Timer>, now: nat)
  {
    forall i :: 0 <= i < |ts| ==> Due(ts[i]) < now + MAX_DELAY
  }

  ghost predicate AllBounded(w: Wheels, now: nat)
  {
    forall b :: 0 <= b < |w| ==> Bounded(w[b], now)
  }

  /** The loop of timer_reinsert_bucket over the timers taken out of a bucket: an expired one runs, the others
      go to the bucket that now fits. */
  function Reinsert(w: Wheels, now: nat, rest: seq<Timer>): Outcome
    requires Bounded(rest, now)
    decreases |rest|
  {
    if rest == [] then Outcome(w, [])
    else if rest[0].expires <= now then
      var o := Reinsert(w, now, rest[1..]);
      Outcome(o.w, [rest[0]] + o.fired)
    else Reinsert(Insert(w, now, rest[0]), now, rest[1..])
  }

  /** timer_reinsert_bucket */
  function Cascade(w: Wheels, now: nat, b: nat): Outcome
    requires b < 768 && Bounded(w[b], now)
  {
    Reinsert(w[b := []], now, w[b])
  }

  lemma {:induction false} ReinsertBounded(w: Wheels, now: nat, rest: seq<Timer>)
    requires Bounded(rest, now) && AllBounded(w, now)
    ensures AllBounded(Reinsert(w, now, rest).w, now)
    decreases |rest|
  {
    if rest != [] {
      if rest[0].expires <= now {
        ReinsertBounded(w, now, rest[1..]);
      } else {
        ReinsertBounded(Insert(w, now, rest[0]), now, rest[1..]);
      }
    }
  }

  /** timer_collapse: wheel 1, and wheel 2 as well when wheel 1 has come round. */
  function Collapse(w: Wheels, now: nat, pos: nat): (o: Outcome)
    requires AllBounded(w, now)
    ensures AllBounded(o.w, now)
  {
    var off := Offset(pos, 1);
    var o1 := Cascade(w, now, Bucket(1, off));
    ReinsertBounded(w[Bucket(1, off) := []], now, w[Bucket(1, off)]);
    if off != 0 then o1
    else
      var off2 := Offset(pos, 2);
      var o2 := Cascade(o1.w, now, Bucket(2, off2));
      ReinsertBounded(o1.w[Bucket(2, off2) := []], now, o1.w[Bucket(2, off2)]);
      Outcome(o2.w, o1.fired + o2.fired)
  }

  /** timer_run_bucket on wheel 0: every handler runs and the list is emptied. */
  function RunBucket(w: Wheels, off: nat): Outcome
    requires off < SIZE
  {
    Outcome(w[off := []], w[off])
  }

  /** One turn of the loop in timer_run. */
  function Slot(w: Wheels, now: nat, pos: nat): (o: Outcome)
    requires AllBounded(w, now)
    ensures AllBounded(o.w, now)
  {
    var off := Offset(pos, 0);
    var c := if off == 0 then Collapse(w, now, pos) else Outcome(w, []);
    var r := RunBucket(c.w, off);
    Outcome(r.w, c.fired + r.fired)
  }

  /** The loop of timer_run from `pos` on. */
  function Pass(w: Wheels, now: nat, pos: nat): (o: Outcome)
    requires AllBounded(w, now)
    ensures AllBounded(o.w, now)
    decreases now + MIN_DELAY - pos
  {
    if pos > now then Outcome(w, [])
    else
      var s := Slot(w, now, pos);
      var o := Pass(s.w, now, pos + MIN_DELAY);
      Outcome(o.w, s.fired + o.fired)
  }

  /** `timer_pos` after the loop. */
  function PassEnd(now: nat, pos: nat): (end: nat)
    ensures end > now && end >= pos && (end - pos) % MIN_DELAY == 0
    ensures pos <= now + MIN_DELAY ==> end <= now + MIN_DELAY
    decreases now + MIN_DELAY - pos
  {
    if pos > now then pos else PassEnd(now, pos + MIN_DELAY)
  }
}
