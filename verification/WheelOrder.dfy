/**
  The order of the handlers within a pass: of one 16 us slot the timer that was added last runs first, and what a
  cascade finds expired runs before the slot it comes with.
 */
module WheelOrder {
  import opened WheelMath
  import opened WheelProofs
  import opened TimerWheels

  ghost predicate Precedes(q: seq<Timer>, u: Timer, t: Timer)
  {
    exists i, j :: 0 <= i < j < |q| && q[i] == u && q[j] == t
  }

  lemma PrecedesWithin(p: seq<Timer>, q: seq<Timer>, r: seq<Timer>, u: Timer, t: Timer)
    requires Precedes(q, u, t)
    ensures Precedes(p + q + r, u, t)
  {
    var i, j :| 0 <= i < j < |q| && q[i] == u && q[j] == t;
    var s := p + q + r;
    assert s[|p| + i] == u && s[|p| + j] == t;
  }

  lemma InsertKeepsOrder(w: Wheels, now: nat, x: Timer, b: nat, u: Timer, t: Timer)
    requires Fits(x, now) && b < 768 && Precedes(w[b], u, t)
    ensures Precedes(Insert(w, now, x)[b], u, t)
  {
    if Home(x, now) == b {
      PrecedesWithin([x], w[b], [], u, t);
      assert [x] + w[b] + [] == [x] + w[b];
    }
  }

  lemma {:induction false} ReinsertKeepsOrder(w: Wheels, now: nat, rest: seq<Timer>, b: nat, u: Timer, t: Timer)
    requires Bounded(rest, now) && b < 768 && Precedes(w[b], u, t)
    ensures Precedes(Reinsert(w, now, rest).w[b], u, t)
    decreases |rest|
  {
    if rest != [] {
      if rest[0].expires <= now {
        ReinsertKeepsOrder(w, now, rest[1..], b, u, t);
      } else {
        InsertKeepsOrder(w, now, rest[0], b, u, t);
        ReinsertKeepsOrder(Insert(w, now, rest[0]), now, rest[1..], b, u, t);
      }
    }
  }

  /** Cascades put timers in front of those on wheel 0. */
  lemma CollapseKeepsOrder(w: Wheels, now: nat, pos: nat, b: nat, u: Timer, t: Timer)
    requires AllBounded(w, now) && b < 256 && Precedes(w[b], u, t)
    ensures Precedes(Collapse(w, now, pos).w[b], u, t)
  {
    var off := Offset(pos, 1);
    var k := Bucket(1, off);
    assert Bounded(w[k], now);
    ReinsertKeepsOrder(w[k := []], now, w[k], b, u, t);
    if off == 0 {
      var o1, k2 := Cascade(w, now, k), Bucket(2, Offset(pos, 2));
      ReinsertBounded(w[k := []], now, w[k]);
      assert Bounded(o1.w[k2], now);
      ReinsertKeepsOrder(o1.w[k2 := []], now, o1.w[k2], b, u, t);
    }
  }

  lemma SlotOrder(w: Wheels, now: nat, s: nat, b: nat, u: Timer, t: Timer)
    requires AllBounded(w, now) && b < 256 && Precedes(w[b], u, t)
    ensures if s % 256 == b then Precedes(Slot(w, now, 16 * s).fired, u, t)
            else Precedes(Slot(w, now, 16 * s).w[b], u, t)
  {
    OffsetsOfSlot(s);
    var off := s % 256;
    if off == 0 { CollapseKeepsOrder(w, now, 16 * s, b, u, t); }
    var c := if off == 0 then Collapse(w, now, 16 * s) else Outcome(w, []);
    if off == b {
      PrecedesWithin(c.fired, c.w[b], [], u, t);
      assert c.fired + c.w[b] + [] == c.fired + c.w[b];
    }
  }

  lemma PassTurn(w: Wheels, now: nat, s: nat)
    requires AllBounded(w, now) && 16 * s <= now
    ensures var o := Slot(w, now, 16 * s);
            Pass(w, now, 16 * s).fired == o.fired + Pass(o.w, now, 16 * (s + 1)).fired
  {
    assert 16 * s + MIN_DELAY == 16 * (s + 1);
  }

  lemma PrecedesJoined(p: seq<Timer>, q: seq<Timer>, u: Timer, t: Timer)
    requires Precedes(p, u, t) || Precedes(q, u, t)
    ensures Precedes(p + q, u, t)
  {
    assert [] + p + q == p + q && p + q + [] == p + q;
    if Precedes(p, u, t) { PrecedesWithin([], p, q, u, t); } else { PrecedesWithin(p, q, [], u, t); }
  }

  lemma {:induction false} PassOrder(w: Wheels, now: nat, s: nat, slot: nat, u: Timer, t: Timer)
    requires AllBounded(w, now) && s <= slot && 16 * slot <= now && Precedes(w[slot % 256], u, t)
    ensures Precedes(Pass(w, now, 16 * s).fired, u, t)
    decreases slot - s
  {
    var o := Slot(w, now, 16 * s);
    PassTurn(w, now, s);
    SlotOrder(w, now, s, slot % 256, u, t);
    if s % 256 != slot % 256 { PassOrder(o.w, now, s + 1, slot, u, t); }
    PrecedesJoined(o.fired, Pass(o.w, now, 16 * (s + 1)).fired, u, t);
  }

  /** A timer for the next 4080 us goes to the bucket of its 16 us slot. */
  lemma NearHome(t: Timer, now: nat)
    requires Fits(t, now) && t.expires + 16 < now + 4096
    ensures Home(t, now) == (t.expires + 16) / 16 % 256
  {
    IndexRange(Due(t) - now);
    OffsetsOfSlot(Due(t) / 16);
    assert Offset(Due(t), 0) == Due(t) / 16 % 256;
  }

  /** Of two timers of the same 16 us slot, less than 4080 us ahead, the one that was added later runs first in the pass
      that comes to the slot. */
  lemma LastAddedFirst(s: Wheel, t: Timer, u: Timer, clock: nat)
    requires Sound(s) && Fits(t, s.now) && Fits(u, s.now)
    requires t.expires + 16 < s.now + 4096 && (u.expires + 16) / 16 == (t.expires + 16) / 16
    requires u.expires + 16 < s.now + 4096
    requires s.now <= clock && t.expires + 16 <= clock
    ensures Sound(Added(Added(s, t), u)) && Precedes(Ran(Added(Added(s, t), u), clock).1, u, t)
  {
    var slot := (t.expires + 16) / 16;
    var a := Added(Added(s, t), u);
    AddedSound(s, t);
    AddedSound(Added(s, t), u);
    NearHome(t, s.now);
    NearHome(u, s.now);
    assert a.w[slot % 256][0] == u && a.w[slot % 256][1] == t;
    StillBounded(a.w, a.now, clock);
    assert s.pos == 16 * (s.pos / 16) && s.pos / 16 <= slot;
    PassOrder(a.w, clock, s.pos / 16, slot, u, t);
  }

  lemma {:induction false} ReinsertFires(w: Wheels, now: nat, rest: seq<Timer>, t: Timer)
    requires Bounded(rest, now)
    ensures multiset(Reinsert(w, now, rest).fired)[t] == if t.expires <= now then multiset(rest)[t] else 0
    decreases |rest|
  {
    if rest != [] {
      assert rest == [rest[0]] + rest[1..];
      if rest[0].expires <= now {
        ReinsertFires(w, now, rest[1..], t);
      } else {
        ReinsertFires(Insert(w, now, rest[0]), now, rest[1..], t);
      }
    }
  }

  /** A cascade runs exactly the timers of its bucket that have expired. */
  lemma CascadeFires(w: Wheels, now: nat, b: nat, t: Timer)
    requires b < 768 && Bounded(w[b], now)
    ensures multiset(Cascade(w, now, b).fired)[t] == if t.expires <= now then multiset(w[b])[t] else 0
  {
    ReinsertFires(w[b := []], now, w[b], t);
  }

  // ----- One pass over three wheels -----

  lemma {:induction false} ReinsertKeeps(w: Wheels, now: nat, rest: seq<Timer>, b: nat, t: Timer)
    requires Bounded(rest, now) && b < 768 && t in w[b]
    ensures t in Reinsert(w, now, rest).w[b]
    decreases |rest|
  {
    if rest != [] {
      if rest[0].expires <= now {
        ReinsertKeeps(w, now, rest[1..], b, t);
      } else {
        ReinsertKeeps(Insert(w, now, rest[0]), now, rest[1..], b, t);
      }
    }
  }

  lemma JoinedPrecedes(p: seq<Timer>, q: seq<Timer>, u: Timer, t: Timer)
    requires u in p && t in q
    ensures Precedes(p + q, u, t)
  {
    var i :| 0 <= i < |p| && p[i] == u;
    var j :| 0 <= j < |q| && q[j] == t;
    assert (p + q)[i] == u && (p + q)[|p| + j] == t;
  }

  lemma CascadeRuns(w: Wheels, now: nat, b: nat, t: Timer)
    requires b < 768 && Bounded(w[b], now) && t in w[b] && t.expires <= now
    ensures t in Cascade(w, now, b).fired
  {
    CascadeFires(w, now, b, t);
    assert multiset(w[b])[t] > 0;
  }

  /** Where the first cascade of a collapse leaves another bucket. */
  lemma CollapseParts(w: Wheels, now: nat, pos: nat)
    requires AllBounded(w, now)
    ensures var b, c := Bucket(1, Offset(pos, 1)), Bucket(2, Offset(pos, 2));
            var o := Cascade(w, now, b);
            && Bounded(w[b], now) && AllBounded(o.w, now) && Bounded(o.w[c], now)
            && Collapse(w, now, pos).fired ==
               o.fired + if Offset(pos, 1) == 0 then Cascade(o.w, now, c).fired else []
  {
    var b, c := Bucket(1, Offset(pos, 1)), Bucket(2, Offset(pos, 2));
    assert Bounded(w[b], now);
    ReinsertBounded(w[b := []], now, w[b]);
    assert Bounded(Cascade(w, now, b).w[c], now);
  }

  lemma CollapseOrder(w: Wheels, now: nat, pos: nat, u: Timer, t: Timer)
    requires AllBounded(w, now) && u in w[Bucket(1, Offset(pos, 1))] && u.expires <= now
    ensures u in Collapse(w, now, pos).fired
    ensures Offset(pos, 1) == 0 && t in w[Bucket(2, Offset(pos, 2))] && t.expires <= now ==>
              Precedes(Collapse(w, now, pos).fired, u, t)
  {
    var b, c := Bucket(1, Offset(pos, 1)), Bucket(2, Offset(pos, 2));
    var o := Cascade(w, now, b);
    CollapseParts(w, now, pos);
    CascadeRuns(w, now, b, u);
    if Offset(pos, 1) == 0 && t in w[c] && t.expires <= now {
      ReinsertKeeps(w[b := []], now, w[b], c, t);
      CascadeRuns(o.w, now, c, t);
      JoinedPrecedes(o.fired, Cascade(o.w, now, c).fired, u, t);
    }
  }

  /** When a slot comes with cascades, the expired timers of wheel 1 run before those of wheel 2, and before those that
      wait in the slot itself. */
  lemma WheelsInOrder(w: Wheels, now: nat, s: nat, u: Timer, t: Timer)
    requires AllBounded(w, now) && s % 256 == 0 && u in w[256 + s / 256 % 256] && u.expires <= now
    ensures t in w[0] ==> Precedes(Slot(w, now, 16 * s).fired, u, t)
    ensures s / 256 % 256 == 0 && t in w[512 + s / 0x10000 % 256] && t.expires <= now ==>
              Precedes(Slot(w, now, 16 * s).fired, u, t)
  {
    OffsetsOfSlot(s);
    CollapseOrder(w, now, 16 * s, u, t);
    var c := Collapse(w, now, 16 * s);
    if t in w[0] {
      CollapseKeeps(w, now, 16 * s, t);
      JoinedPrecedes(c.fired, c.w[0], u, t);
    }
    if Precedes(c.fired, u, t) { PrecedesJoined(c.fired, c.w[0], u, t); }
  }

  lemma CollapseKeeps(w: Wheels, now: nat, pos: nat, t: Timer)
    requires AllBounded(w, now) && t in w[0]
    ensures t in Collapse(w, now, pos).w[0]
  {
    var b, c := Bucket(1, Offset(pos, 1)), Bucket(2, Offset(pos, 2));
    CollapseParts(w, now, pos);
    ReinsertKeeps(w[b := []], now, w[b], 0, t);
    var o := Cascade(w, now, b);
    ReinsertKeeps(o.w[c := []], now, o.w[c], 0, t);
  }
}
