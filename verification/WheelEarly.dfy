/**
  The one way a timer can run before it expires: it comes down from wheel 2 in a pass that is late enough for its
  slot on wheel 0 to lie a full turn ahead. Then the bucket is visited a turn too soon, in that very pass.
 */
module WheelEarly {
  import opened WheelMath
  import opened WheelProofs

  // ----- What stays in its bucket -----

  lemma {:induction false} ReinsertKeeps(w: Wheels, now: nat, rest: seq<Timer>, b: nat, t: Timer)
    requires Bounded(rest, now) && b < 768 && t in w[b]
    ensures t in Reinsert(w, now, rest).w[b]
    decreases |rest|
  {
    if rest != [] {
      if rest[0].expires <= now {
        ReinsertKeeps(w, now, rest[1..], b, t);
      } else {
        ReinsertKeeps(Insert(w, now, rest[0]), now, rest[1..], b, t);
      }
    }
  }

  /** A timer that is cascaded and has not expired goes to the bucket that fits. */
  lemma {:induction false} ReinsertPuts(w: Wheels, now: nat, rest: seq<Timer>, t: Timer)
    requires Bounded(rest, now) && t in rest && now < t.expires
    ensures Fits(t, now) && t in Reinsert(w, now, rest).w[Home(t, now)]
    decreases |rest|
  {
    if rest[0] == t {
      ReinsertKeeps(Insert(w, now, t), now, rest[1..], Home(t, now), t);
    } else if rest[0].expires <= now {
      ReinsertPuts(w, now, rest[1..], t);
    } else {
      ReinsertPuts(Insert(w, now, rest[0]), now, rest[1..], t);
    }
  }

  /** A collapse takes a timer out of no bucket but those it cascades. */
  lemma CollapseKeeps(w: Wheels, now: nat, pos: nat, b: nat, t: Timer)
    requires AllBounded(w, now) && b < 768 && t in w[b] && b != Bucket(1, Offset(pos, 1))
    requires Offset(pos, 1) == 0 ==> b != Bucket(2, Offset(pos, 2))
    ensures t in Collapse(w, now, pos).w[b]
  {
    var b1 := Bucket(1, Offset(pos, 1));
    ReinsertKeeps(w[b1 := []], now, w[b1], b, t);
    ReinsertBounded(w[b1 := []], now, w[b1]);
    if Offset(pos, 1) == 0 {
      var w1, b2 := Cascade(w, now, b1).w, Bucket(2, Offset(pos, 2));
      ReinsertKeeps(w1[b2 := []], now, w1[b2], b, t);
    }
  }

  lemma SlotKeeps(w: Wheels, now: nat, s: nat, b: nat, t: Timer)
    requires AllBounded(w, now) && b < 768 && t in w[b] && b != s % 256
    requires s % 256 == 0 ==> b != Bucket(1, s / 256 % 256)
    requires s % 0x10000 == 0 ==> b != Bucket(2, s / 0x10000 % 256)
    ensures t in Slot(w, now, 16 * s).w[b]
  {
    OffsetsOfSlot(s);
    LongBlockSteps(s);
    if s % 256 == 0 { CollapseKeeps(w, now, 16 * s, b, t); }
  }

  lemma SlotRuns(w: Wheels, now: nat, s: nat, t: Timer)
    requires AllBounded(w, now) && t in w[s % 256]
    ensures t in Slot(w, now, 16 * s).fired
  {
    OffsetsOfSlot(s);
    if s % 256 == 0 { CollapseKeeps(w, now, 16 * s, 0, t); }
  }

  /** What is in a bucket of wheel 0 runs when the pass comes to any slot of that bucket, its own or not. */
  lemma {:induction false} PassRuns(w: Wheels, now: nat, s: nat, q: nat, t: Timer)
    requires AllBounded(w, now) && t in w[q % 256] && s <= q && 16 * q <= now
    ensures t in Pass(w, now, 16 * s).fired
    decreases q - s
  {
    if s % 256 == q % 256 {
      SlotRuns(w, now, s, t);
    } else {
      SlotKeeps(w, now, s, q % 256, t);
      PassRuns(Slot(w, now, 16 * s).w, now, s + 1, q, t);
    }
  }

  // ----- The cascade that turns a timer early -----

  /** The slot a full turn before the timer's own. */
  function TurnBefore(t: Timer): int
  {
    Due(t) / 16 - 256
  }

  lemma TurnedHome(t: Timer, now: nat, s: nat)
    requires TurnsEarly(t, now, s)
    ensures Fits(t, now) && s <= TurnBefore(t) && 16 * TurnBefore(t) <= now && Home(t, now) == TurnBefore(t) % 256
  {
    LevelRange(t, now);
    SameTurn(Due(t) / 16);
  }

  lemma SameTurn(x: int)
    ensures (x - 256) % 256 == x % 256
  {
  }

  /** Wheel 2 puts the timer on wheel 0. */
  lemma CollapseTurns(w: Wheels, now: nat, s: nat, t: Timer)
    requires AllBounded(w, now) && TurnsEarly(t, now, s) && t in w[Bucket(2, s / 0x10000 % 256)]
    ensures t in Collapse(w, now, 16 * s).w[TurnBefore(t) % 256]
  {
    OffsetsOfSlot(s);
    LongBlockSteps(s);
    TurnedHome(t, now, s);
    var b1, b2 := Bucket(1, s / 256 % 256), Bucket(2, s / 0x10000 % 256);
    ReinsertKeeps(w[b1 := []], now, w[b1], b2, t);
    ReinsertBounded(w[b1 := []], now, w[b1]);
    var w1 := Cascade(w, now, b1).w;
    ReinsertPuts(w1[b2 := []], now, w1[b2], t);
  }

  lemma SlotTurns(w: Wheels, now: nat, s: nat, t: Timer)
    requires AllBounded(w, now) && TurnsEarly(t, now, s) && t in w[Bucket(2, s / 0x10000 % 256)]
    ensures var o, b := Slot(w, now, 16 * s), TurnBefore(t) % 256;
            if b == 0 then t in o.fired else t in o.w[b]
  {
    OffsetsOfSlot(s);
    LongBlockSteps(s);
    CollapseTurns(w, now, s, t);
  }

  /** The timer runs in the pass that cascades it. */
  lemma TurnedRuns(w: Wheels, now: nat, s: nat, t: Timer)
    requires AllBounded(w, now) && TurnsEarly(t, now, s) && t in w[Bucket(2, s / 0x10000 % 256)]
    ensures t in Pass(w, now, 16 * s).fired
  {
    TurnedHome(t, now, s);
    SlotTurns(w, now, s, t);
    var q := TurnBefore(t);
    if q % 256 != 0 {
      BlockIsTurn(s, q);
      PassRuns(Slot(w, now, 16 * s).w, now, s + 1, q, t);
    }
  }

  lemma BlockIsTurn(s: nat, q: nat)
    requires s % 0x10000 == 0 && s <= q && q % 256 != 0
    ensures s + 1 <= q
  {
    LongBlockSteps(s);
  }

  lemma OtherBlock(t: Timer, s: nat)
    requires s < BlockStart(t) && Tick(2, t) < Standing(s).n2 + 256
    ensures s % 0x10000 == 0 ==> s / 0x10000 % 256 != Tick(2, t) % 256
    ensures Tick(2, t) < Standing(s + 1).n2 + 256
  {
    LongBlockSteps(s);
    if s % 0x10000 == 0 && s / 0x10000 % 256 == Tick(2, t) % 256 {
      SameResidue(Tick(2, t), s / 0x10000);
    }
  }

  /** An exact timer on wheel 2 waits for its block, and runs too soon when the block turns it. */
  lemma {:induction false} PassTurnsRuns(w: Wheels, now: nat, s: nat, t: Timer)
    requires AllBounded(w, now) && PassTurns(t, now, s) && t in w[512 + Tick(2, t) % 256]
    requires Tick(2, t) < Standing(s).n2 + 256
    ensures t in Pass(w, now, 16 * s).fired
    decreases BlockStart(t) - s
  {
    if s == BlockStart(t) {
      TurnedRuns(w, now, s, t);
    } else {
      OtherBlock(t, s);
      SlotKeeps(w, now, s, 512 + Tick(2, t) % 256, t);
      PassTurnsRuns(Slot(w, now, 16 * s).w, now, s + 1, t);
    }
  }

  lemma OnWheel2(b: nat)
    requires 512 <= b < 768
    ensures b / 256 == 2 && b == 512 + b % 256
  {
  }

  lemma FarBucket(w: Wheels, s: nat, t: Timer)
    requires OnTime(w, Standing(s)) && Tracked(w, t, Standing(s), 768) && Far(w, t)
    ensures t in w[512 + Tick(2, t) % 256] && Tick(2, t) < Standing(s).n2 + 256
  {
    var b :| 512 <= b < 768 && t in w[b];
    var i :| 0 <= i < |w[b]| && w[b][i] == t;
    OnWheel2(b);
    assert AllInPlace(w[b], b, Standing(s));
    assert InPlace(b, t, Standing(s)) && Exact(b, t, Standing(s));
  }

  /** A pass at `now` runs a pending timer that has not expired exactly when it turns it early on wheel 2. */
  lemma PassEarlyExactly(w: Wheels, now: nat, s: nat, t: Timer)
    requires AllBounded(w, now) && OnTime(w, Standing(s)) && Tracked(w, t, Standing(s), 768) && now < t.expires
    ensures t in Pass(w, now, 16 * s).fired <==> Far(w, t) && PassTurns(t, now, s)
  {
    if Far(w, t) && PassTurns(t, now, s) {
      FarBucket(w, s, t);
      PassTurnsRuns(w, now, s, t);
    } else {
      PassTracked(w, now, s, t, 768);
    }
  }
}
