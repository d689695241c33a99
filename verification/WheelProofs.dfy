/**
  What the passes over the timing wheels keep: every pending timer sits in a bucket that will be visited, no
  timer is lost or doubled, and which timers can only be visited at their own slot.
 */
module WheelProofs {
  import opened WheelMath

  // ----- Where the passes stand -----

  /** For each wheel, the next of its slots to be visited. */
  datatype Ahead = Ahead(n0: nat, n1: nat, n2: nat)
  {
    function At(index: nat): nat
      requires index < 3
    {
      if index == 0 then n0 else if index == 1 then n1 else n2
    }
  }

  /** A timer's slot on a wheel. */
  function Tick(index: nat, t: Timer): nat
    requires index < 3
  {
    Due(t) / Unit(index)
  }

  function DivUp(x: nat, y: nat): nat
    requires 0 < y
  {
    (x + y - 1) / y
  }

  /** With slot `s` of wheel 0 next, the slots of wheels 1 and 2 that come next. */
  function Standing(s: nat): Ahead
  {
    Ahead(s, DivUp(s, 256), DivUp(s, 0x10000))
  }

  /** The timer is in its bucket, and its slot is still to come. */
  ghost predicate InPlace(b: nat, t: Timer, n: Ahead)
    requires b < 768
  {
    Tick(b / 256, t) % 256 == b % 256 && n.At(b / 256) <= Tick(b / 256, t)
  }

  ghost predicate AllInPlace(ts: seq<Timer>, b: nat, n: Ahead)
    requires b < 768
  {
    forall i :: 0 <= i < |ts| ==> InPlace(b, ts[i], n)
  }

  /** No pending timer has been passed over. */
  ghost predicate OnTime(w: Wheels, n: Ahead)
  {
    forall b :: 0 <= b < 768 ==> AllInPlace(w[b], b, n)
  }

  /** The next slot of a wheel starts at most one unit after `now`, so a new timer's slot is never behind it. */
  ghost predicate Room(n: Ahead, now: nat)
  {
    n.n0 * 16 <= now + 16 && n.n1 * 4096 <= now + 4096 && n.n2 * 0x10_0000 <= now + 0x10_0000
  }

  lemma LevelRange(t: Timer, now: nat)
    requires Fits(t, now)
    ensures var d, l := Due(t) - now, Level(t, now);
            && (l == 0 <==> d < 4096) && (l == 1 <==> 4096 <= d < 0x10_0000) && (l == 2 <==> 0x10_0000 <= d)
            && Unit(l) <= d < 256 * Unit(l)
  {
    IndexRange(Due(t) - now);
  }

  lemma InsertPlace(t: Timer, now: nat, n: Ahead)
    requires Fits(t, now) && Room(n, now)
    ensures InPlace(Home(t, now), t, n)
  {
    LevelRange(t, now);
  }

  lemma InsertOnTime(w: Wheels, now: nat, t: Timer, n: Ahead)
    requires Fits(t, now) && Room(n, now) && OnTime(w, n)
    ensures OnTime(Insert(w, now, t), n)
  {
    var h := Home(t, now);
    InsertPlace(t, now, n);
    assert AllInPlace(w[h], h, n);
    assert AllInPlace([t] + w[h], h, n);
  }

  lemma {:induction false} ReinsertOnTime(w: Wheels, now: nat, rest: seq<Timer>, n: Ahead)
    requires Bounded(rest, now) && Room(n, now) && OnTime(w, n)
    ensures OnTime(Reinsert(w, now, rest).w, n)
    decreases |rest|
  {
    if rest != [] {
      if rest[0].expires <= now {
        ReinsertOnTime(w, now, rest[1..], n);
      } else {
        InsertOnTime(w, now, rest[0], n);
        ReinsertOnTime(Insert(w, now, rest[0]), now, rest[1..], n);
      }
    }
  }

  function Stepped(n: Ahead, index: nat): Ahead
    requires index < 3
  {
    if index == 0 then n.(n0 := n.n0 + 1) else if index == 1 then n.(n1 := n.n1 + 1) else n.(n2 := n.n2 + 1)
  }

  /** Emptying the bucket of a wheel's next slot: what stays on that wheel comes later. */
  lemma EmptyNext(w: Wheels, b: nat, n: Ahead)
    requires OnTime(w, n) && b < 768 && n.At(b / 256) % 256 == b % 256
    ensures OnTime(w[b := []], Stepped(n, b / 256))
  {
    var n' := Stepped(n, b / 256);
    var w' := w[b := []];
    forall c | 0 <= c < 768
      ensures AllInPlace(w'[c], c, n')
    {
      assert AllInPlace(w[c], c, n);
      if c != b && c / 256 == b / 256 {
        assert c % 256 != b % 256;
      }
    }
  }

  lemma CascadeOnTime(w: Wheels, now: nat, b: nat, n: Ahead)
    requires OnTime(w, n) && 256 <= b < 768 && n.At(b / 256) % 256 == b % 256 && Bounded(w[b], now)
    requires Room(Stepped(n, b / 256), now)
    ensures OnTime(Cascade(w, now, b).w, Stepped(n, b / 256))
  {
    EmptyNext(w, b, n);
    ReinsertOnTime(w[b := []], now, w[b], Stepped(n, b / 256));
  }

  lemma BlockSteps(s: nat)
    ensures DivUp(s + 1, 256) == s / 256 + 1
    ensures DivUp(s, 256) == if s % 256 == 0 then s / 256 else s / 256 + 1
  {
  }

  lemma LongBlockSteps(s: nat)
    ensures DivUp(s + 1, 0x10000) == s / 0x10000 + 1
    ensures DivUp(s, 0x10000) == if s % 0x10000 == 0 then s / 0x10000 else s / 0x10000 + 1
    ensures s % 0x10000 == 0 <==> s % 256 == 0 && s / 256 % 256 == 0
  {
  }

  /** Slots of wheel 0 that start a block, and those that start a block of blocks. */
  lemma StandingSteps(s: nat)
    ensures s % 256 != 0 ==> Standing(s + 1) == Stepped(Standing(s), 0)
    ensures s % 256 == 0 && s / 256 % 256 != 0 ==> Standing(s + 1) == Stepped(Stepped(Standing(s), 1), 0)
    ensures s % 256 == 0 && s / 256 % 256 == 0 ==> Standing(s + 1) == Stepped(Stepped(Stepped(Standing(s), 1), 2), 0)
    ensures s % 256 == 0 ==> Standing(s).n1 == s / 256
    ensures s % 256 == 0 && s / 256 % 256 == 0 ==> Standing(s).n2 == s / 0x10000
  {
    BlockSteps(s);
    LongBlockSteps(s);
  }

  lemma OffsetsOfSlot(s: nat)
    ensures Offset(16 * s, 0) == s % 256
    ensures Offset(16 * s, 1) == s / 256 % 256
    ensures Offset(16 * s, 2) == s / 0x10000 % 256
  {
  }

  /** Where the passes stand after the collapse at slot `s`. */
  function Collapsed(s: nat): Ahead
  {
    if s % 256 != 0 then Standing(s)
    else if s / 256 % 256 != 0 then Stepped(Standing(s), 1)
    else Stepped(Stepped(Standing(s), 1), 2)
  }

  lemma RoomAtSlot(s: nat, now: nat)
    requires 16 * s <= now
    ensures Room(Standing(s), now) && Room(Collapsed(s), now)
    ensures s % 256 == 0 ==> Room(Stepped(Standing(s), 1), now)
  {
  }

  lemma CollapseOnTime(w: Wheels, now: nat, s: nat)
    requires AllBounded(w, now) && OnTime(w, Standing(s)) && 16 * s <= now && s % 256 == 0
    ensures OnTime(Collapse(w, now, 16 * s).w, Collapsed(s))
  {
    OffsetsOfSlot(s);
    StandingSteps(s);
    RoomAtSlot(s, now);
    var off := s / 256 % 256;
    CascadeOnTime(w, now, Bucket(1, off), Standing(s));
    ReinsertBounded(w[Bucket(1, off) := []], now, w[Bucket(1, off)]);
    if off == 0 {
      CascadeOnTime(Cascade(w, now, Bucket(1, off)).w, now, Bucket(2, s / 0x10000 % 256), Stepped(Standing(s), 1));
    }
  }

  lemma SlotOnTime(w: Wheels, now: nat, s: nat)
    requires AllBounded(w, now) && OnTime(w, Standing(s)) && 16 * s <= now
    ensures OnTime(Slot(w, now, 16 * s).w, Standing(s + 1))
  {
    OffsetsOfSlot(s);
    StandingSteps(s);
    var c := if s % 256 == 0 then Collapse(w, now, 16 * s) else Outcome(w, []);
    if s % 256 == 0 {
      CollapseOnTime(w, now, s);
    }
    EmptyNext(c.w, s % 256, Collapsed(s));
  }

  lemma {:induction false} PassOnTime(w: Wheels, now: nat, s: nat)
    requires AllBounded(w, now) && OnTime(w, Standing(s))
    ensures PassEnd(now, 16 * s) % 16 == 0
    ensures OnTime(Pass(w, now, 16 * s).w, Standing(PassEnd(now, 16 * s) / 16))
    decreases now + 16 - 16 * s
  {
    if 16 * s <= now {
      SlotOnTime(w, now, s);
      PassOnTime(Slot(w, now, 16 * s).w, now, s + 1);
    }
  }

  /** A timer in place is due after the slots that have been visited. */
  lemma InPlaceDue(b: nat, t: Timer, s: nat)
    requires b < 768 && InPlace(b, t, Standing(s))
    ensures 16 * s <= Due(t)
  {
  }

  // ----- Conservation -----

  /** The timers in the first `m` buckets. */
  ghost function Sum(w: seq<seq<Timer>>, m: nat): multiset<Timer>
    requires m <= |w|
  {
    if m == 0 then multiset{} else Sum(w, m - 1) + multiset(w[m - 1])
  }

  /** All pending timers, with multiplicity. */
  ghost function Pending(w: Wheels): multiset<Timer>
  {
    Sum(w, 768)
  }

  lemma Swap(a: multiset<Timer>, b: multiset<Timer>, c: multiset<Timer>)
    ensures (a + b) + c == (a + c) + b
  {
    forall t: Timer
      ensures ((a + b) + c)[t] == ((a + c) + b)[t]
    {
    }
  }

  lemma {:induction false} SumUpdate(w: seq<seq<Timer>>, b: nat, x: seq<Timer>, m: nat)
    requires b < |w| && m <= |w|
    ensures b < m ==> Sum(w[b := x], m) + multiset(w[b]) == Sum(w, m) + multiset(x)
    ensures m <= b ==> Sum(w[b := x], m) == Sum(w, m)
  {
    if 0 < m {
      SumUpdate(w, b, x, m - 1);
      var w' := w[b := x];
      if b == m - 1 {
        Swap(Sum(w, m - 1), multiset(x), multiset(w[b]));
      } else if b < m {
        Swap(Sum(w', m - 1), multiset(w[m - 1]), multiset(w[b]));
        Swap(Sum(w, m - 1), multiset(x), multiset(w[m - 1]));
      }
    }
  }

  lemma EmptyPending(w: Wheels, b: nat)
    requires b < 768
    ensures Pending(w[b := []]) + multiset(w[b]) == Pending(w)
  {
    SumUpdate(w, b, [], 768);
  }

  lemma Cancel(a: multiset<Timer>, b: multiset<Timer>, c: multiset<Timer>, d: multiset<Timer>)
    requires a + d == b + (c + d)
    ensures a == b + c
  {
    forall t: Timer
      ensures a[t] == (b + c)[t]
    {
      assert (a + d)[t] == (b + (c + d))[t];
    }
  }

  lemma InsertPending(w: Wheels, now: nat, t: Timer)
    requires Fits(t, now)
    ensures Pending(Insert(w, now, t)) == Pending(w) + multiset{t}
  {
    var h := Home(t, now);
    SumUpdate(w, h, [t] + w[h], 768);
    assert multiset([t] + w[h]) == multiset{t} + multiset(w[h]);
    Cancel(Pending(Insert(w, now, t)), Pending(w), multiset{t}, multiset(w[h]));
  }

  lemma {:induction false} ReinsertPending(w: Wheels, now: nat, rest: seq<Timer>)
    requires Bounded(rest, now)
    ensures var o := Reinsert(w, now, rest);
            Pending(o.w) + multiset(o.fired) == Pending(w) + multiset(rest)
    decreases |rest|
  {
    if rest != [] {
      var first, tail := rest[0], rest[1..];
      assert rest == [first] + tail;
      if first.expires <= now {
        ReinsertPending(w, now, tail);
        var o := Reinsert(w, now, tail);
        AddOne(Pending(o.w), Pending(w), first, o.fired, tail);
      } else {
        InsertPending(w, now, first);
        ReinsertPending(Insert(w, now, first), now, tail);
        AddFirst(Pending(w), first, tail);
      }
    }
  }

  lemma AddFirst(p: multiset<Timer>, t: Timer, b: seq<Timer>)
    ensures p + multiset([t] + b) == (p + multiset{t}) + multiset(b)
  {
    assert multiset([t] + b) == multiset{t} + multiset(b);
  }

  lemma AddOne(p: multiset<Timer>, q: multiset<Timer>, t: Timer, a: seq<Timer>, b: seq<Timer>)
    requires p + multiset(a) == q + multiset(b)
    ensures p + multiset([t] + a) == q + multiset([t] + b)
  {
    AddFirst(p, t, a);
    AddFirst(q, t, b);
    Swap(p, multiset{t}, multiset(a));
    Swap(q, multiset{t}, multiset(b));
  }

  lemma CascadePending(w: Wheels, now: nat, b: nat)
    requires b < 768 && Bounded(w[b], now)
    ensures var o := Cascade(w, now, b); Pending(o.w) + multiset(o.fired) == Pending(w)
  {
    EmptyPending(w, b);
    ReinsertPending(w[b := []], now, w[b]);
  }

  lemma CollapsePending(w: Wheels, now: nat, pos: nat)
    requires AllBounded(w, now)
    ensures var o := Collapse(w, now, pos); Pending(o.w) + multiset(o.fired) == Pending(w)
  {
    var b := Bucket(1, Offset(pos, 1));
    CascadePending(w, now, b);
    ReinsertBounded(w[b := []], now, w[b]);
    if Offset(pos, 1) == 0 {
      CascadePending(Cascade(w, now, b).w, now, Bucket(2, Offset(pos, 2)));
    }
  }

  lemma SlotPending(w: Wheels, now: nat, pos: nat)
    requires AllBounded(w, now)
    ensures var o := Slot(w, now, pos); Pending(o.w) + multiset(o.fired) == Pending(w)
  {
    var off := Offset(pos, 0);
    if off == 0 {
      CollapsePending(w, now, pos);
    }
    EmptyPending(if off == 0 then Collapse(w, now, pos).w else w, off);
  }

  /** A pass loses no timer and runs none twice: what was pending has run or is pending still. */
  lemma {:induction false} PassConserves(w: Wheels, now: nat, pos: nat)
    requires AllBounded(w, now)
    ensures var o := Pass(w, now, pos); Pending(o.w) + multiset(o.fired) == Pending(w)
    decreases now + 16 - pos
  {
    if pos <= now {
      SlotPending(w, now, pos);
      PassConserves(Slot(w, now, pos).w, now, pos + 16);
    }
  }

  lemma {:induction false} PendingWhere(w: seq<seq<Timer>>, t: Timer, m: nat) returns (b: nat, i: nat)
    requires m <= |w| && t in Sum(w, m)
    ensures b < m && i < |w[b]| && w[b][i] == t
  {
    if t in multiset(w[m - 1]) {
      b := m - 1;
      i :| 0 <= i < |w[b]| && w[b][i] == t;
    } else {
      b, i := PendingWhere(w, t, m - 1);
    }
  }

  lemma {:induction false} WherePending(w: seq<seq<Timer>>, b: nat, i: nat, m: nat)
    requires b < m <= |w| && i < |w[b]|
    ensures w[b][i] in Sum(w, m)
  {
    if b < m - 1 { WherePending(w, b, i, m - 1); }
  }

  // ----- Which timers cannot be visited before their slot -----

  /** A timer's slot is less than one turn of its wheel away. */
  ghost predicate Exact(b: nat, t: Timer, n: Ahead)
    requires b < 768
  {
    Tick(b / 256, t) < n.At(b / 256) + 256
  }

  /** Timer `t`, wherever it is pending, is exact, and in the first `top` buckets. */
  ghost predicate Tracked(w: Wheels, t: Timer, n: Ahead, top: nat)
  {
    forall b, i :: 0 <= b < 768 && 0 <= i < |w[b]| && w[b][i] == t ==> b < top && Exact(b, t, n)
  }

  /** Timer `t` is pending on wheel 2. */
  ghost predicate Far(w: Wheels, t: Timer)
  {
    exists b :: 512 <= b < 768 && t in w[b]
  }

  /** The block of wheel 2 that starts at slot `s` is cascaded at time `now`, and `t` lands on wheel 0 with its
      slot a full turn ahead: the visit that comes first is the wrong one. */
  predicate TurnsEarly(t: Timer, now: nat, s: nat)
  {
    && s % 0x10000 == 0 && Tick(2, t) == s / 0x10000 && 16 * s <= now < t.expires
    && Due(t) < now + 4096 && 16 * (s + 256) <= Due(t)
  }

  /** The first slot of the block of wheel 2 that `t` is due in. */
  function BlockStart(t: Timer): nat
  {
    0x10000 * Tick(2, t)
  }

  /** A pass at `now` from slot `s` on meets that cascade. */
  predicate PassTurns(t: Timer, now: nat, s: nat)
  {
    s <= BlockStart(t) && TurnsEarly(t, now, BlockStart(t))
  }

  /** Between passes a new timer always is exact. */
  lemma InsertExact(t: Timer, now: nat, s: nat)
    requires Fits(t, now) && now <= 16 * s
    ensures Exact(Home(t, now), t, Standing(s))
  {
    LevelRange(t, now);
  }

  lemma InsertTracked(w: Wheels, now: nat, t: Timer, u: Timer, n: Ahead, top: nat)
    requires Fits(u, now) && Tracked(w, t, n, top)
    requires u == t ==> Home(t, now) < top && Exact(Home(t, now), t, n)
    ensures Tracked(Insert(w, now, u), t, n, top)
    ensures Far(Insert(w, now, u), t) ==> Far(w, t) || (u == t && 512 <= Home(t, now))
  {
    var h := Home(u, now);
    var w' := Insert(w, now, u);
    forall b, i | 0 <= b < 768 && 0 <= i < |w'[b]| && w'[b][i] == t
      ensures b < top && Exact(b, t, n)
    {
      if b == h && 0 < i { assert w[b][i - 1] == t; }
    }
    if Far(w', t) {
      var b :| 512 <= b < 768 && t in w'[b];
      assert t in w[b] || (b == h && u == t);
    }
  }

  /** Timer `t` goes from wheel 1 to wheel 0, in the block whose slots are about to be visited. */
  ghost predicate NextBlock(t: Timer, s: nat)
  {
    s % 256 == 0 && Tick(1, t) == s / 256
  }

  lemma CascadedExact(t: Timer, now: nat, s: nat)
    requires NextBlock(t, s) && 16 * s <= now < t.expires && Due(t) < now + MAX_DELAY
    ensures Home(t, now) < 256 && Exact(Home(t, now), t, Collapsed(s))
    ensures Exact(Home(t, now), t, Stepped(Standing(s), 1))
  {
    LevelRange(t, now);
  }

  /** A timer from the block of wheel 2 that starts at slot `s` stays exact, unless it turns early. */
  lemma CascadedFar(t: Timer, now: nat, s: nat)
    requires s % 0x10000 == 0 && Tick(2, t) == s / 0x10000 && 16 * s <= now < t.expires
    ensures Fits(t, now) && Home(t, now) < 512
    ensures Exact(Home(t, now), t, Collapsed(s)) <==> !TurnsEarly(t, now, s)
  {
    LevelRange(t, now);
  }

  lemma {:induction false} ReinsertTracked(w: Wheels, now: nat, rest: seq<Timer>, t: Timer, n: Ahead, top: nat)
    requires Bounded(rest, now) && Tracked(w, t, n, top) && 512 <= top
    requires t in rest && now < t.expires ==> Fits(t, now) && Home(t, now) < 512 && Exact(Home(t, now), t, n)
    ensures Tracked(Reinsert(w, now, rest).w, t, n, top)
    ensures Far(Reinsert(w, now, rest).w, t) ==> Far(w, t)
    ensures t in Reinsert(w, now, rest).fired ==> t.expires <= now
    decreases |rest|
  {
    if rest != [] {
      if rest[0].expires <= now {
        ReinsertTracked(w, now, rest[1..], t, n, top);
      } else {
        InsertTracked(w, now, t, rest[0], n, top);
        ReinsertTracked(Insert(w, now, rest[0]), now, rest[1..], t, n, top);
      }
    }
  }

  lemma EmptyTracked(w: Wheels, b: nat, t: Timer, n: Ahead, top: nat)
    requires Tracked(w, t, n, top) && b < 768
    ensures Tracked(w[b := []], t, Stepped(n, b / 256), top)
    ensures Far(w[b := []], t) ==> Far(w, t)
  {
    var w' := w[b := []];
    forall c, i | 0 <= c < 768 && 0 <= i < |w'[c]| && w'[c][i] == t
      ensures c < top && Exact(c, t, Stepped(n, b / 256))
    {
      assert w[c][i] == t;
    }
    if Far(w', t) {
      var c :| 512 <= c < 768 && t in w'[c];
      assert t in w[c];
    }
  }

  /** On wheel 1 or 2, an exact timer in the bucket of the next slot is due in that very block. */
  lemma TrackedNext(w: Wheels, b: nat, n: Ahead, t: Timer, top: nat)
    requires OnTime(w, n) && Tracked(w, t, n, top) && b < 768 && b % 256 == n.At(b / 256) % 256 && t in w[b]
    ensures Tick(b / 256, t) == n.At(b / 256) && b < top
  {
    var i :| 0 <= i < |w[b]| && w[b][i] == t;
    assert AllInPlace(w[b], b, n);
    assert InPlace(b, t, n) && Exact(b, t, n);
    SameResidue(Tick(b / 256, t), n.At(b / 256));
  }

  lemma SameResidue(x: nat, y: nat)
    requires x % 256 == y % 256 && y <= x < y + 256
    ensures x == y
  {
  }

  /** The cascade of wheel 1 at slot `s`. */
  lemma NearTracked(w: Wheels, now: nat, s: nat, t: Timer, top: nat)
    requires AllBounded(w, now) && OnTime(w, Standing(s)) && Tracked(w, t, Standing(s), top)
    requires 16 * s <= now && s % 256 == 0 && 512 <= top
    ensures var o := Cascade(w, now, Bucket(1, s / 256 % 256));
            && Tracked(o.w, t, Stepped(Standing(s), 1), top) && (Far(o.w, t) ==> Far(w, t))
            && (t in o.fired ==> t.expires <= now)
  {
    StandingSteps(s);
    var b := Bucket(1, s / 256 % 256);
    if t in w[b] {
      TrackedNext(w, b, Standing(s), t, top);
      if now < t.expires { CascadedExact(t, now, s); }
    }
    EmptyTracked(w, b, t, Standing(s), top);
    ReinsertTracked(w[b := []], now, w[b], t, Stepped(Standing(s), 1), top);
  }

  /** The cascade of wheel 2 at slot `s`, after that of wheel 1. */
  lemma FarTracked(w: Wheels, now: nat, s: nat, t: Timer, top: nat)
    requires AllBounded(w, now) && OnTime(w, Stepped(Standing(s), 1)) && Tracked(w, t, Stepped(Standing(s), 1), top)
    requires 16 * s <= now && s % 0x10000 == 0 && 512 <= top && (Far(w, t) ==> !TurnsEarly(t, now, s))
    ensures var o := Cascade(w, now, Bucket(2, s / 0x10000 % 256));
            && Tracked(o.w, t, Collapsed(s), top) && (Far(o.w, t) ==> Far(w, t)) && (t in o.fired ==> t.expires <= now)
  {
    LongBlockSteps(s);
    StandingSteps(s);
    var n, b := Stepped(Standing(s), 1), Bucket(2, s / 0x10000 % 256);
    if t in w[b] {
      TrackedNext(w, b, n, t, top);
      if now < t.expires { CascadedFar(t, now, s); }
    }
    EmptyTracked(w, b, t, n, top);
    ReinsertTracked(w[b := []], now, w[b], t, Collapsed(s), top);
  }

  lemma CollapseTracked(w: Wheels, now: nat, s: nat, t: Timer, top: nat)
    requires AllBounded(w, now) && OnTime(w, Standing(s)) && Tracked(w, t, Standing(s), top)
    requires 16 * s <= now && s % 256 == 0 && 512 <= top && (Far(w, t) ==> !TurnsEarly(t, now, s))
    ensures var o := Collapse(w, now, 16 * s);
            && Tracked(o.w, t, Collapsed(s), top) && (Far(o.w, t) ==> Far(w, t)) && (t in o.fired ==> t.expires <= now)
  {
    OffsetsOfSlot(s);
    LongBlockSteps(s);
    StandingSteps(s);
    RoomAtSlot(s, now);
    var off := s / 256 % 256;
    var b := Bucket(1, off);
    NearTracked(w, now, s, t, top);
    CascadeOnTime(w, now, b, Standing(s));
    ReinsertBounded(w[b := []], now, w[b]);
    if off == 0 {
      FarTracked(Cascade(w, now, b).w, now, s, t, top);
    }
  }

  lemma SlotTracked(w: Wheels, now: nat, s: nat, t: Timer, top: nat)
    requires AllBounded(w, now) && OnTime(w, Standing(s)) && Tracked(w, t, Standing(s), top)
    requires 16 * s <= now && 512 <= top && (Far(w, t) ==> !TurnsEarly(t, now, s))
    ensures var o := Slot(w, now, 16 * s);
            && Tracked(o.w, t, Standing(s + 1), top) && (Far(o.w, t) ==> Far(w, t))
                && (t in o.fired ==> t.expires <= now)
  {
    OffsetsOfSlot(s);
    StandingSteps(s);
    var c := if s % 256 == 0 then Collapse(w, now, 16 * s) else Outcome(w, []);
    if s % 256 == 0 {
      CollapseTracked(w, now, s, t, top);
      CollapseOnTime(w, now, s);
    }
    EmptyTracked(c.w, s % 256, t, Collapsed(s), top);
    RunAtSlot(c.w, s, t, top);
  }

  /** What wheel 0 runs at slot `s` is due in slot `s`, if exact. */
  lemma RunAtSlot(w: Wheels, s: nat, t: Timer, top: nat)
    requires OnTime(w, Collapsed(s)) && Tracked(w, t, Collapsed(s), top)
    ensures t in w[s % 256] ==> t.expires < 16 * s
  {
    if t in w[s % 256] {
      TrackedNext(w, s % 256, Collapsed(s), t, top);
    }
  }

  /** Every other cascade in the pass is harmless. */
  lemma OnlyOwnBlock(t: Timer, now: nat, s: nat)
    ensures TurnsEarly(t, now, s) ==> s == BlockStart(t)
    ensures PassTurns(t, now, s) <==> TurnsEarly(t, now, s) || PassTurns(t, now, s + 1)
  {
  }

  lemma {:induction false} PassTracked(w: Wheels, now: nat, s: nat, t: Timer, top: nat)
    requires AllBounded(w, now) && OnTime(w, Standing(s)) && Tracked(w, t, Standing(s), top)
    requires 512 <= top && (Far(w, t) ==> !PassTurns(t, now, s))
    ensures var o := Pass(w, now, 16 * s);
            Tracked(o.w, t, Standing(PassEnd(now, 16 * s) / 16), top) && (t in o.fired ==> t.expires <= now)
    decreases now + 16 - 16 * s
  {
    if 16 * s <= now {
      OnlyOwnBlock(t, now, s);
      SlotTracked(w, now, s, t, top);
      SlotOnTime(w, now, s);
      PassTracked(Slot(w, now, 16 * s).w, now, s + 1, t, top);
    }
  }
}
