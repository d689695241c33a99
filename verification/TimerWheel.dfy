/**
  server_code/shinjuku-rocksdb/dp/core/timer.c: the timer wheel of one core, with its bucket lists rewritten in
  place, and what holds over whole runs of adding timers and of timer_run passes. Handlers are modelled as
  the list of timers that ran; they add no timers.
 */
module TimerWheels {
  import opened WheelMath
  import opened WheelProofs
  import opened WheelEarly

  /** The wheel of a core as a value. */
  datatype Wheel = Wheel(now: nat, pos: nat, w: Wheels)

  /** What holds between passes: the clock is at most one slot behind `timer_pos`, and nothing is overdue. */
  ghost predicate Sound(s: Wheel)
  {
    && s.pos % 16 == 0 && s.now <= s.pos <= s.now + 16
    && AllBounded(s.w, s.now)
    && OnTime(s.w, Standing(s.pos / 16))
  }

  function Added(s: Wheel, t: Timer): Wheel
    requires Fits(t, s.now)
  {
    s.(w := Insert(s.w, s.now, t))
  }

  lemma StillBounded(w: Wheels, now: nat, clock: nat)
    requires AllBounded(w, now) && now <= clock
    ensures AllBounded(w, clock)
  {
    forall b | 0 <= b < 768
      ensures Bounded(w[b], clock)
    {
      assert Bounded(w[b], now);
    }
  }

  /** timer_run at time `clock`. */
  ghost function Ran(s: Wheel, clock: nat): (Wheel, seq<Timer>)
    requires AllBounded(s.w, s.now) && s.now <= clock
  {
    StillBounded(s.w, s.now, clock);
    var o := Pass(s.w, clock, s.pos);
    (Wheel(clock, PassEnd(clock, s.pos), o.w), o.fired)
  }

  lemma AddedSound(s: Wheel, t: Timer)
    requires Sound(s) && Fits(t, s.now)
    ensures Sound(Added(s, t))
  {
    InsertOnTime(s.w, s.now, t, Standing(s.pos / 16));
    var h := Home(t, s.now);
    forall b | 0 <= b < 768
      ensures Bounded(Added(s, t).w[b], s.now)
    {
      assert Bounded(s.w[b], s.now);
    }
  }

  lemma RanSound(s: Wheel, clock: nat)
    requires Sound(s) && s.now <= clock
    ensures Sound(Ran(s, clock).0)
  {
    StillBounded(s.w, s.now, clock);
    PassOnTime(s.w, clock, s.pos / 16);
    PassEndSoon(clock, s.pos);
  }

  lemma {:induction false} PassEndSoon(now: nat, pos: nat)
    requires pos <= now + 16
    ensures now < PassEnd(now, pos) <= now + 16
    decreases now + 16 - pos
  {
    if pos <= now { PassEndSoon(now, pos + 16); }
  }

  lemma PendingDue(w: Wheels, s: nat, t: Timer)
    requires OnTime(w, Standing(s)) && t in Pending(w)
    ensures 16 * s <= Due(t)
  {
    var b, i := PendingWhere(w, t, 768);
    assert AllInPlace(w[b], b, Standing(s));
    InPlaceDue(b, t, s);
  }

  /** After a pass no pending timer has its 16 us slot at or before the time of the pass. */
  lemma NothingOverdue(s: Wheel, clock: nat, t: Timer)
    requires Sound(s) && s.now <= clock && t in Pending(Ran(s, clock).0.w)
    ensures clock / 16 < (t.expires + 16) / 16
  {
    RanSound(s, clock);
    PassEndSoon(clock, s.pos);
    var r := Ran(s, clock).0;
    PendingDue(r.w, r.pos / 16, t);
  }

  // ----- Whole runs -----

  /** A new timer (by any of the timer_add variants), or a pass at some time. */
  datatype Event = Add(t: Timer) | Run(clock: nat)

  /** A handler that ran, and the time of its pass. */
  datatype Firing = Firing(t: Timer, at: nat)

  function Stamp(ts: seq<Timer>, at: nat): (fs: seq<Firing>)
    ensures |fs| == |ts| && forall i :: 0 <= i < |ts| ==> fs[i] == Firing(ts[i], at)
  {
    seq(|ts|, i requires 0 <= i < |ts| => Firing(ts[i], at))
  }

  /** The clock is monotone, and new timers fit. */
  ghost predicate Possible(s: Wheel, e: Event)
  {
    match e
    case Add(t) => Fits(t, s.now)
    case Run(clock) => s.now <= clock
  }

  ghost function After(s: Wheel, e: Event): Wheel
    requires Sound(s) && Possible(s, e)
  {
    match e
    case Add(t) => Added(s, t)
    case Run(clock) => Ran(s, clock).0
  }

  ghost function Fired(s: Wheel, e: Event): seq<Firing>
    requires Sound(s) && Possible(s, e)
  {
    match e
    case Add(_) => []
    case Run(clock) => Stamp(Ran(s, clock).1, clock)
  }

  lemma AfterSound(s: Wheel, e: Event)
    requires Sound(s) && Possible(s, e)
    ensures Sound(After(s, e))
  {
    match e
    case Add(t) => AddedSound(s, t);
    case Run(clock) => RanSound(s, clock);
  }

  /** `t` with history `log` is reached from `s` by the events. */
  ghost predicate Runs(s: Wheel, es: seq<Event>, log: seq<Firing>, t: Wheel)
    requires Sound(s)
    decreases |es|
  {
    if es == [] then s == t && log == []
    else
      Possible(s, es[0]) &&
      var m := |Fired(s, es[0])|;
      m <= |log| && log[..m] == Fired(s, es[0]) &&
      (AfterSound(s, es[0]); Runs(After(s, es[0]), es[1..], log[m..], t))
  }

  /** How often a timer's handler ran. */
  function Times(log: seq<Firing>, t: Timer): nat
  {
    if log == [] then 0 else Times(log[1..], t) + if log[0].t == t then 1 else 0
  }

  lemma {:induction false} TimesAppend(a: seq<Firing>, b: seq<Firing>, t: Timer)
    ensures Times(a + b, t) == Times(a, t) + Times(b, t)
  {
    if a == [] {
      assert a + b == b;
    } else {
      assert (a + b)[1..] == a[1..] + b;
      TimesAppend(a[1..], b, t);
    }
  }

  lemma {:induction false} TimesStamp(ts: seq<Timer>, at: nat, t: Timer)
    ensures Times(Stamp(ts, at), t) == multiset(ts)[t]
  {
    if ts != [] {
      assert ts == [ts[0]] + ts[1..];
      assert Stamp(ts, at)[1..] == Stamp(ts[1..], at);
      TimesStamp(ts[1..], at, t);
    }
  }

  function Adds(es: seq<Event>, t: Timer): nat
  {
    if es == [] then 0 else Adds(es[1..], t) + if es[0] == Add(t) then 1 else 0
  }

  lemma StepConserves(s: Wheel, e: Event, t: Timer)
    requires Sound(s) && Possible(s, e)
    ensures Pending(After(s, e).w)[t] + Times(Fired(s, e), t) ==
            Pending(s.w)[t] + if e == Add(t) then 1 else 0
  {
    match e
    case Add(u) => InsertPending(s.w, s.now, u);
    case Run(clock) =>
      StillBounded(s.w, s.now, clock);
      PassConserves(s.w, clock, s.pos);
      TimesStamp(Ran(s, clock).1, clock, t);
      assert (Pending(After(s, e).w) + multiset(Ran(s, clock).1))[t] == Pending(s.w)[t];
  }

  /** Over any run, for delays up to 2^28 us: how often a timer ran plus how often it is pending is how often
      it was added. Added once, it runs at most once and otherwise is in exactly one bucket. */
  lemma {:induction false} NeverLostOrRepeated(s: Wheel, es: seq<Event>, log: seq<Firing>, r: Wheel, t: Timer)
    requires Sound(s) && Runs(s, es, log, r)
    ensures Sound(r)
    ensures Pending(r.w)[t] + Times(log, t) == Pending(s.w)[t] + Adds(es, t)
    decreases |es|
  {
    if es != [] {
      var e := es[0];
      var m := |Fired(s, e)|;
      AfterSound(s, e);
      StepConserves(s, e, t);
      NeverLostOrRepeated(After(s, e), es[1..], log[m..], r, t);
      assert log == log[..m] + log[m..];
      TimesAppend(log[..m], log[m..], t);
    }
  }

  /** Wherever `t` is pending, its slot is less than a turn away, and it is in the first `top` buckets. */
  ghost predicate Follows(s: Wheel, t: Timer, top: nat)
  {
    Tracked(s.w, t, Standing(s.pos / 16), top)
  }

  /** No handler of `t` ran before its time, in some stretch of history. */
  ghost predicate NotEarly(log: seq<Firing>, t: Timer)
  {
    forall i :: 0 <= i < |log| && log[i].t == t ==> t.expires <= log[i].at
  }

  /** The event is a pass that turns `t` early: it cascades from wheel 2 the block that `t` is due in, before `t`
      expires, and the slot of `t` on wheel 0 is a full turn or more behind the start of that block. */
  ghost predicate Turned(s: Wheel, e: Event, t: Timer)
  {
    e.Run? && Far(s.w, t) && PassTurns(t, e.clock, s.pos / 16)
  }

  lemma StepFollows(s: Wheel, e: Event, t: Timer, top: nat)
    requires Sound(s) && Possible(s, e) && Follows(s, t, top) && 512 <= top
    requires e == Add(t) ==> top == 768 || Due(t) < s.now + 0x10_0000
    requires top == 512 || !Turned(s, e, t)
    ensures Follows(After(s, e), t, top) && NotEarly(Fired(s, e), t)
  {
    match e
    case Add(u) =>
      if u == t {
        LevelRange(t, s.now);
        InsertExact(t, s.now, s.pos / 16);
      }
      InsertTracked(s.w, s.now, t, u, Standing(s.pos / 16), top);
    case Run(clock) =>
      StillBounded(s.w, s.now, clock);
      NearIsNotFar(s, t, top);
      PassTracked(s.w, clock, s.pos / 16, t, top);
  }

  lemma NearIsNotFar(s: Wheel, t: Timer, top: nat)
    requires Follows(s, t, top)
    ensures top == 512 ==> !Far(s.w, t)
  {
    forall b | 512 <= b < 768 && top == 512
      ensures t !in s.w[b]
    {
      forall i | 0 <= i < |s.w[b]|
        ensures s.w[b][i] != t
      {
      }
    }
  }

  lemma TurnedIsEarly(s: Wheel, e: Event, t: Timer)
    requires Sound(s) && Possible(s, e) && Follows(s, t, 768) && Turned(s, e, t)
    ensures !NotEarly(Fired(s, e), t)
  {
    StillBounded(s.w, s.now, e.clock);
    PassEarlyExactly(s.w, e.clock, s.pos / 16, t);
    var ts := Ran(s, e.clock).1;
    var i :| 0 <= i < |ts| && ts[i] == t;
    assert Fired(s, e)[i] == Firing(t, e.clock);
  }

  /** A pass runs `t` early exactly when it turns it. */
  lemma TurnedExactly(s: Wheel, e: Event, t: Timer)
    requires Sound(s) && Possible(s, e) && Follows(s, t, 768)
    ensures NotEarly(Fired(s, e), t) <==> !Turned(s, e, t)
  {
    if Turned(s, e, t) {
      TurnedIsEarly(s, e, t);
    } else {
      StepFollows(s, e, t, 768);
    }
  }

  /** Every time `t` is added along the run, it is less than 2^20 us ahead. */
  ghost predicate AddedNear(s: Wheel, es: seq<Event>, t: Timer)
    requires Sound(s)
    decreases |es|
  {
    es == [] ||
    (Possible(s, es[0]) ==>
       (es[0] == Add(t) ==> t.expires + 16 < s.now + 0x10_0000) &&
       (AfterSound(s, es[0]); AddedNear(After(s, es[0]), es[1..], t)))
  }

  /** The firing window, over whole runs and however late the passes come: a timer that is not yet pending and
      is added less than 2^20 us ahead never runs before it expires, through the cascade from wheel 1. */
  lemma {:induction false} NeverEarly(s: Wheel, es: seq<Event>, log: seq<Firing>, r: Wheel, t: Timer)
    requires Sound(s) && Runs(s, es, log, r) && Follows(s, t, 512) && AddedNear(s, es, t)
    ensures NotEarly(log, t)
    decreases |es|
  {
    if es != [] {
      var e := es[0];
      var m := |Fired(s, e)|;
      AfterSound(s, e);
      StepFollows(s, e, t, 512);
      NeverEarly(After(s, e), es[1..], log[m..], r, t);
      NotEarlyParts(log, m, t);
    }
  }

  lemma NotEarlyParts(log: seq<Firing>, m: nat, t: Timer)
    requires m <= |log|
    ensures NotEarly(log, t) <==> NotEarly(log[..m], t) && NotEarly(log[m..], t)
  {
    if NotEarly(log[..m], t) && NotEarly(log[m..], t) {
      forall i | 0 <= i < |log| && log[i].t == t
        ensures t.expires <= log[i].at
      {
        if i < m {
          assert log[i] == log[..m][i];
        } else {
          assert log[i] == log[m..][i - m];
        }
      }
    }
  }

  /** No pass of the run turns `t` early. */
  ghost predicate NeverTurned(s: Wheel, es: seq<Event>, t: Timer)
    requires Sound(s)
    decreases |es|
  {
    es == [] ||
    (Possible(s, es[0]) ==> !Turned(s, es[0], t) && (AfterSound(s, es[0]); NeverTurned(After(s, es[0]), es[1..], t)))
  }

  /** Delays up to 2^28 us: over any run, `t` never runs before it expires if and only if no pass turns it. */
  lemma {:induction false} NeverEarlyExactly(s: Wheel, es: seq<Event>, log: seq<Firing>, r: Wheel, t: Timer)
    requires Sound(s) && Runs(s, es, log, r) && Follows(s, t, 768)
    ensures NotEarly(log, t) <==> NeverTurned(s, es, t)
    decreases |es|
  {
    if es != [] {
      var e := es[0];
      var m := |Fired(s, e)|;
      AfterSound(s, e);
      TurnedExactly(s, e, t);
      NotEarlyParts(log, m, t);
      if !Turned(s, e, t) {
        StepFollows(s, e, t, 768);
        NeverEarlyExactly(After(s, e), es[1..], log[m..], r, t);
      }
    }
  }

  lemma NotPendingFollows(s: Wheel, t: Timer, top: nat)
    requires t !in Pending(s.w)
    ensures Follows(s, t, top)
  {
    forall b, i | 0 <= b < 768 && 0 <= i < |s.w[b]| && s.w[b][i] == t
      ensures false
    {
      WherePending(s.w, b, i, 768);
    }
  }

  /** The other end of the window: a timer added once has run, once, by the end of any run whose last pass
      came at `expires + 16` or later. */
  lemma HasRunByDue(s: Wheel, es: seq<Event>, log: seq<Firing>, r: Wheel, t: Timer, clock: nat)
    requires Sound(s) && t !in Pending(s.w) && Adds(es, t) == 1
    requires Runs(s, es, log, r) && r.now <= clock && t.expires + 16 <= clock
    ensures Sound(r) && t !in Pending(Ran(r, clock).0.w)
    ensures Times(log + Stamp(Ran(r, clock).1, clock), t) == 1
  {
    NeverLostOrRepeated(s, es, log, r, t);
    StepConserves(r, Run(clock), t);
    if t in Pending(Ran(r, clock).0.w) {
      NothingOverdue(r, clock, t);
    }
    TimesAppend(log, Stamp(Ran(r, clock).1, clock), t);
  }

  // ----- Where the promise stops -----

  /** The wheels of a core after timer_init_cpu: the position is the clock, aligned or not. */
  function Started(clock: nat): Wheel
  {
    Wheel(clock, clock, seq(768, _ => []))
  }

  lemma StartedSound(clock: nat)
    requires clock % 16 == 0
    ensures Sound(Started(clock)) && forall t: Timer :: t !in Pending(Started(clock).w)
  {
    forall t: Timer
      ensures t !in Pending(Started(clock).w)
    {
      if t in Pending(Started(clock).w) {
        var b, i := PendingWhere(Started(clock).w, t, 768);
      }
    }
  }

  /** A timer added right after start-up, and a first pass with no time gone by. */
  ghost predicate FiresAtOnce(clock: nat, t: Timer)
    requires Fits(t, clock)
  {
    var s := Added(Started(clock), t);
    AllBounded(s.w, clock) && t in Ran(s, clock).1
  }

  /** 4079 us is the delay whose slot, off the 16 us grid, shares its bucket with the current slot. */
  lemma SharesBucket(clock: nat)
    requires clock % 16 != 0
    ensures var t := Timer(0, clock + 4079); Fits(t, clock) && Home(t, clock) == Offset(clock, 0)
  {
    LevelRange(Timer(0, clock + 4079), clock);
    AddTurn(clock);
  }

  lemma AddTurn(c: nat)
    requires c % 16 != 0
    ensures (c + 4095) / 16 % 256 == c / 16 % 256
  {
    var q, m := c / 16, c % 16;
    assert c + 4095 == 16 * (q + 256) + (m - 1);
    assert (c + 4095) / 16 == q + 256;
  }

  lemma UnalignedFiresAtOnce(clock: nat)
    requires clock % 16 != 0
    ensures var t := Timer(0, clock + 4079); Fits(t, clock) && FiresAtOnce(clock, t)
  {
    var t := Timer(0, clock + 4079);
    SharesBucket(clock);
    var s := Added(Started(clock), t);
    var off := Offset(clock, 0);
    assert s.w[off] == [t];
    assert AllBounded(s.w, clock);
    if off == 0 {
      EmptyCascade(s.w, clock, Bucket(1, Offset(clock, 1)));
      if Offset(clock, 1) == 0 {
        EmptyCascade(s.w, clock, Bucket(2, Offset(clock, 2)));
      }
      assert Collapse(s.w, clock, clock).w == s.w;
    }
    assert t in Slot(s.w, clock, clock).fired;
  }

  /** timer_init_cpu does not align `timer_pos`. Right after it no timer can run before its time exactly when
      the clock happened to be on the 16 us grid. */
  lemma StartAlignedExactly(clock: nat)
    ensures (forall t: Timer | Fits(t, clock) && clock < t.expires && Due(t) < clock + 4096 :: !FiresAtOnce(clock, t))
            <==> clock % 16 == 0
  {
    if clock % 16 != 0 {
      UnalignedFiresAtOnce(clock);
    } else {
      forall t: Timer | Fits(t, clock) && clock < t.expires && Due(t) < clock + 4096
        ensures !FiresAtOnce(clock, t)
      {
        var s0, s := Started(clock), Added(Started(clock), t);
        StartedSound(clock);
        NotPendingFollows(s0, t, 512);
        StepFollows(s0, Add(t), t, 512);
        AddedSound(s0, t);
        StepFollows(s, Run(clock), t, 512);
        var ts := Ran(s, clock).1;
        assert forall i :: 0 <= i < |ts| ==> Fired(s, Run(clock))[i] == Firing(ts[i], clock);
      }
    }
  }

  lemma EmptyCascade(w: Wheels, now: nat, b: nat)
    requires b < 768 && w[b] == []
    ensures Cascade(w, now, b) == Outcome(w, [])
  {
    assert w[b := []] == w;
  }

  /** Wheels with `t` alone, in bucket `b`. */
  function Single(b: nat, t: Timer): Wheels
    requires b < 768
  {
    Started(0).w[b := [t]]
  }

  /** A pass that does not come to the timer's block changes nothing. */
  lemma QuietSlot(now: nat, s: nat, t: Timer)
    requires AllBounded(Single(512 + Tick(2, t) % 256, t), now)
    requires s % 0x10000 == 0 ==> s / 0x10000 % 256 != Tick(2, t) % 256
    ensures Slot(Single(512 + Tick(2, t) % 256, t), now, 16 * s) == Outcome(Single(512 + Tick(2, t) % 256, t), [])
  {
    OffsetsOfSlot(s);
    LongBlockSteps(s);
    var w := Single(512 + Tick(2, t) % 256, t);
    if s % 256 == 0 {
      EmptyCascade(w, now, Bucket(1, s / 256 % 256));
      if s % 0x10000 == 0 { EmptyCascade(w, now, Bucket(2, s / 0x10000 % 256)); }
    }
    assert w[s % 256 := []] == w;
  }

  lemma {:induction false} QuietPass(now: nat, s: nat, t: Timer)
    requires AllBounded(Single(512 + Tick(2, t) % 256, t), now)
    requires now < 16 * BlockStart(t) && Tick(2, t) < Standing(s).n2 + 256
    ensures Pass(Single(512 + Tick(2, t) % 256, t), now, 16 * s) == Outcome(Single(512 + Tick(2, t) % 256, t), [])
    decreases now + 16 - 16 * s
  {
    if 16 * s <= now {
      OtherBlock(t, s);
      QuietSlot(now, s, t);
      QuietPass(now, s + 1, t);
    }
  }

  /** A core that starts up at the beginning of a block of wheel 2, adds a timer for 4080 us into the next, passes
      at the last microsecond of the first and at the second of the next. */
  function EarlyRun(k: nat): (seq<Event>, Timer)
  {
    var t := Timer(0, 0x10_0000 * (k + 1) + 4080);
    ([Add(t), Run(0x10_0000 * (k + 1) - 1), Run(0x10_0000 * (k + 1) + 1)], t)
  }

  /** Block `k` of wheel 2 starts at slot 2^16 * k, at 2^20 * k us; `t` is due 4096 us into it. */
  lemma EarlyTimer(t: Timer, k: nat)
    requires Due(t) == 0x10_0000 * k + 4096
    ensures Tick(2, t) == k && BlockStart(t) == 0x10000 * k
    ensures TurnsEarly(t, 0x10_0000 * k + 1, 0x10000 * k)
    ensures k > 0 ==> !TurnsEarly(t, 0x10_0000 * k - 1, 0x10000 * k)
  {
  }

  lemma EarlyHome(t: Timer, k: nat)
    requires Due(t) == 0x10_0000 * (k + 1) + 4096
    ensures Fits(t, 0x10_0000 * k) && Home(t, 0x10_0000 * k) == 512 + (k + 1) % 256
    ensures Standing(0x10_0000 * k / 16).n2 == k && 0x10_0000 * k / 16 == 0x10000 * k
  {
    LevelRange(t, 0x10_0000 * k);
    EarlyTimer(t, k + 1);
  }

  lemma InsertSingle(clock: nat, t: Timer)
    requires Fits(t, clock)
    ensures Insert(Started(clock).w, clock, t) == Single(Home(t, clock), t)
  {
    assert [t] + [] == [t];
  }

  lemma SingleBounded(b: nat, t: Timer, now: nat)
    requires b < 768 && Due(t) < now + MAX_DELAY
    ensures AllBounded(Single(b, t), now)
  {
  }

  lemma Placed(t: Timer, clock: nat, last: nat)
    requires Fits(t, clock) && Home(t, clock) == Bucket(2, Tick(2, t) % 256) && clock <= last
    ensures var w := Single(512 + Tick(2, t) % 256, t);
            Insert(Started(clock).w, clock, t) == w && AllBounded(w, clock) && AllBounded(w, last)
  {
    InsertSingle(clock, t);
    SingleBounded(512 + Tick(2, t) % 256, t, clock);
    StillBounded(Single(512 + Tick(2, t) % 256, t), clock, last);
  }

  /** A timer that goes to wheel 2 waits there as long as its block has not begun. */
  lemma Waits(t: Timer, s: nat, clock: nat, last: nat)
    requires Fits(t, clock) && Home(t, clock) == Bucket(2, Tick(2, t) % 256) && clock == 16 * s
    requires clock <= last < 16 * BlockStart(t) && Tick(2, t) < Standing(s).n2 + 256
    ensures var w := Single(512 + Tick(2, t) % 256, t);
            Insert(Started(clock).w, clock, t) == w && AllBounded(w, clock) && AllBounded(w, last)
            && Pass(w, last, clock) == Outcome(w, [])
  {
    Placed(t, clock, last);
    QuietPass(last, s, t);
  }

  lemma EarlyWait(t: Timer, k: nat, clock: nat, last: nat)
    requires clock == 0x10_0000 * k && last == 0x10_0000 * (k + 1) - 1
    requires Due(t) == 0x10_0000 * (k + 1) + 4096
    ensures Tick(2, t) == k + 1 && Fits(t, clock)
    ensures var w := Single(512 + Tick(2, t) % 256, t);
            Insert(Started(clock).w, clock, t) == w && AllBounded(w, clock) && AllBounded(w, last)
            && Pass(w, last, clock) == Outcome(w, [])
  {
    EarlyHome(t, k);
    EarlyTimer(t, k + 1);
    Waits(t, 0x10000 * k, clock, last);
  }

  lemma EarlyState(k: nat)
    ensures var t, s := EarlyRun(k).1, Started(0x10_0000 * k);
            var far, end := Single(512 + (k + 1) % 256, t), 0x10_0000 * (k + 1);
            && Fits(t, s.now) && Added(s, t) == Wheel(s.now, s.pos, far) && AllBounded(far, s.now)
            && Ran(Wheel(s.now, s.pos, far), end - 1) == (Wheel(end - 1, end, far), [])
  {
    EarlyWait(EarlyRun(k).1, k, 0x10_0000 * k, 0x10_0000 * (k + 1) - 1);
    PassEndIs(0x10_0000 * (k + 1) - 1, 0x10_0000 * k, 0x10000);
  }

  lemma {:induction false} PassEndIs(now: nat, pos: nat, n: nat)
    requires pos + 16 * n == now + 1 && 0 < n
    ensures PassEnd(now, pos) == now + 1
    decreases n
  {
    if 1 < n { PassEndIs(now, pos + 16, n - 1); }
  }

  /** The state before the late pass. */
  function Waiting(k: nat): Wheel
  {
    var end := 0x10_0000 * (k + 1);
    Wheel(end - 1, end, Single(512 + (k + 1) % 256, EarlyRun(k).1))
  }

  lemma EarlyReached(k: nat)
    ensures var s := Started(0x10_0000 * k);
            var (es, t) := EarlyRun(k);
            && Sound(s) && t !in Pending(s.w) && Possible(s, es[0]) && Fired(s, es[0]) == [] && Sound(After(s, es[0]))
            && Possible(After(s, es[0]), es[1]) && Fired(After(s, es[0]), es[1]) == []
            && After(After(s, es[0]), es[1]) == Waiting(k) && Sound(Waiting(k)) && Possible(Waiting(k), es[2])
  {
    var s := Started(0x10_0000 * k);
    var (es, t) := EarlyRun(k);
    StartedSound(0x10_0000 * k);
    EarlyState(k);
    AfterSound(s, es[0]);
    AfterSound(After(s, es[0]), es[1]);
  }

  /** Waiting on wheel 2 the timer is exact, and the pass a microsecond after the start of its block turns it. */
  lemma EarlyTurned(k: nat)
    ensures var t, e := EarlyRun(k).1, EarlyRun(k).0[2];
            Follows(Waiting(k), t, 768) && Turned(Waiting(k), e, t)
  {
    var t, s := EarlyRun(k).1, Waiting(k);
    EarlyTimer(t, k + 1);
    EarlyHome(t, k);
    assert s.w[512 + (k + 1) % 256] == [t];
    assert Standing(s.pos / 16).n2 == k + 1;
  }

  /** A run from start-up, on the grid, with a second pass that is one microsecond late: the timer runs 4079 us
      before it expires. */
  lemma Wheel2CanBeEarly(k: nat)
    ensures var s := Started(0x10_0000 * k);
            var (es, t) := EarlyRun(k);
            && Sound(s) && t !in Pending(s.w) && exists log, r :: Runs(s, es, log, r) && !NotEarly(log, t)
  {
    var es := EarlyRun(k).0;
    EarlyReached(k);
    EarlyTurned(k);
    TurnedExactly(Waiting(k), es[2], EarlyRun(k).1);
    RunOfThree(Started(0x10_0000 * k), es, Fired(Waiting(k), es[2]), After(Waiting(k), es[2]));
  }

  lemma RunOfThree(s: Wheel, es: seq<Event>, log: seq<Firing>, r: Wheel)
    requires Sound(s) && |es| == 3 && Possible(s, es[0]) && Sound(After(s, es[0])) && Possible(After(s, es[0]), es[1])
    requires var s2 := After(After(s, es[0]), es[1]);
             Sound(s2) && Possible(s2, es[2]) && r == After(s2, es[2]) && log == Fired(s2, es[2])
    requires Fired(s, es[0]) == [] && Fired(After(s, es[0]), es[1]) == []
    ensures Runs(s, es, log, r)
  {
    var s1 := After(s, es[0]);
    var s2 := After(s1, es[1]);
    AfterSound(s2, es[2]);
    assert es[1..][1..] == [es[2]] && es[1..][0] == es[1] && [es[2]][1..] == [];
    assert log[0..] == log && log[|log|..] == [] && log[..0] == [] && log[..|log|] == log;
    assert Runs(s2, [es[2]], log, r);
    assert Runs(s1, es[1..], log, r);
  }

  /** timer_add accepts any delay below 2^28 us, measured from the real clock, but the bucket is chosen from
      the cached one: the wheel index is in range exactly when the delay counted from there is. */
  lemma AddInRange(now: nat, clock: nat, usecs: nat)
    requires now <= clock && 0 < usecs < MAX_DELAY
    ensures Index(clock + usecs + MIN_DELAY - now) < 3 <==> Fits(Timer(0, clock + usecs), now)
  {
    IndexRange(clock + usecs + MIN_DELAY - now);
  }

  // ----- The wheel itself -----

  class TimerWheel {
    var nowUs: nat
    var timerPos: nat
    var wheels: array<seq<Timer>>

    ghost predicate Valid()
      reads this, wheels
    {
      wheels.Length == 768 && Sound(State())
    }

    ghost function State(): Wheel
      reads this, wheels
      requires wheels.Length == 768
    {
      Wheel(nowUs, timerPos, wheels[..])
    }

    /** timer_init_cpu */
    constructor Init(clock: nat)
      ensures wheels.Length == 768 && State() == Started(clock) && fresh(wheels)
      ensures clock % 16 == 0 ==> Valid()
    {
      wheels := new seq<Timer>[768](_ => []);
      nowUs := clock;
      timerPos := clock;
      new;
      assert wheels[..] == Started(clock).w;
      if clock % 16 == 0 { StartedSound(clock); }
    }

    /** timer_insert */
    method Insert(t: Timer)
      requires wheels.Length == 768 && Fits(t, nowUs)
      modifies wheels
      ensures State() == Added(old(State()), t)
    {
      var expireUs := t.expires + MIN_DELAY;
      var delayUs := expireUs - nowUs;
      IndexRange(delayUs);
      var index := Index(delayUs);
      var offset := Offset(expireUs, index);
      var b := Bucket(index, offset);
      wheels[b] := [t] + wheels[b];
    }

    /** __timer_add: the expiry is taken from the clock, not from the cached time. */
    method Add(id: nat, clock: nat, usecs: nat) returns (t: Timer)
      requires Valid() && nowUs <= clock && 0 < usecs < MAX_DELAY && Fits(Timer(id, clock + usecs), nowUs)
      modifies wheels
      ensures t == Timer(id, clock + usecs)
      ensures Valid() && State() == After(old(State()), Event.Add(t))
    {
      t := Timer(id, clock + usecs);
      AddedSound(State(), t);
      Insert(t);
    }

    /** timer_add_for_next_tick */
    method AddForNextTick(id: nat) returns (t: Timer)
      requires Valid()
      modifies wheels
      ensures t == Timer(id, nowUs + MIN_DELAY)
      ensures Valid() && State() == After(old(State()), Event.Add(t))
    {
      t := Timer(id, nowUs + MIN_DELAY);
      AddedSound(State(), t);
      Insert(t);
    }

    /** timer_run_bucket: each timer is unlinked and its handler called, then the head is cleared. */
    method RunBucket(off: nat) returns (fired: seq<Timer>)
      requires wheels.Length == 768 && off < SIZE
      modifies wheels
      ensures wheels[..] == WheelMath.RunBucket(old(wheels[..]), off).w
      ensures fired == WheelMath.RunBucket(old(wheels[..]), off).fired
    {
      ghost var was := wheels[off];
      ghost var w := wheels[..];
      fired := [];
      while wheels[off] != []
        invariant fired + wheels[off] == was
        invariant wheels[..] == w[off := wheels[off]]
        decreases |wheels[off]|
      {
        var t := wheels[off][0];
        wheels[off] := wheels[off][1..];
        fired := fired + [t];
      }
      wheels[off] := [];
    }

    /** timer_reinsert_bucket */
    method ReinsertBucket(b: nat) returns (fired: seq<Timer>)
      requires wheels.Length == 768 && b < 768 && Bounded(wheels[b], nowUs)
      modifies wheels
      ensures wheels[..] == Cascade(old(wheels[..]), nowUs, b).w
      ensures fired == Cascade(old(wheels[..]), nowUs, b).fired
    {
      ghost var o := Cascade(wheels[..], nowUs, b);
      var rest := wheels[b];
      wheels[b] := [];
      fired := [];
      while rest != []
        invariant Bounded(rest, nowUs)
        invariant o == Outcome(Reinsert(wheels[..], nowUs, rest).w, fired + Reinsert(wheels[..], nowUs, rest).fired)
        decreases |rest|
      {
        var t := rest[0];
        rest := rest[1..];
        if t.expires <= nowUs {
          fired := fired + [t];
        } else {
          Insert(t);
        }
      }
    }

    /** timer_collapse */
    method Collapse(pos: nat) returns (fired: seq<Timer>)
      requires wheels.Length == 768 && AllBounded(wheels[..], nowUs)
      modifies wheels
      ensures wheels[..] == WheelMath.Collapse(old(wheels[..]), nowUs, pos).w
      ensures fired == WheelMath.Collapse(old(wheels[..]), nowUs, pos).fired
    {
      ghost var w := wheels[..];
      var off := Offset(pos, 1);
      var b := Bucket(1, off);
      assert Bounded(w[b], nowUs);
      fired := ReinsertBucket(b);
      ReinsertBounded(w[b := []], nowUs, w[b]);
      if off == 0 {
        var b2 := Bucket(2, Offset(pos, 2));
        assert Bounded(wheels[..][b2], nowUs);
        var more := ReinsertBucket(b2);
        fired := fired + more;
      }
    }

    /** timer_run; the result is the timers whose handlers ran, in order. */
    method Run(clock: nat) returns (fired: seq<Timer>)
      requires Valid() && nowUs <= clock
      modifies this`nowUs, this`timerPos, wheels
      ensures Valid()
      ensures (State(), fired) == Ran(old(State()), clock)
    {
      RanSound(State(), clock);
      StillBounded(wheels[..], nowUs, clock);
      nowUs := clock;
      fired := RunSlots();
    }

    method RunSlots() returns (fired: seq<Timer>)
      requires wheels.Length == 768 && AllBounded(wheels[..], nowUs)
      modifies this`timerPos, wheels
      ensures wheels[..] == Pass(old(wheels[..]), nowUs, old(timerPos)).w
      ensures fired == Pass(old(wheels[..]), nowUs, old(timerPos)).fired
      ensures timerPos == PassEnd(nowUs, old(timerPos))
    {
      ghost var o := Pass(wheels[..], nowUs, timerPos);
      var pos := timerPos;
      fired := [];
      while pos <= nowUs
        invariant AllBounded(wheels[..], nowUs)
        invariant o.w == Pass(wheels[..], nowUs, pos).w && o.fired == fired + Pass(wheels[..], nowUs, pos).fired
        invariant PassEnd(nowUs, pos) == PassEnd(nowUs, timerPos) && timerPos == old(timerPos)
        decreases nowUs + 16 - pos
      {
        ghost var rest := Pass(Slot(wheels[..], nowUs, pos).w, nowUs, pos + MIN_DELAY).fired;
        var more := RunSlot(pos);
        assert fired + (more + rest) == (fired + more) + rest;
        fired := fired + more;
        pos := pos + MIN_DELAY;
      }
      timerPos := pos;
    }

    /** The body of timer_run's loop. */
    method RunSlot(pos: nat) returns (fired: seq<Timer>)
      requires wheels.Length == 768 && AllBounded(wheels[..], nowUs)
      modifies wheels
      ensures wheels[..] == Slot(old(wheels[..]), nowUs, pos).w
      ensures fired == Slot(old(wheels[..]), nowUs, pos).fired
    {
      var highOff := Offset(pos, 0);
      fired := [];
      if highOff == 0 {
        fired := Collapse(pos);
      }
      var more := RunBucket(highOff);
      fired := fired + more;
    }
  }
}
