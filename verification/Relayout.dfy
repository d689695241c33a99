/**
  The re-layout pass of client_code/client/set.c (`__relayout_nodes`) and the two
  results its callers rely on: after doubling, every key is on a hole-free path
  again; after a removal, exactly when the pass is allowed to stop early.
 */
module Relayout {
  import opened ProbeTable

  /** One visit of the pass: the node at `i` goes to the slot its probe ends at, and frees `i` if it moves. */
  function Place(t: Table, i: nat, idx: nat): Table
    requires i < |t| && idx < |t|
  {
    if idx == i then t else t[idx := t[i]][i := Empty]
  }

  /** A node in the table never gets CIRCULAR: the probe stops at the node itself at the latest. */
  lemma ProbeOfResident(t: Table, i: nat)
    requires i < |t| && t[i].Full?
    ensures !ProbeKey(t, t[i].key, t[i].hash).Circular?
  {
    ProbeKeyMeans(t, t[i].key, t[i].hash);
    assert Matches(t[i], t[i].key, t[i].hash);
  }

  function Target(t: Table, i: nat): (idx: nat)
    requires i < |t| && t[i].Full?
    ensures idx < |t|
  {
    ProbeOfResident(t, i);
    ProbeKeyMeans(t, t[i].key, t[i].hash);
    ProbeKey(t, t[i].key, t[i].hash).index
  }

  /** The pass from slot `i` on; without `toEnd` it stops at the first empty slot after `start`. */
  function Pass(t: Table, start: nat, i: nat, toEnd: bool): Table
    requires start <= i <= |t|
    decreases |t| - i
  {
    if i == |t| then t
    else if t[i].Full? then Pass(Place(t, i, Target(t, i)), start, i + 1, toEnd)
    else if !toEnd && i != start then t
    else Pass(t, start, i + 1, toEnd)
  }

  // ----- What every move keeps -----

  /** A legal move: a node stays, or goes to an empty slot. */
  ghost predicate CanPlace(t: Table, i: nat, idx: nat)
  {
    i < |t| && idx < |t| && t[i].Full? && (idx == i || t[idx].Empty?)
  }

  lemma {:induction false} CountUpdate(t: Table, a: nat, b: nat, i: nat, s: Slot)
    requires a <= b <= |t| && i < |t|
    ensures Count(t[i := s], a, b) == Count(t, a, b) +
            if a <= i < b then (if s.Full? then 1 else 0) - (if t[i].Full? then 1 else 0) else 0
    decreases b - a
  {
    if a < b { CountUpdate(t, a, b - 1, i, s); }
  }

  lemma {:induction false} CountSplit(t: Table, a: nat, m: nat, b: nat)
    requires a <= m <= b <= |t|
    ensures Count(t, a, b) == Count(t, a, m) + Count(t, m, b)
    decreases b - m
  {
    if m < b { CountSplit(t, a, m, b - 1); }
  }

  lemma {:induction false} CountFilled(t: Table, a: nat, b: nat)
    requires a <= b <= |t|
    ensures Count(t, a, b) <= b - a
    ensures Count(t, a, b) == b - a <==> Filled(t, a, b)
    ensures Count(t, a, b) == 0 <==> forall j :: a <= j < b ==> t[j].Empty?
    decreases b - a
  {
    if a < b { CountFilled(t, a, b - 1); }
  }

  lemma NodesUpdate(t: Table, i: nat, idx: nat)
    requires CanPlace(t, i, idx)
    ensures Nodes(Place(t, i, idx)) == Nodes(t)
  {
    var t' := Place(t, i, idx);
    forall x | x in Nodes(t)
      ensures x in Nodes(t')
    {
      var j :| 0 <= j < |t| && t[j].Full? && t[j] == x;
      var j' := if j == i then idx else j;
      assert t'[j'] == x;
    }
  }

  lemma PlaceKeeps(t: Table, i: nat, idx: nat)
    requires CanPlace(t, i, idx) && Distinct(t)
    ensures var t' := Place(t, i, idx);
            Distinct(t') && Nodes(t') == Nodes(t) && Count(t', 0, |t|) == Count(t, 0, |t|)
  {
    NodesUpdate(t, i, idx);
    CountUpdate(t, 0, |t|, idx, t[i]);
    CountUpdate(t[idx := t[i]], 0, |t|, i, Empty);
  }

  // ----- Doubling -----

  /** The array after realloc and after the new half has been set to NULL. */
  function Doubled(old_: Table): Table
  {
    old_ + seq(|old_|, _ => Empty)
  }

  lemma MulAtLeast(n: int, d: int)
    requires 0 < n && 1 <= d
    ensures n <= n * d
  {
  }

  lemma RemainderIs(x: int, n: int, q: int, r: int)
    requires x == n * q + r && 0 <= r < n
    ensures x % n == r
  {
    var p := x / n;
    assert x == n * p + x % n;
    assert n * (q - p) == n * q - n * p;
    assert n * (p - q) == n * p - n * q;
    if q - p >= 1 {
      MulAtLeast(n, q - p);
    } else if p - q >= 1 {
      MulAtLeast(n, p - q);
    }
  }

  /** Doubling leaves a node's home where it was, or moves it up by the old size. */
  lemma HomeDoubled(n: nat, hash: Word)
    requires 0 < n
    ensures Home(n, hash) == if Home(2 * n, hash) < n then Home(2 * n, hash) else Home(2 * n, hash) - n
  {
    var q, r := hash / (2 * n), hash % (2 * n);
    assert hash == 2 * n * q + r;
    if r < n {
      assert hash == n * (2 * q) + r by { assert n * (2 * q) == 2 * n * q; }
      RemainderIs(hash, n, 2 * q, r);
    } else {
      assert hash == n * (2 * q + 1) + (r - n) by { assert n * (2 * q + 1) == 2 * n * q + n; }
      RemainderIs(hash, n, 2 * q + 1, r - n);
    }
  }

  /** While the pass is in the lower half, at slot `i`: the rest of the lower half is as it was, nodes behind `i`
      are found, and a node in the upper half is joined to its home, or to slot n, by full slots. */
  ghost predicate LowerPhase(t: Table, was: Table, i: nat)
  {
    var n := |was|;
    && 0 < n && |t| == 2 * n && i <= n
    && (forall j :: i <= j < n ==> t[j] == was[j])
    && (forall j :: 0 <= j < i ==> Found(t, j))
    && forall j :: n <= j < 2 * n && t[j].Full? ==>
         var h := Home(2 * n, t[j].hash); h <= j && Filled(t, if h < n then n else h, j)
  }

  /** With at most n nodes and one of them in the lower half, the upper half has a hole. */
  lemma UpperHole(t: Table, n: nat, i: nat)
    requires |t| == 2 * n && i < n && t[i].Full? && Count(t, 0, 2 * n) <= n
    ensures !Filled(t, n, 2 * n)
  {
    CountSplit(t, 0, n, 2 * n);
    CountFilled(t, 0, n);
    CountFilled(t, n, 2 * n);
  }

  /** Where a probe that avoids slot `i` can end. */
  ghost predicate Lands(t: Table, home: nat, i: nat, idx: nat)
    requires home < |t| && i < |t| && idx < |t|
  {
    Reach(t, home, idx) && !OnPath(home, idx, i) && (idx == i || t[idx].Empty?)
  }

  lemma TargetLands(t: Table, i: nat)
    requires i < |t| && t[i].Full? && Distinct(t)
    ensures Lands(t, Home(|t|, t[i].hash), i, Target(t, i))
    ensures CanPlace(t, i, Target(t, i))
  {
    ProbeOfResident(t, i);
    ProbeKeyMeans(t, t[i].key, t[i].hash);
    assert Matches(t[i], t[i].key, t[i].hash);
  }

  /** In the lower phase the probe ends at or below `i`, or in the upper half without wrapping. */
  lemma LowerTarget(t: Table, was: Table, i: nat, idx: nat)
    requires LowerPhase(t, was, i) && i < |was| && t[i].Full? && idx < |t|
    requires Found(was, i) && Count(t, 0, |t|) <= |was|
    requires Lands(t, Home(|t|, t[i].hash), i, idx)
    ensures idx <= i || (|was| <= idx && Home(|t|, t[i].hash) <= idx)
  {
    var n := |was|;
    var home := Home(2 * n, t[i].hash);
    UpperHole(t, n, i);
    HomeDoubled(n, t[i].hash);
    // the old path from a home past i ran up to the old end, so no slot between i and n is empty
    assert i < home < n ==> Filled(was, home, n);
  }

  lemma LowerStep(t: Table, was: Table, i: nat, idx: nat)
    requires LowerPhase(t, was, i) && i < |was| && t[i].Full? && idx < |t|
    requires Found(was, i) && Count(t, 0, |t|) <= |was|
    requires Lands(t, Home(|t|, t[i].hash), i, idx)
    ensures LowerPhase(Place(t, i, idx), was, i + 1)
  {
    var n := |was|;
    var t' := Place(t, i, idx);
    LowerTarget(t, was, i, idx);
    UpperHole(t, n, i);
    forall j | 0 <= j < i + 1
      ensures Found(t', j)
    {
      if t'[j].Full? && j != idx {
        assert Found(t, j);
      }
    }
  }

  /** First empty slot at or after `a`, or the end. */
  function FirstHole(t: Table, a: nat): (e: nat)
    requires a <= |t|
    ensures a <= e <= |t| && Filled(t, a, e) && (e < |t| ==> t[e].Empty?)
    decreases |t| - a
  {
    if a == |t| || t[a].Empty? then a else FirstHole(t, a + 1)
  }

  /** A node behind the pass in the upper phase: found without wrapping, or wrapped from above the first hole. */
  ghost predicate Settled(t: Table, e: nat, j: nat)
    requires 0 < |t| && j < |t|
  {
    t[j].Full? ==>
      var h := Home(|t|, t[j].hash);
      Reach(t, h, j) && (h <= j || e < h)
  }

  /** While the pass is in the upper half, at slot `i`; `e` was its first hole when the pass got there. */
  ghost predicate UpperPhase(t: Table, n: nat, i: nat, e: nat)
  {
    && 0 < n && |t| == 2 * n && n <= i <= 2 * n && n <= e <= 2 * n
    && (e < 2 * n ==> t[e].Empty?)
    && (forall j :: 0 <= j < i ==> Settled(t, e, j))
    && (forall j :: i <= j < e ==> t[j].Full? && Home(2 * n, t[j].hash) <= j)
    && forall j :: i <= j < 2 * n && e < j && t[j].Full? ==>
         var h := Home(2 * n, t[j].hash); e < h <= j && Filled(t, h, j)
  }

  lemma UpperStart(t: Table, was: Table)
    requires LowerPhase(t, was, |was|) && Count(t, 0, |t|) <= |was|
    ensures UpperPhase(t, |was|, |was|, FirstHole(t, |was|))
  {
    var n := |was|;
    var e := FirstHole(t, n);
    forall j | 0 <= j < n
      ensures Settled(t, e, j)
    {
      assert Found(t, j);
      if t[j].Full? {
        UpperHole(t, n, j);
      }
    }
  }

  lemma UpperStep(t: Table, n: nat, i: nat, e: nat, idx: nat)
    requires UpperPhase(t, n, i, e) && i < 2 * n && t[i].Full? && idx < |t|
    requires Lands(t, Home(|t|, t[i].hash), i, idx)
    ensures UpperPhase(Place(t, i, idx), n, i + 1, e)
  {
    var t' := Place(t, i, idx);
    forall j | 0 <= j < i + 1
      ensures Settled(t', e, j)
    {
      if t'[j].Full? && j != idx && j < i {
        assert Settled(t, e, j);
      }
    }
  }

  ghost predicate SameContents(t: Table, was: Table)
  {
    Distinct(t) && Nodes(t) == Nodes(was) && Count(t, 0, |t|) == Count(was, 0, |was|)
  }

  /** The table after the pass has visited slot `i`. */
  function Visit(t: Table, i: nat): Table
    requires i < |t|
  {
    if t[i].Full? then Place(t, i, Target(t, i)) else t
  }

  lemma VisitKeeps(t: Table, was: Table, i: nat)
    requires SameContents(t, was) && i < |t|
    ensures SameContents(Visit(t, i), was)
  {
    if t[i].Full? {
      TargetLands(t, i);
      PlaceKeeps(t, i, Target(t, i));
    }
  }

  lemma UpperVisit(t: Table, n: nat, i: nat, e: nat)
    requires UpperPhase(t, n, i, e) && Distinct(t) && i < 2 * n
    ensures UpperPhase(Visit(t, i), n, i + 1, e)
  {
    if t[i].Full? {
      TargetLands(t, i);
      UpperStep(t, n, i, e, Target(t, i));
    }
  }

  lemma LowerVisit(t: Table, was: Table, i: nat)
    requires LowerPhase(t, was, i) && Distinct(t) && i < |was|
    requires AllFound(was) && Count(t, 0, |t|) <= |was|
    ensures LowerPhase(Visit(t, i), was, i + 1)
  {
    if t[i].Full? {
      TargetLands(t, i);
      assert Found(was, i);
      LowerStep(t, was, i, Target(t, i));
    }
  }

  lemma UpperEnd(t: Table, n: nat, e: nat)
    requires UpperPhase(t, n, 2 * n, e)
    ensures AllFound(t)
  {
    forall j | 0 <= j < |t|
      ensures Found(t, j)
    {
      assert Settled(t, e, j);
    }
  }

  lemma {:induction false} UpperPass(t: Table, was: Table, n: nat, i: nat, e: nat)
    requires UpperPhase(t, n, i, e) && SameContents(t, was)
    ensures var r := Pass(t, 0, i, true);
            |r| == |t| && AllFound(r) && SameContents(r, was)
    decreases |t| - i
  {
    if i == |t| {
      UpperEnd(t, n, e);
    } else {
      UpperVisit(t, n, i, e);
      VisitKeeps(t, was, i);
      UpperPass(Visit(t, i), was, n, i + 1, e);
    }
  }

  lemma {:induction false} LowerPass(t: Table, was: Table, i: nat)
    requires AllFound(was) && Count(was, 0, |was|) <= |was|
    requires LowerPhase(t, was, i) && SameContents(t, was)
    ensures var r := Pass(t, 0, i, true);
            |r| == |t| && AllFound(r) && SameContents(r, was)
    decreases |was| - i
  {
    if i == |was| {
      UpperStart(t, was);
      UpperPass(t, was, |was|, i, FirstHole(t, |was|));
    } else {
      LowerVisit(t, was, i);
      VisitKeeps(t, was, i);
      LowerPass(Visit(t, i), was, i + 1);
    }
  }

  lemma DoubledContents(was: Table)
    requires WellFormed(was)
    ensures SameContents(Doubled(was), was)
  {
    var d := Doubled(was);
    forall x | x in Nodes(was)
      ensures x in Nodes(d)
    {
      var j :| 0 <= j < |was| && was[j].Full? && was[j] == x;
      assert d[j] == x;
    }
    CountSplit(d, 0, |was|, |d|);
    CountFilled(d, |was|, |d|);
    CountPrefix(was, seq(|was|, _ => Empty), |was|);
  }

  lemma {:induction false} CountPrefix(t: Table, u: Table, b: nat)
    requires b <= |t|
    ensures Count(t + u, 0, b) == Count(t, 0, b)
  {
    if 0 < b { CountPrefix(t, u, b - 1); }
  }

  /** Growing: whatever the load, and also when clusters wrapped round the old end, one pass over the
      doubled array puts every key back on a hole-free path, losing and doubling none. */
  lemma GrowKeepsAll(was: Table)
    requires WellFormed(was)
    ensures var r := Pass(Doubled(was), 0, 0, true);
            && |r| == 2 * |was| && WellFormed(r)
            && Nodes(r) == Nodes(was) && Count(r, 0, |r|) == Count(was, 0, |was|)
  {
    DoubledContents(was);
    CountFilled(was, 0, |was|);
    LowerPass(Doubled(was), was, 0);
  }

  // ----- Removing -----

  /** Where the hole ends up when the nodes after it are shifted back, stopping at an empty slot or at the end. */
  function LastHole(was: Table, x: nat, i: nat): (h: nat)
    requires x < i <= |was|
    ensures x <= h < |was|
    decreases |was| - i
  {
    if i == |was| || was[i].Empty? then x
    else LastHole(was, NextHole(was, x, i), i + 1)
  }

  /** The node at `i` fills the hole at `x`, and leaves one, if it is reached through it. */
  function NextHole(was: Table, x: nat, i: nat): nat
    requires i < |was|
  {
    if was[i].Full? && (Home(|was|, was[i].hash) <= x || i < Home(|was|, was[i].hash)) then i else x
  }

  /** No node before `start` is reached by a probe that comes round the end from slot `x` or below it. */
  ghost predicate NoneCutOff(was: Table, start: nat, x: nat)
    requires start < |was|
  {
    forall j :: 0 <= j < start && was[j].Full? && j < Home(|was|, was[j].hash) ==> x < Home(|was|, was[j].hash)
  }

  /** What a caller can check before removing the node at `start`: the slot the hole will end in cuts off no
      node that is reached round the end of the array. */
  ghost predicate RemovalSafe(was: Table, start: nat)
    requires start < |was|
  {
    NoneCutOff(was, start, LastHole(was, start, start + 1))
  }

  /** The pass after a removal has reached slot `i`; `x` is the hole. */
  ghost predicate ShiftPhase(t: Table, was: Table, start: nat, x: nat, i: nat)
  {
    && |t| == |was| && start <= x < i <= |was|
    && t[x].Empty?
    && Filled(was, start, i)
    && (forall j :: 0 <= j < start || i <= j < |was| ==> t[j] == was[j])
    && forall j :: start <= j < i && j != x ==> t[j].Full? && Found(t, j)
  }

  /** An empty slot before the removal; a table of at most two slots needs none. */
  ghost predicate HasHole(was: Table, z: nat)
  {
    |was| <= 2 || (z < |was| && was[z].Empty?)
  }

  lemma ShiftTarget(t: Table, was: Table, start: nat, x: nat, i: nat, z: nat, idx: nat)
    requires ShiftPhase(t, was, start, x, i) && i < |was| && was[i].Full? && Found(was, i)
    requires HasHole(was, z)
    requires idx < |t| && Lands(t, Home(|t|, t[i].hash), i, idx)
    ensures var h := Home(|was|, was[i].hash); idx == if h <= x || i < h then x else i
  {
    var h := Home(|was|, was[i].hash);
    assert Reach(was, h, i);
    if h <= x {
      assert Filled(t, h, x);
    } else if i < h {
      assert Filled(t, 0, x);
    } else {
      assert Filled(t, h, i);
    }
  }

  lemma ShiftStep(t: Table, was: Table, start: nat, x: nat, i: nat, z: nat)
    requires ShiftPhase(t, was, start, x, i) && i < |was| && was[i].Full? && AllFound(was)
    requires HasHole(was, z) && Distinct(t)
    ensures ShiftPhase(Visit(t, i), was, start, NextHole(was, x, i), i + 1)
  {
    TargetLands(t, i);
    var idx := Target(t, i);
    ShiftTarget(t, was, start, x, i, z, idx);
    var t' := Place(t, i, idx);
    var x' := if idx == i then x else i;
    forall j | start <= j < i + 1 && j != x'
      ensures t'[j].Full? && Found(t', j)
    {
      if j != idx {
        assert Found(t, j);
        assert |was| > 2 ==> t[z] == was[z] && (Home(|t|, t[j].hash) <= j || z < Home(|t|, t[j].hash));
      }
    }
  }

  lemma ShiftEnd(t: Table, was: Table, start: nat, x: nat, i: nat)
    requires AllFound(was)
    requires ShiftPhase(t, was, start, x, i) && (i < |was| ==> was[i].Empty?)
    ensures AllFound(t) <==> NoneCutOff(was, start, x)
  {
    forall j | 0 <= j < |t|
      ensures Found(t, j) <==> !(j < start && was[j].Full? && j < Home(|was|, was[j].hash) <= x)
    {
      assert Found(was, j);
    }
  }

  /** The pass from slot `i` on keeps the nodes, and leaves them all found exactly when it cuts none off. */
  ghost predicate ShiftsRight(t: Table, was: Table, start: nat, x: nat, i: nat)
    requires start < |was| && start <= x < i <= |was| && |t| == |was|
  {
    var r := Pass(t, start, i, false);
    && |r| == |was| && SameContents(r, was[start := Empty])
    && (AllFound(r) <==> NoneCutOff(was, start, LastHole(was, x, i)))
  }

  lemma ShiftsOn(t: Table, was: Table, start: nat, x: nat, i: nat)
    requires start <= x < i < |was| == |t| && t[i] == was[i] && was[i].Full?
    requires ShiftsRight(Visit(t, i), was, start, NextHole(was, x, i), i + 1)
    ensures ShiftsRight(t, was, start, x, i)
  {
  }

  lemma ShiftsLast(t: Table, was: Table, start: nat, x: nat, i: nat)
    requires AllFound(was) && ShiftPhase(t, was, start, x, i) && SameContents(t, was[start := Empty])
    requires i < |was| ==> was[i].Empty?
    ensures ShiftsRight(t, was, start, x, i)
  {
    ShiftEnd(t, was, start, x, i);
  }

  lemma {:induction false} ShiftPass(t: Table, was: Table, start: nat, x: nat, i: nat, z: nat)
    requires AllFound(was) && ShiftPhase(t, was, start, x, i)
    requires HasHole(was, z)
    requires SameContents(t, was[start := Empty])
    ensures ShiftsRight(t, was, start, x, i)
    decreases |was| - i
  {
    if i == |was| || was[i].Empty? {
      ShiftsLast(t, was, start, x, i);
    } else {
      ShiftStep(t, was, start, x, i, z);
      VisitKeeps(t, was[start := Empty], i);
      ShiftPass(Visit(t, i), was, start, NextHole(was, x, i), i + 1, z);
      ShiftsOn(t, was, start, x, i);
    }
  }

  lemma SomeHole(was: Table) returns (z: nat)
    requires Filled(was, 0, |was|) ==> |was| <= 2
    ensures HasHole(was, z)
  {
    z := FirstHole(was, 0);
  }

  lemma PassFromHole(t: Table, start: nat)
    requires start < |t| && t[start].Empty?
    ensures Pass(t, start, start, false) == Pass(t, start, start + 1, false)
  {
  }

  lemma ClearedContents(was: Table, start: nat)
    requires WellFormed(was) && start < |was| && was[start].Full?
    ensures var t := was[start := Empty];
            && Distinct(t)
            && Nodes(t) == Nodes(was) - {was[start]}
            && Count(t, 0, |t|) == Count(was, 0, |was|) - 1
  {
    var t := was[start := Empty];
    forall x | x in Nodes(was) && x != was[start]
      ensures x in Nodes(t)
    {
      var j :| 0 <= j < |was| && was[j].Full? && was[j] == x;
      assert t[j] == x;
    }
    CountUpdate(was, 0, |was|, start, Empty);
  }

  lemma ShiftStart(was: Table, start: nat)
    requires start < |was| && was[start].Full?
    ensures ShiftPhase(was[start := Empty], was, start, start, start + 1)
  {
  }

  lemma RemoveShifts(was: Table, start: nat)
    requires WellFormed(was) && start < |was| && was[start].Full? && (Filled(was, 0, |was|) ==> |was| <= 2)
    requires Distinct(was[start := Empty])
    ensures ShiftsRight(was[start := Empty], was, start, start, start + 1)
  {
    var z := SomeHole(was);
    ShiftStart(was, start);
    ShiftPass(was[start := Empty], was, start, start, start + 1, z);
  }

  /** Removing takes out exactly that node; the nodes left are all on hole-free paths again if and only if the
      removal was safe (the pass does not go round the end). A table with more than two slots is never full. */
  lemma RemoveExactly(was: Table, start: nat)
    requires WellFormed(was) && start < |was| && was[start].Full? && (Filled(was, 0, |was|) ==> |was| <= 2)
    ensures var r := Pass(was[start := Empty], start, start, false);
            && |r| == |was| && Distinct(r)
            && Nodes(r) == Nodes(was) - {was[start]}
            && Count(r, 0, |r|) == Count(was, 0, |was|) - 1
            && (WellFormed(r) <==> RemovalSafe(was, start))
  {
    ClearedContents(was, start);
    RemoveShifts(was, start);
    PassFromHole(was[start := Empty], start);
  }

  /** An empty slot between the node and the end of the array makes its removal safe. */
  lemma HoleAfterIsSafe(was: Table, start: nat, m: nat)
    requires WellFormed(was) && start < m < |was| && was[m].Empty?
    ensures RemovalSafe(was, start)
  {
    LastHoleBelow(was, start, start + 1, m);
    forall j | 0 <= j < start && was[j].Full? && j < Home(|was|, was[j].hash)
      ensures m < Home(|was|, was[j].hash)
    {
      assert Found(was, j);
    }
  }

  lemma {:induction false} LastHoleBelow(was: Table, x: nat, i: nat, m: nat)
    requires x < i <= m < |was| && was[m].Empty?
    ensures LastHole(was, x, i) < m
    decreases |was| - i
  {
    if was[i].Full? {
      LastHoleBelow(was, NextHole(was, x, i), i + 1, m);
    }
  }

  /** A removal that is not safe: four slots, two keys that both hash to the last one; taking out the first
      leaves the second at slot 0 with an empty home, where no probe finds it. */
  lemma UnsafeRemovalExample()
    ensures var was := [Full(8, 3), Empty, Empty, Full(7, 3)];
            && WellFormed(was) && !RemovalSafe(was, 3)
            && Pass(was[3 := Empty], 3, 3, false) == [Full(8, 3), Empty, Empty, Empty]
            && ProbeKey([Full(8, 3), Empty, Empty, Empty], 8, 3) == Absent(3)
  {
    var was := [Full(8, 3), Empty, Empty, Full(7, 3)];
    assert LastHole(was, 3, 4) == 3;
    assert was[0].Full? && 0 < Home(4, 3) && !(3 < Home(4, 3));
    assert was[3 := Empty] == [Full(8, 3), Empty, Empty, Empty];
    assert Found(was, 0) && Found(was, 3);
  }
}
