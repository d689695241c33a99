/**
  The slot array behind client_code/client/set.c, as a value: linear probing,
  the move step of a re-layout pass, and the two passes the program runs
  (after doubling the array, and after removing a key).
 */
module ProbeTable {

  /** uint64_t keys and hashes. */
  type Word = x: int | 0 <= x < 0x1_0000_0000_0000_0000

  /** A NULL pointer, or a node holding a key and its hash. */
  datatype Slot = Empty | Full(key: Word, hash: Word)

  type Table = seq<Slot>

  /** Slot where the probe for a hash starts. */
  function Home(n: nat, hash: Word): nat
    requires 0 < n
  {
    hash % n
  }

  ghost predicate Filled(t: Table, a: int, b: int)
    requires 0 <= a && b <= |t|
  {
    forall j :: a <= j < b ==> t[j].Full?
  }

  /** No empty slot from `home` up to, and not including, `pos`, going round the end of the array. */
  ghost predicate Reach(t: Table, home: nat, pos: nat)
    requires home < |t| && pos < |t|
  {
    if home <= pos then Filled(t, home, pos) else Filled(t, home, |t|) && Filled(t, 0, pos)
  }

  /** Slot `j` lies on the way from `home` to `pos`, `pos` itself left out. */
  ghost predicate OnPath(home: nat, pos: nat, j: nat)
  {
    if home <= pos then home <= j < pos else home <= j || j < pos
  }

  /** Every key is stored under the hash that `hf` gives it. */
  ghost predicate Hashed(t: Table, hf: Word -> Word)
  {
    forall j :: 0 <= j < |t| && t[j].Full? ==> t[j].hash == hf(t[j].key)
  }

  ghost predicate Distinct(t: Table)
  {
    forall i, j :: 0 <= i < |t| && 0 <= j < |t| && t[i].Full? && t[i] == t[j] ==> i == j
  }

  /** Node `j` sits on a hole-free probe path from its home. */
  ghost predicate Found(t: Table, j: nat)
    requires j < |t|
  {
    t[j].Full? ==> Reach(t, Home(|t|, t[j].hash), j)
  }

  ghost predicate AllFound(t: Table)
  {
    forall j :: 0 <= j < |t| ==> Found(t, j)
  }

  /** What every operation keeps: no node twice, every node reachable by probing. */
  ghost predicate WellFormed(t: Table)
  {
    0 < |t| && Distinct(t) && AllFound(t)
  }

  /** The nodes of a table: keys, each with the hash it is stored under. */
  ghost function Nodes(t: Table): set<Slot>
  {
    set j | 0 <= j < |t| && t[j].Full? :: t[j]
  }

  ghost function Keys(t: Table): set<Word>
  {
    KeysOf(Nodes(t))
  }

  ghost function KeysOf(ns: set<Slot>): set<Word>
  {
    set x | x in ns && x.Full? :: x.key
  }

  /** Number of full slots from `a` up to `b`. */
  function Count(t: Table, a: nat, b: nat): nat
    requires a <= b <= |t|
    decreases b - a
  {
    if a == b then 0 else Count(t, a, b - 1) + if t[b - 1].Full? then 1 else 0
  }

  // ----- Probing -----

  datatype Probe = Present(index: nat) | Absent(index: nat) | Circular

  /** `k` slots looked at so far without an answer. */
  function ProbeFrom(t: Table, key: Word, hash: Word, k: nat): Probe
    requires 0 < |t| && k < |t|
    decreases |t| - k
  {
    var home := Home(|t|, hash);
    var i := if home + k < |t| then home + k else home + k - |t|;
    if t[i].Empty? then Absent(i)
    else if t[i].hash == hash && t[i].key == key then Present(i)
    else if k + 1 == |t| then Circular
    else ProbeFrom(t, key, hash, k + 1)
  }

  function ProbeKey(t: Table, key: Word, hash: Word): Probe
    requires 0 < |t|
  {
    ProbeFrom(t, key, hash, 0)
  }

  ghost predicate Matches(s: Slot, key: Word, hash: Word)
  {
    s.Full? && s.key == key && s.hash == hash
  }

  /** What a probe answer says about the table. */
  ghost predicate ProbeMeans(t: Table, key: Word, hash: Word, p: Probe)
    requires 0 < |t|
  {
    var home := Home(|t|, hash);
    match p
    case Circular =>
      forall j :: 0 <= j < |t| ==> t[j].Full? && !Matches(t[j], key, hash)
    case Present(i) =>
      i < |t| && Reach(t, home, i) && Matches(t[i], key, hash) && !MatchBefore(t, key, hash, i)
    case Absent(i) =>
      i < |t| && Reach(t, home, i) && t[i].Empty? && !MatchBefore(t, key, hash, i)
  }

  /** The key is already on the way from its home to slot `i`. */
  ghost predicate MatchBefore(t: Table, key: Word, hash: Word, i: nat)
    requires 0 < |t|
  {
    exists j :: 0 <= j < |t| && OnPath(Home(|t|, hash), i, j) && Matches(t[j], key, hash)
  }

  /** Slot `j` is among the first `k` slots looked at from `home`. */
  ghost predicate Visited(n: nat, home: nat, k: nat, j: nat)
  {
    if home + k <= n then home <= j < home + k else home <= j || j < home + k - n
  }

  lemma {:induction false} ProbeFromMeans(t: Table, key: Word, hash: Word, k: nat)
    requires 0 < |t| && k < |t|
    requires forall j :: 0 <= j < |t| && Visited(|t|, Home(|t|, hash), k, j) ==>
               t[j].Full? && !Matches(t[j], key, hash)
    ensures ProbeMeans(t, key, hash, ProbeFrom(t, key, hash, k))
    decreases |t| - k
  {
    var home := Home(|t|, hash);
    var i := if home + k < |t| then home + k else home + k - |t|;
    if t[i].Full? && !Matches(t[i], key, hash) && k + 1 < |t| {
      ProbeFromMeans(t, key, hash, k + 1);
    }
  }

  lemma ProbeKeyMeans(t: Table, key: Word, hash: Word)
    requires 0 < |t|
    ensures ProbeMeans(t, key, hash, ProbeKey(t, key, hash))
  {
    ProbeFromMeans(t, key, hash, 0);
  }

  /** Probing a well-formed table answers whether a key is there under a hash; CIRCULAR is exactly "full, and not
      there". */
  lemma ProbeDecides(t: Table, key: Word, hash: Word)
    requires WellFormed(t)
    ensures ProbeKey(t, key, hash).Present? <==> Full(key, hash) in Nodes(t)
    ensures ProbeKey(t, key, hash).Circular? <==> Full(key, hash) !in Nodes(t) && Filled(t, 0, |t|)
  {
    var p := ProbeKey(t, key, hash);
    ProbeKeyMeans(t, key, hash);
    if Full(key, hash) in Nodes(t) {
      var j :| 0 <= j < |t| && t[j] == Full(key, hash);
      assert Found(t, j);
      assert Matches(t[j], key, hash);
    } else {
      assert forall j :: 0 <= j < |t| && Matches(t[j], key, hash) ==> t[j] in Nodes(t);
    }
  }

  /** With true hashes, a key is there exactly when it is there under its own hash. */
  lemma HashedKeys(t: Table, hf: Word -> Word, key: Word)
    ensures Hashed(t, hf) ==> (key in Keys(t) <==> Full(key, hf(key)) in Nodes(t))
  {
  }
}
