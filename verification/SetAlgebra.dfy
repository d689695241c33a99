/**
  The set algebra of client_code/client/set.c: each operation walks the slot arrays and is proved to compute the
  mathematical operation on the nodes, keys with the hashes they are stored under. The stored hashes are reused,
  so the operations are those on the keys exactly as long as the operands agree on the hashes.
 */
module SetAlgebra {
  import opened ProbeTable
  import opened Relayout
  import opened SimpleSets

  lemma NodesPrefix(t: Table, i: nat)
    requires i < |t|
    ensures Nodes(t[..i + 1]) == Nodes(t[..i]) + if t[i].Full? then {t[i]} else {}
    ensures t[i].Full? && Distinct(t) ==> t[i] !in Nodes(t[..i])
  {
    var a, b := t[..i], t[..i + 1];
    forall x | x in Nodes(a)
      ensures x in Nodes(b)
    {
      var j :| 0 <= j < |a| && a[j].Full? && a[j] == x;
      assert b[j] == x;
    }
    if t[i].Full? {
      assert b[i] == t[i];
    }
  }

  lemma {:induction false} NodesCounted(t: Table, i: nat)
    requires Distinct(t) && i <= |t|
    ensures |Nodes(t[..i])| == Count(t, 0, i)
  {
    if 0 < i {
      NodesCounted(t, i - 1);
      NextCounted(t, i - 1);
    }
  }

  lemma NextCounted(t: Table, i: nat)
    requires Distinct(t) && i < |t|
    ensures |Nodes(t[..i + 1])| == |Nodes(t[..i])| + if t[i].Full? then 1 else 0
  {
    NodesPrefix(t, i);
    CountedOne(Nodes(t[..i]), t[i], Nodes(t[..i + 1]), |Nodes(t[..i])|);
  }

  lemma CountedOne(ns: set<Slot>, x: Slot, ms: set<Slot>, n: nat)
    requires |ns| == n && ms == ns + (if x.Full? then {x} else {}) && (x.Full? ==> x !in ns)
    ensures |ms| == n + if x.Full? then 1 else 0
  {
  }

  /** Under one hash a node is a key. */
  lemma {:induction false} KeysCounted(ns: set<Slot>, hf: Word -> Word)
    requires forall x :: x in ns ==> x.Full? && x.hash == hf(x.key)
    ensures |KeysOf(ns)| == |ns|
  {
    if ns != {} {
      var x :| x in ns;
      KeysCounted(ns - {x}, hf);
      assert KeysOf(ns) == KeysOf(ns - {x}) + {x.key};
    }
  }

  /** `used_nodes` is the number of nodes; where the hashes are the set's own, of keys. */
  lemma UsedNodesIsCardinality(s: SimpleSet)
    requires s.Valid()
    ensures |s.Stored()| == s.usedNodes
    ensures s.Own() ==> |s.Contents()| == s.usedNodes
  {
    var t := s.nodes[..];
    NodesCounted(t, |t|);
    assert t[..|t|] == t;
    if s.Own() {
      KeysCounted(Nodes(t), s.hashFunction);
    }
  }

  /** Two sets that share no storage, unless they are one and the same. */
  ghost predicate Apart(a: SimpleSet, b: SimpleSet)
    reads a, b
  {
    a != b ==> a.nodes != b.nodes
  }

  /** The allocator's answers: in loop `k`, at slot `i`. */
  type Grants = (nat, nat) -> bool

  ghost predicate AllGranted(grants: Grants)
  {
    forall k: nat, i: nat :: grants(k, i)
  }

  /** Two sets whose keys are stored under one and the same hash function. */
  ghost predicate Alike(a: SimpleSet, b: SimpleSet)
    reads a, a.nodes, b, b.nodes
  {
    a.Own() && b.Own() && a.hashFunction == b.hashFunction
  }

  /** The loop of set_union: insert every node of `s`; a refusal is not noticed. */
  method InsertAll(res: SimpleSet, s: SimpleSet, grants: Grants, k: nat)
    requires res.Valid() && s.Valid() && Apart(res, s)
    modifies res, res.nodes
    ensures res.Valid() && (res.nodes == old(res.nodes) || fresh(res.nodes))
    ensures old(res.Stored()) <= res.Stored() <= old(res.Stored()) + old(s.Stored())
    ensures AllGranted(grants) ==> old(s.Stored()) <= res.Stored()
    ensures old(res.Light()) ==> res.Light()
  {
    ghost var t := s.nodes[..];
    var i := 0;
    while i < s.numberNodes
      invariant 0 <= i <= |t| && s.nodes[..] == t && s.Valid()
      invariant res.Valid() && (res.nodes == old(res.nodes) || fresh(res.nodes)) && Apart(res, s)
      invariant old(res.Stored()) <= res.Stored() <= old(res.Stored()) + Nodes(t[..i])
      invariant AllGranted(grants) ==> Nodes(t[..i]) <= res.Stored()
      invariant old(res.Light()) ==> res.Light()
    {
      NodesPrefix(t, i);
      if s.nodes[i].Full? {
        assert t[i] in Nodes(t);
        var _ := res.AddHashed(s.nodes[i].key, s.nodes[i].hash, grants(k, i));
      }
      i := i + 1;
    }
    assert t[..|t|] == t;
  }

  /** The body of the other loops: insert the node at slot `i` of `s` if `other` has it, or if it does not. */
  method ConsiderSlot(res: SimpleSet, s: SimpleSet, other: SimpleSet, i: nat, wanted: bool, granted: bool)
    requires res.Valid() && s.Valid() && other.Valid() && Apart(res, s) && Apart(res, other)
    requires i < s.nodes.Length
    modifies res, res.nodes
    ensures res.Valid() && (res.nodes == old(res.nodes) || fresh(res.nodes))
    ensures var n := old(s.nodes[i]);
            var more := if n.Full? && (n in old(other.Stored())) == wanted then {n} else {};
            && old(res.Stored()) <= res.Stored() <= old(res.Stored()) + more && (granted ==> more <= res.Stored())
            && (more <= old(res.Stored()) ==> unchanged(res) && res.nodes[..] == old(res.nodes[..]))
    ensures old(res.Light()) ==> res.Light()
  {
    if s.nodes[i].Full? {
      var there := other.ContainsHashed(s.nodes[i].key, s.nodes[i].hash);
      if (there == True) == wanted {
        var _ := res.AddHashed(s.nodes[i].key, s.nodes[i].hash, granted);
      }
    }
  }

  /** The nodes the other loops are for. */
  ghost function Chosen(ns: set<Slot>, os: set<Slot>, wanted: bool): set<Slot>
  {
    if wanted then ns * os else ns - os
  }

  /** What the loop has done with the nodes `ns`: no more than they call for, and all of it if nothing was refused. */
  ghost predicate Filled(now: set<Slot>, was: set<Slot>, ns: set<Slot>, os: set<Slot>, wanted: bool, all: bool)
  {
    was <= now <= was + Chosen(ns, os, wanted) && (all ==> Chosen(ns, os, wanted) <= now)
  }

  /** One slot more: `n` is looked up in `os`, or in the result itself if that is what it is compared with. */
  lemma FilledMore(now: set<Slot>, next: set<Slot>, was: set<Slot>, ns: set<Slot>, os: set<Slot>, seen: set<Slot>,
                   n: Slot, wanted: bool, all: bool)
    requires Filled(now, was, ns, os, wanted, all) && (n.Full? ==> n !in ns)
    requires seen == os || (os == was && seen == now)
    requires var more := if n.Full? && (n in seen) == wanted then {n} else {};
             now <= next <= now + more && (all ==> more <= next)
    ensures Filled(next, was, if n.Full? then ns + {n} else ns, os, wanted, all)
  {
  }

  /** `s`, with slots `t`, and `other`, with nodes `os`, are as they were, unless they are the result. */
  ghost predicate Along(res: SimpleSet, s: SimpleSet, other: SimpleSet, t: Table, os: set<Slot>)
    reads res, res.nodes, s, s.nodes, other, other.nodes
  {
    && res.Valid() && s.Valid() && other.Valid() && Apart(res, s) && Apart(res, other)
    && s.nodes[..] == t && other.Stored() == if other == res then res.Stored() else os
  }

  /** The body of the loop, with what it keeps. */
  method StepIf(res: SimpleSet, s: SimpleSet, other: SimpleSet, i: nat, wanted: bool, granted: bool,
                ghost t: Table, ghost os: set<Slot>, ghost was: set<Slot>, ghost all: bool)
    requires Along(res, s, other, t, os) && i < |t| && (all ==> granted) && (other == res ==> os == was)
    requires Filled(res.Stored(), was, Nodes(t[..i]), os, wanted, all)
    modifies res, res.nodes
    ensures Along(res, s, other, t, os) && (res.nodes == old(res.nodes) || fresh(res.nodes))
    ensures Filled(res.Stored(), was, Nodes(t[..i + 1]), os, wanted, all)
    ensures old(res.Light()) ==> res.Light()
  {
    ghost var now, seen := res.Stored(), other.Stored();
    NodesPrefix(t, i);
    if t[i].Full? { assert t[i] in Nodes(t); }
    ConsiderSlot(res, s, other, i, wanted, granted);
    FilledMore(now, res.Stored(), was, Nodes(t[..i]), os, seen, t[i], wanted, all);
  }

  method InsertIf(res: SimpleSet, s: SimpleSet, other: SimpleSet, wanted: bool, grants: Grants, k: nat)
    requires res.Valid() && s.Valid() && other.Valid() && Apart(res, s) && Apart(res, other)
    modifies res, res.nodes
    ensures res.Valid() && (res.nodes == old(res.nodes) || fresh(res.nodes))
    ensures Filled(res.Stored(), old(res.Stored()), old(s.Stored()), old(other.Stored()), wanted, AllGranted(grants))
    ensures old(res.Light()) ==> res.Light()
  {
    ghost var t := s.nodes[..];
    ghost var was, o := res.Stored(), other.Stored();
    var i := 0;
    while i < s.numberNodes
      invariant 0 <= i <= |t| && Along(res, s, other, t, o)
      invariant res.nodes == old(res.nodes) || fresh(res.nodes)
      invariant Filled(res.Stored(), was, Nodes(t[..i]), o, wanted, AllGranted(grants))
      invariant old(res.Light()) ==> res.Light()
    {
      StepIf(res, s, other, i, wanted, grants(k, i), t, o, was, AllGranted(grants));
      i := i + 1;
    }
    assert t[..|t|] == t;
  }

  ghost predicate Truly(ns: set<Slot>, hf: Word -> Word)
  {
    forall x :: x in ns ==> x.Full? && x.hash == hf(x.key)
  }

  lemma KeysOfUnion(a: set<Slot>, b: set<Slot>)
    ensures KeysOf(a + b) == KeysOf(a) + KeysOf(b)
  {
  }

  /** With one hash function, an operation on nodes is the same operation on keys. */
  lemma KeysOfDifference(a: set<Slot>, b: set<Slot>, hf: Word -> Word)
    requires Truly(a, hf) && Truly(b, hf)
    ensures KeysOf(a - b) == KeysOf(a) - KeysOf(b) && KeysOf(a * b) == KeysOf(a) * KeysOf(b)
    ensures a <= b <==> KeysOf(a) <= KeysOf(b)
  {
    if KeysOf(a) <= KeysOf(b) {
      forall x | x in a
        ensures x in b
      {
        assert x.key in KeysOf(a);
      }
    }
  }

  lemma OwnStored(s: SimpleSet)
    ensures s.Own() <==> Truly(s.Stored(), s.hashFunction)
  {
    HashedNodes(s.nodes[..], s.nodes[..], s.hashFunction);
  }

  /** What is in one of two sets and not in the other. */
  function Either<T(==)>(a: set<T>, b: set<T>): set<T>
  {
    (a - b) + (b - a)
  }

  lemma AllKeys(a: set<Slot>, b: set<Slot>, hf: Word -> Word)
    requires Truly(a, hf) && Truly(b, hf)
    ensures KeysOf(a + b) == KeysOf(a) + KeysOf(b) && KeysOf(a * b) == KeysOf(a) * KeysOf(b)
    ensures KeysOf(a - b) == KeysOf(a) - KeysOf(b)
    ensures KeysOf(Either(a, b)) == Either(KeysOf(a), KeysOf(b))
  {
    KeysOfUnion(a, b);
    KeysOfDifference(a, b, hf);
    KeysOfDifference(b, a, hf);
    KeysOfUnion(a - b, b - a);
  }

  /** Operands that agree on the hashes, as nodes. */
  lemma AlikeNodes(s1: SimpleSet, s2: SimpleSet)
    requires Alike(s1, s2)
    ensures Truly(s1.Stored() + s2.Stored(), s1.hashFunction)
    ensures Truly(Either(s1.Stored(), s2.Stored()), s1.hashFunction)
    ensures var a, b, k, l := s1.Stored(), s2.Stored(), s1.Contents(), s2.Contents();
            && KeysOf(a + b) == k + l && KeysOf(a * b) == k * l && KeysOf(a - b) == k - l
            && KeysOf(Either(a, b)) == Either(k, l)
  {
    OwnStored(s1);
    OwnStored(s2);
    AllKeys(s1.Stored(), s2.Stored(), s1.hashFunction);
  }

  /** What a result of nodes from `full` is in terms of keys. */
  lemma Conclude(res: SimpleSet, full: set<Slot>, hf: Word -> Word)
    requires res.Stored() <= full
    ensures Truly(full, hf) && res.hashFunction == hf ==> res.Own()
    ensures res.Stored() == full ==> res.Contents() == KeysOf(full)
  {
    OwnStored(res);
  }

  /** One loop into an empty result. */
  method InsertChosen(res: SimpleSet, s: SimpleSet, other: SimpleSet, wanted: bool, grants: Grants,
                      ghost full: set<Slot>)
    requires res.Valid() && s.Valid() && other.Valid() && Apart(res, s) && Apart(res, other) && res.Stored() == {}
    requires full == if wanted then s.Stored() * other.Stored() else s.Stored() - other.Stored()
    modifies res, res.nodes
    ensures res.Valid() && (old(res.Light()) ==> res.Light())
    ensures res.Stored() <= full && (AllGranted(grants) ==> res.Stored() == full)
  {
    InsertIf(res, s, other, wanted, grants, 0);
  }

  method InsertBoth(res: SimpleSet, s1: SimpleSet, s2: SimpleSet, grants: Grants, ghost full: set<Slot>)
    requires res.Valid() && s1.Valid() && s2.Valid() && Apart(res, s1) && Apart(res, s2) && res.Stored() == {}
    requires full == s1.Stored() + s2.Stored()
    modifies res, res.nodes
    ensures res.Valid() && (old(res.Light()) ==> res.Light())
    ensures res.Stored() <= full && (AllGranted(grants) ==> res.Stored() == full)
  {
    InsertAll(res, s1, grants, 0);
    InsertAll(res, s2, grants, 1);
  }

  method InsertDifferences(res: SimpleSet, s1: SimpleSet, s2: SimpleSet, grants: Grants, ghost full: set<Slot>)
    requires res.Valid() && s1.Valid() && s2.Valid() && Apart(res, s1) && Apart(res, s2) && res.Stored() == {}
    requires full == Either(s1.Stored(), s2.Stored())
    modifies res, res.nodes
    ensures res.Valid() && (old(res.Light()) ==> res.Light())
    ensures res.Stored() <= full && (AllGranted(grants) ==> res.Stored() == full)
  {
    ghost var n1, n2 := s1.Stored(), s2.Stored();
    InsertIf(res, s1, s2, false, grants, 0);
    ghost var now := res.Stored();
    ghost var m1, m2 := s1.Stored(), s2.Stored();
    InsertIf(res, s2, s1, false, grants, 1);
    TwoDifferences(n1, n2, m1, m2, now, res.Stored(), AllGranted(grants));
  }

  /** Both loops; an operand that is the result has grown in the first. */
  lemma TwoDifferences(n1: set<Slot>, n2: set<Slot>, m1: set<Slot>, m2: set<Slot>, now: set<Slot>, end: set<Slot>,
                       all: bool)
    requires Filled(now, {}, n1, n2, false, all) && Filled(end, now, m2, m1, false, all)
    requires (m1 == n1 || (n1 == {} && m1 == now)) && (m2 == n2 || (n2 == {} && m2 == now))
    ensures var full := Either(n1, n2); end <= full && (all ==> end == full)
  {
  }

  /** The operands may be the result set itself. The answer is TRUE also when the allocator has refused to let the
      result grow, and nodes are missing. */
  method Union(res: SimpleSet, s1: SimpleSet, s2: SimpleSet, grants: Grants) returns (r: Status)
    requires res.Valid() && s1.Valid() && s2.Valid() && Apart(res, s1) && Apart(res, s2)
    modifies res, res.nodes
    ensures res.Valid() && (old(res.Light()) ==> res.Light())
    ensures r == if old(res.Stored()) != {} then OccupiedError else True
    ensures r != True ==> res.Stored() == old(res.Stored())
    ensures r == True ==> res.Stored() <= old(s1.Stored() + s2.Stored())
    ensures r == True && AllGranted(grants) ==> res.Stored() == old(s1.Stored() + s2.Stored())
    ensures r == True && AllGranted(grants) && old(Alike(s1, s2)) ==>
              res.Contents() == old(s1.Contents() + s2.Contents())
    ensures r == True && old(Alike(s1, s2)) && res.hashFunction == s1.hashFunction ==> res.Own()
  {
    UsedNodesIsCardinality(res);
    if res.usedNodes != 0 {
      return OccupiedError;
    }
    ghost var full, keys := s1.Stored() + s2.Stored(), s1.Contents() + s2.Contents();
    assert Alike(s1, s2) ==> Truly(full, s1.hashFunction) && KeysOf(full) == keys by {
      if Alike(s1, s2) { AlikeNodes(s1, s2); }
    }
    InsertBoth(res, s1, s2, grants, full);
    Conclude(res, full, s1.hashFunction);
    return True;
  }

  /** The stored hashes go into the result: after a union of sets with another hash function the result may not find
      the keys it holds. */
  method ForeignKeyLost(f: Word -> Word, g: Word -> Word, key: Word) returns (there: Status, res: SimpleSet)
    requires f(key) != g(key)
    ensures key in res.Contents() && there == False
  {
    var s := OneKey(f, key);
    res := new SimpleSet.InitAlt(4, g);
    var _ := Union(res, s, s, (k, i) => true);
    UsedNodesIsCardinality(res);
    assert Full(key, f(key)) in res.Stored();
    there := res.Contains(key);
  }

  method OneKey(f: Word -> Word, key: Word) returns (s: SimpleSet)
    ensures s.Valid() && fresh(s) && fresh(s.nodes) && s.Stored() == {Full(key, f(key))}
  {
    s := new SimpleSet.InitAlt(4, f);
    var _ := s.Add(key, true);
  }

  method Intersection(res: SimpleSet, s1: SimpleSet, s2: SimpleSet, grants: Grants) returns (r: Status)
    requires res.Valid() && s1.Valid() && s2.Valid() && Apart(res, s1) && Apart(res, s2)
    modifies res, res.nodes
    ensures res.Valid() && (old(res.Light()) ==> res.Light())
    ensures r == if old(res.Stored()) != {} then OccupiedError else True
    ensures r != True ==> res.Stored() == old(res.Stored())
    ensures r == True ==> res.Stored() <= old(s1.Stored() * s2.Stored())
    ensures r == True && AllGranted(grants) ==> res.Stored() == old(s1.Stored() * s2.Stored())
    ensures r == True && AllGranted(grants) && old(Alike(s1, s2)) ==>
              res.Contents() == old(s1.Contents() * s2.Contents())
    ensures r == True && old(Alike(s1, s2)) && res.hashFunction == s1.hashFunction ==> res.Own()
  {
    UsedNodesIsCardinality(res);
    if res.usedNodes != 0 {
      return OccupiedError;
    }
    ghost var full, keys := s1.Stored() * s2.Stored(), s1.Contents() * s2.Contents();
    assert Alike(s1, s2) ==> Truly(full, s1.hashFunction) && KeysOf(full) == keys by {
      if Alike(s1, s2) { AlikeNodes(s1, s2); }
    }
    InsertChosen(res, s1, s2, true, grants, full);
    Conclude(res, full, s1.hashFunction);
    return True;
  }

  method Difference(res: SimpleSet, s1: SimpleSet, s2: SimpleSet, grants: Grants) returns (r: Status)
    requires res.Valid() && s1.Valid() && s2.Valid() && Apart(res, s1) && Apart(res, s2)
    modifies res, res.nodes
    ensures res.Valid() && (old(res.Light()) ==> res.Light())
    ensures r == if old(res.Stored()) != {} then OccupiedError else True
    ensures r != True ==> res.Stored() == old(res.Stored())
    ensures r == True ==> res.Stored() <= old(s1.Stored() - s2.Stored())
    ensures r == True && AllGranted(grants) ==> res.Stored() == old(s1.Stored() - s2.Stored())
    ensures r == True && AllGranted(grants) && old(Alike(s1, s2)) ==>
              res.Contents() == old(s1.Contents() - s2.Contents())
    ensures r == True && old(Alike(s1, s2)) && res.hashFunction == s1.hashFunction ==> res.Own()
  {
    UsedNodesIsCardinality(res);
    if res.usedNodes != 0 {
      return OccupiedError;
    }
    ghost var full, keys := s1.Stored() - s2.Stored(), s1.Contents() - s2.Contents();
    assert Alike(s1, s2) ==> Truly(full, s1.hashFunction) && KeysOf(full) == keys by {
      if Alike(s1, s2) { AlikeNodes(s1, s2); }
    }
    InsertChosen(res, s1, s2, false, grants, full);
    Conclude(res, full, s1.hashFunction);
    return True;
  }

  method SymmetricDifference(res: SimpleSet, s1: SimpleSet, s2: SimpleSet, grants: Grants) returns (r: Status)
    requires res.Valid() && s1.Valid() && s2.Valid() && Apart(res, s1) && Apart(res, s2)
    modifies res, res.nodes
    ensures res.Valid() && (old(res.Light()) ==> res.Light())
    ensures r == if old(res.Stored()) != {} then OccupiedError else True
    ensures r != True ==> res.Stored() == old(res.Stored())
    ensures r == True ==> res.Stored() <= old(Either(s1.Stored(), s2.Stored()))
    ensures r == True && AllGranted(grants) ==> res.Stored() == old(Either(s1.Stored(), s2.Stored()))
    ensures r == True && AllGranted(grants) && old(Alike(s1, s2)) ==>
              res.Contents() == old(Either(s1.Contents(), s2.Contents()))
    ensures r == True && old(Alike(s1, s2)) && res.hashFunction == s1.hashFunction ==> res.Own()
  {
    UsedNodesIsCardinality(res);
    if res.usedNodes != 0 {
      return OccupiedError;
    }
    ghost var full, keys := Either(s1.Stored(), s2.Stored()), Either(s1.Contents(), s2.Contents());
    assert Alike(s1, s2) ==> Truly(full, s1.hashFunction) && KeysOf(full) == keys by {
      if Alike(s1, s2) { AlikeNodes(s1, s2); }
    }
    InsertDifferences(res, s1, s2, grants, full);
    Conclude(res, full, s1.hashFunction);
    return True;
  }

  lemma SubsetByKeys(a: SimpleSet, b: SimpleSet)
    ensures Alike(a, b) ==> (a.Stored() <= b.Stored() <==> a.Contents() <= b.Contents())
  {
    if Alike(a, b) {
      OwnStored(a);
      OwnStored(b);
      KeysOfDifference(a.Stored(), b.Stored(), a.hashFunction);
    }
  }

  /** `set_is_subset` only stops on FALSE, so a completely full `against`, which answers CIRCULAR for
      a missing node, passes for a superset of anything. */
  method IsSubset(test: SimpleSet, against: SimpleSet) returns (r: Status)
    requires test.Valid() && against.Valid()
    ensures r == if test.Stored() <= against.Stored() || against.usedNodes == against.numberNodes then True else False
    ensures Alike(test, against) && against.usedNodes < against.numberNodes ==>
              r == if test.Contents() <= against.Contents() then True else False
  {
    ghost var t, o := test.nodes[..], against.nodes[..];
    CountFilled(o, 0, |o|);
    SubsetByKeys(test, against);
    var i := 0;
    while i < test.numberNodes
      invariant 0 <= i <= |t|
      invariant against.usedNodes < against.numberNodes ==> Nodes(t[..i]) <= Nodes(o)
    {
      NodesPrefix(t, i);
      if test.nodes[i].Full? {
        var c := against.ContainsHashed(test.nodes[i].key, test.nodes[i].hash);
        if c == False {
          assert t[i] in Nodes(t);
          return False;
        }
      }
      i := i + 1;
    }
    assert t[..|t|] == t;
    return True;
  }

  method IsSubsetStrict(test: SimpleSet, against: SimpleSet) returns (r: Status)
    requires test.Valid() && against.Valid()
    ensures against.usedNodes < against.numberNodes ==>
              r == if test.Stored() < against.Stored() then True else False
    ensures against.usedNodes == against.numberNodes ==>
              r == if test.usedNodes < against.usedNodes then True else False
    ensures Alike(test, against) && against.usedNodes < against.numberNodes ==>
              r == if test.Contents() < against.Contents() then True else False
  {
    UsedNodesIsCardinality(test);
    UsedNodesIsCardinality(against);
    ProperSubsetSmaller(test.Stored(), against.Stored());
    ProperSubsetSmaller(test.Contents(), against.Contents());
    if test.usedNodes >= against.usedNodes {
      return False;
    }
    r := IsSubset(test, against);
  }

  lemma ProperSubsetSmaller<T>(a: set<T>, b: set<T>)
    ensures a < b <==> a <= b && |a| < |b|
    ensures a <= b && |a| == |b| ==> a == b
  {
    if a <= b {
      assert b == a + (b - a);
      assert |b| == |a| + |b - a|;
    }
  }

  /** `set_cmp` looks every key of the left set up in the right one, under the right one's hash. */
  method Compare(left: SimpleSet, right: SimpleSet) returns (r: Comparison)
    requires left.Valid() && right.Valid()
    ensures r == LeftGreater <==> |left.Stored()| > |right.Stored()|
    ensures r == RightGreater <==> |left.Stored()| < |right.Stored()|
    ensures r == Equal <==>
              |left.Stored()| == |right.Stored()| && Rehashed(left.nodes[..], right.hashFunction) <= right.Stored()
    ensures left.Own() && right.Own() ==>
              && (r == Equal <==> left.Contents() == right.Contents())
              && (r == LeftGreater <==> |left.Contents()| > |right.Contents()|)
              && (r == RightGreater <==> |left.Contents()| < |right.Contents()|)
  {
    UsedNodesIsCardinality(left);
    UsedNodesIsCardinality(right);
    ProperSubsetSmaller(left.Contents(), right.Contents());
    RehashedKeys(left, right);
    if left.usedNodes < right.usedNodes {
      return RightGreater;
    } else if right.usedNodes < left.usedNodes {
      return LeftGreater;
    }
    ghost var t := left.nodes[..];
    var i := 0;
    while i < left.numberNodes
      invariant 0 <= i <= |t|
      invariant Rehashed(t[..i], right.hashFunction) <= right.Stored()
    {
      RehashedPrefix(t, i, right.hashFunction);
      if left.nodes[i].Full? {
        var c := right.Contains(left.nodes[i].key);
        if c != True {
          return Unequal;
        }
      }
      i := i + 1;
    }
    assert t[..|t|] == t;
    return Equal;
  }

  /** The nodes that the keys of a table would be under another hash. */
  ghost function Rehashed(t: Table, hf: Word -> Word): set<Slot>
  {
    set j | 0 <= j < |t| && t[j].Full? :: Full(t[j].key, hf(t[j].key))
  }

  lemma RehashedPrefix(t: Table, i: nat, hf: Word -> Word)
    requires i < |t|
    ensures Rehashed(t[..i + 1], hf) == Rehashed(t[..i], hf) + if t[i].Full? then {Full(t[i].key, hf(t[i].key))} else {}
    ensures t[i].Full? ==> Full(t[i].key, hf(t[i].key)) in Rehashed(t, hf)
  {
    var a, b := t[..i], t[..i + 1];
    forall x | x in Rehashed(a, hf)
      ensures x in Rehashed(b, hf)
    {
      var j :| 0 <= j < |a| && a[j].Full? && Full(a[j].key, hf(a[j].key)) == x;
      assert b[j] == a[j];
    }
    if t[i].Full? { assert b[i] == t[i]; }
  }

  lemma RehashedKeys(left: SimpleSet, right: SimpleSet)
    ensures right.Own() ==>
              (Rehashed(left.nodes[..], right.hashFunction) <= right.Stored() <==> left.Contents() <= right.Contents())
  {
    var t, hf := left.nodes[..], right.hashFunction;
    forall k | k in Keys(t)
      ensures Full(k, hf(k)) in Rehashed(t, hf)
    {
      var x :| x in Nodes(t) && x.Full? && x.key == k;
      var j :| 0 <= j < |t| && t[j] == x;
    }
    forall k
      ensures right.Own() ==> (k in right.Contents() <==> Full(k, hf(k)) in right.Stored())
    {
      HashedKeys(right.nodes[..], hf, k);
    }
    forall j | 0 <= j < |t| && t[j].Full?
      ensures t[j].key in Keys(t)
    {
      assert t[j] in Nodes(t);
    }
  }

  lemma KeysPrefix(t: Table, i: nat)
    requires i < |t|
    ensures Keys(t[..i + 1]) == Keys(t[..i]) + if t[i].Full? then {t[i].key} else {}
  {
    NodesPrefix(t, i);
    if t[i].Full? { KeysAdded(t[..i], t[..i + 1], t[i]); }
  }

  /** The keys of the first `i` slots, in some order. */
  ghost predicate Copied(t: Table, i: nat, out: seq<Word>)
    requires i <= |t|
  {
    (set k | k in out) == Keys(t[..i]) && |out| == Count(t, 0, i)
  }

  lemma CopiedNext(t: Table, i: nat, out: seq<Word>)
    requires i < |t| && Copied(t, i, out)
    ensures Copied(t, i + 1, if t[i].Full? then out + [t[i].key] else out)
    ensures Count(t, 0, i + 1) <= Count(t, 0, |t|)
  {
    CountSplit(t, 0, i + 1, |t|);
    KeysPrefix(t, i);
    if t[i].Full? { AppendedSet(out, t[i].key); }
  }

  lemma AppendedSet(s: seq<Word>, x: Word)
    ensures (set k | k in s + [x]) == (set k | k in s) + {x}
  {
  }

  method ToArray(s: SimpleSet) returns (size: nat, results: array<Word>)
    requires s.Valid()
    ensures size == |s.Stored()| && results.Length == size + 1 && results[size] == 0
    ensures (set k | k in results[..size]) == s.Contents()
    ensures s.Own() ==> size == |s.Contents()|
    ensures fresh(results)
  {
    UsedNodesIsCardinality(s);
    size := s.usedNodes;
    results := new Word[s.usedNodes + 1](_ => 0);
    ghost var t := s.nodes[..];
    var i, j := 0, 0;
    while i < s.numberNodes
      invariant 0 <= i <= |t| && 0 <= j <= size && s.nodes[..] == t && Copied(t, i, results[..j])
      invariant results[size] == 0
    {
      ghost var before := results[..j];
      CopiedNext(t, i, before);
      if s.nodes[i].Full? {
        results[j] := s.nodes[i].key;
        assert results[..j + 1] == before + [t[i].key];
        j := j + 1;
      }
      i := i + 1;
    }
    assert t[..|t|] == t;
  }
}
