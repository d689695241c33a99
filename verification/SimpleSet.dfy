/**
  client_code/client/set.c: the open-addressed hash set of uint64 keys. The slot array is replaced when it
  grows and rewritten in place otherwise; every method is proved against `Pass`, `ProbeKey` and the set of nodes.
  A node is a key with the hash it is stored under; where all are stored under the set's own hash, the nodes are
  its keys.
 */
module SimpleSets {
  import opened ProbeTable
  import opened Relayout

  datatype Status = True | False | MallocError | CircularError | OccupiedError | AlreadyPresent

  datatype Comparison = Equal | LeftGreater | RightGreater | Unequal

  const FNV_PRIME: int := 1099511628211
  /** The 64-bit FNV offset basis without its low byte, which is 0x25. */
  const FNV_HIGH: int := 0xcbf2_9ce4_8422_2300

  /** Toggle the bit of weight `w`. */
  function Toggle(b: nat, w: nat): (r: nat)
    requires b < 256 && w in {1, 4, 32}
    ensures r < 256
  {
    if b / w % 2 == 0 then b + w else b - w
  }

  /** A byte xor-ed with 0x25. */
  function XorLowByte(b: nat): (r: nat)
    requires b < 256
    ensures r < 256
  {
    Toggle(Toggle(Toggle(b, 1), 4), 32)
  }

  /** The basis with its low byte xor-ed with the key's low byte, times the prime, modulo 2^64. */
  function DefaultHash(key: Word): Word
  {
    (FNV_HIGH + XorLowByte(key % 256)) * FNV_PRIME % 0x1_0000_0000_0000_0000
  }

  lemma Toggle4Twice(b: nat)
    requires b < 256
    ensures Toggle(Toggle(b, 4), 4) == b
  {
  }

  lemma Toggle32Twice(b: nat)
    requires b < 256
    ensures Toggle(Toggle(b, 32), 32) == b
  {
  }

  lemma ToggleTwice(b: nat, w: nat)
    requires b < 256 && w in {1, 4, 32}
    ensures Toggle(Toggle(b, w), w) == b
  {
    if w == 4 {
      Toggle4Twice(b);
    } else if w == 32 {
      Toggle32Twice(b);
    }
  }

  lemma XorLowByteInjective(a: nat, b: nat)
    requires a < 256 && b < 256 && XorLowByte(a) == XorLowByte(b)
    ensures a == b
  {
    ToggleTwice(Toggle(Toggle(a, 1), 4), 32);
    ToggleTwice(Toggle(Toggle(b, 1), 4), 32);
    ToggleTwice(Toggle(a, 1), 4);
    ToggleTwice(Toggle(b, 1), 4);
    ToggleTwice(a, 1);
    ToggleTwice(b, 1);
  }

  lemma SmallMultiples(u: int, v: int)
    requires 0 <= v <= u <= v + 255
    requires u * FNV_PRIME % 0x1_0000_0000_0000_0000 == v * FNV_PRIME % 0x1_0000_0000_0000_0000
    ensures u == v
  {
    var m := 0x1_0000_0000_0000_0000;
    var d := (u - v) * FNV_PRIME;
    var q := u * FNV_PRIME / m - v * FNV_PRIME / m;
    assert d == m * q;
    assert 0 <= d < m;
  }

  /** Only the low byte of a key reaches the default hash, so it takes 256 values: two keys collide
      exactly when their low bytes agree. */
  lemma DefaultHashCollides(a: Word, b: Word)
    ensures DefaultHash(a) == DefaultHash(b) <==> a % 256 == b % 256
  {
    if DefaultHash(a) == DefaultHash(b) {
      var x, y := XorLowByte(a % 256), XorLowByte(b % 256);
      if y <= x { SmallMultiples(FNV_HIGH + x, FNV_HIGH + y); } else { SmallMultiples(FNV_HIGH + y, FNV_HIGH + x); }
      XorLowByteInjective(a % 256, b % 256);
    }
  }

  /** The published 64-bit FNV-1a values of the bytes 0 and 61. */
  lemma DefaultHashValues()
    ensures DefaultHash(0) == 0xaf63_bd4c_8601_b7df && DefaultHash(0x61) == 0xaf63_dc4c_8601_ec8c
  {
  }

  class SimpleSet {
    var nodes: array<Slot>
    var numberNodes: nat
    var usedNodes: nat
    const hashFunction: Word -> Word

    ghost predicate Valid()
      reads this, nodes
    {
      && numberNodes == nodes.Length
      && usedNodes == Count(nodes[..], 0, nodes.Length)
      && WellFormed(nodes[..])
      && (usedNodes == numberNodes ==> numberNodes <= 2)
    }

    ghost function Stored(): set<Slot>
      reads this, nodes
    {
      Nodes(nodes[..])
    }

    ghost function Contents(): set<Word>
      reads this, nodes
    {
      Keys(nodes[..])
    }

    /** Every key is stored under the set's own hash. */
    ghost predicate Own()
      reads this, nodes
    {
      Hashed(nodes[..], hashFunction)
    }

    /** The load a set that starts with two slots or more never exceeds. */
    ghost predicate Light()
      reads this
    {
      2 <= numberNodes && usedNodes <= numberNodes / 4 + 1
    }

    constructor InitAlt(numEls: nat, hash: Word -> Word)
      ensures 0 < numEls ==> Valid()
      ensures Contents() == {} && Stored() == {} && Own() && numberNodes == numEls && usedNodes == 0
      ensures hashFunction == hash && fresh(nodes)
      ensures 2 <= numEls ==> Light()
    {
      nodes := new Slot[numEls](_ => Empty);
      numberNodes := numEls;
      usedNodes := 0;
      hashFunction := hash;
      new;
      CountFilled(nodes[..], 0, numEls);
    }

    /** `__get_index`, as a loop over the array; CIRCULAR leaves the index untouched. */
    method GetIndex(key: Word, hash: Word) returns (p: Probe)
      requires numberNodes == nodes.Length && 0 < numberNodes
      ensures p == ProbeKey(nodes[..], key, hash)
    {
      var idx := hash % numberNodes;
      var i := idx;
      ghost var k := 0;
      while true
        invariant 0 <= k < numberNodes
        invariant i == if idx + k < numberNodes then idx + k else idx + k - numberNodes
        invariant ProbeKey(nodes[..], key, hash) == ProbeFrom(nodes[..], key, hash, k)
        decreases numberNodes - k
      {
        if nodes[i].Empty? {
          return Absent(i);
        } else if hash == nodes[i].hash && nodes[i].key == key {
          return Present(i);
        }
        i := i + 1;
        if i == numberNodes {
          i := 0;
        }
        if i == idx {
          return Circular;
        }
        k := k + 1;
      }
    }

    method Contains(key: Word) returns (r: Status)
      requires Valid()
      ensures r == True <==> Full(key, hashFunction(key)) in Stored()
      ensures r == CircularError <==> Full(key, hashFunction(key)) !in Stored() && usedNodes == numberNodes
      ensures r == False <==> Full(key, hashFunction(key)) !in Stored() && usedNodes < numberNodes
      ensures Own() ==> (r == True <==> key in Contents())
    {
      HashedKeys(nodes[..], hashFunction, key);
      r := ContainsHashed(key, hashFunction(key));
    }

    method ContainsHashed(key: Word, hash: Word) returns (r: Status)
      requires Valid()
      ensures r == True <==> Full(key, hash) in Stored()
      ensures r == CircularError <==> Full(key, hash) !in Stored() && usedNodes == numberNodes
      ensures r == False <==> Full(key, hash) !in Stored() && usedNodes < numberNodes
    {
      var p := GetIndex(key, hash);
      ProbeDecides(nodes[..], key, hash);
      CountFilled(nodes[..], 0, nodes.Length);
      r := match p case Present(_) => True case Absent(_) => False case Circular => CircularError;
    }

    /** `__relayout_nodes`: the array is rewritten in place. */
    method RelayoutNodes(start: nat, toEnd: bool)
      requires numberNodes == nodes.Length && start <= numberNodes
      modifies nodes
      ensures nodes[..] == Pass(old(nodes[..]), start, start, toEnd)
    {
      ghost var was := nodes[..];
      var i := start;
      while i < numberNodes
        invariant start <= i <= numberNodes
        invariant Pass(nodes[..], start, i, toEnd) == Pass(was, start, start, toEnd)
      {
        if nodes[i].Full? {
          ghost var t := nodes[..];
          ProbeOfResident(t, i);
          var p := GetIndex(nodes[i].key, nodes[i].hash);
          ProbeKeyMeans(t, t[i].key, t[i].hash);
          var index := p.index;
          if i != index {
            nodes[index] := nodes[i];
            nodes[i] := Empty;
          }
          assert nodes[..] == Place(t, i, Target(t, i));
        } else if !toEnd && i != start {
          break;
        }
        i := i + 1;
      }
    }

    /** `__set_add`; `reallocs` says whether the allocator grants the doubled array when one is asked for. */
    method AddHashed(key: Word, hash: Word, reallocs: bool) returns (r: Status)
      requires Valid()
      modifies this, nodes
      ensures Valid() && (nodes == old(nodes) || fresh(nodes))
      ensures r == AlreadyPresent <==> Full(key, hash) in old(Stored())
      ensures r == MallocError <==> Full(key, hash) !in old(Stored()) && old(4 * usedNodes > numberNodes) && !reallocs
      ensures r in {True, AlreadyPresent, MallocError}
      ensures r == True ==> Stored() == old(Stored()) + {Full(key, hash)} && usedNodes == old(usedNodes) + 1
      ensures r != True ==> unchanged(this) && nodes[..] == old(nodes[..])
      ensures r == True ==>
                && numberNodes == (if old(4 * usedNodes > numberNodes) then 2 * old(numberNodes) else old(numberNodes))
                && (fresh(nodes) <==> old(4 * usedNodes > numberNodes))
      ensures old(Light()) ==> Light()
    {
      var present := ContainsHashed(key, hash);
      if present == True {
        return AlreadyPresent;
      }
      // used / number > 0.25
      if 4 * usedNodes > numberNodes {
        if !reallocs {
          return MallocError;
        }
        CountFilled(nodes[..], 0, nodes.Length);
        Grow();
      }
      r := AssignFirstOpen(key, hash);
    }

    /** The last part of `__set_add`: take the first open slot, or hand back the probe's answer. */
    method AssignFirstOpen(key: Word, hash: Word) returns (r: Status)
      requires Valid() && Full(key, hash) !in Stored() && (usedNodes + 1 == numberNodes ==> numberNodes <= 2)
      modifies this`usedNodes, nodes
      ensures r == True <==> old(usedNodes) < numberNodes
      ensures r != True ==> r == CircularError && usedNodes == old(usedNodes) && nodes[..] == old(nodes[..])
      ensures r == True ==> Valid() && Stored() == old(Stored()) + {Full(key, hash)} && usedNodes == old(usedNodes) + 1
    {
      ghost var t := nodes[..];
      var p := GetIndex(key, hash);
      ProbeDecides(t, key, hash);
      CountFilled(t, 0, |t|);
      if p.Absent? {
        AssignKeeps(t, key, hash);
        nodes[p.index] := Full(key, hash);
        assert nodes[..] == t[p.index := Full(key, hash)];
        usedNodes := usedNodes + 1;
        return True;
      }
      r := if p.Present? then True else CircularError;
    }

    method Grow()
      requires Valid()
      modifies this, nodes
      ensures Valid() && fresh(nodes)
      ensures numberNodes == 2 * old(numberNodes) && usedNodes == old(usedNodes)
      ensures Stored() == old(Stored())
    {
      ghost var was := nodes[..];
      CountFilled(was, 0, |was|);
      var grown := new Slot[2 * numberNodes](i requires 0 <= i reads this, nodes =>
        if i < nodes.Length then nodes[i] else Empty);
      nodes := grown;
      numberNodes := 2 * numberNodes;
      assert nodes[..] == Doubled(was);
      GrowKeepsAll(was);
      RelayoutNodes(0, true);
    }

    method Add(key: Word, reallocs: bool) returns (r: Status)
      requires Valid()
      modifies this, nodes
      ensures Valid() && (nodes == old(nodes) || fresh(nodes))
      ensures r == AlreadyPresent <==> Full(key, hashFunction(key)) in old(Stored())
      ensures r == MallocError <==>
                Full(key, hashFunction(key)) !in old(Stored()) && old(4 * usedNodes > numberNodes) && !reallocs
      ensures r in {True, AlreadyPresent, MallocError}
      ensures r == True ==>
                Stored() == old(Stored()) + {Full(key, hashFunction(key))} && usedNodes == old(usedNodes) + 1
      ensures r != True ==> unchanged(this) && nodes[..] == old(nodes[..])
      ensures r == True ==>
                && numberNodes == (if old(4 * usedNodes > numberNodes) then 2 * old(numberNodes) else old(numberNodes))
                && (fresh(nodes) <==> old(4 * usedNodes > numberNodes))
      ensures old(Light()) ==> Light()
      ensures r == True ==> Contents() == old(Contents()) + {key}
      ensures old(Own()) ==> Own() && (r == AlreadyPresent <==> key in old(Contents()))
    {
      HashedKeys(nodes[..], hashFunction, key);
      ghost var was := nodes[..];
      r := AddHashed(key, hashFunction(key), reallocs);
      if r == True {
        KeysAdded(was, nodes[..], Full(key, hashFunction(key)));
        HashedNodes(was, nodes[..], hashFunction);
      }
    }

    /** `set_remove`. The set is well formed again exactly when the removal was safe. */
    method Remove(key: Word) returns (r: Status)
      requires Valid()
      modifies this`usedNodes, nodes
      ensures r == True <==> Full(key, hashFunction(key)) in old(Stored())
      ensures r == CircularError <==> Full(key, hashFunction(key)) !in old(Stored()) && usedNodes == numberNodes
      ensures r == False <==> Full(key, hashFunction(key)) !in old(Stored()) && usedNodes < numberNodes
      ensures r != True ==> usedNodes == old(usedNodes) && nodes[..] == old(nodes[..])
      ensures r == True ==>
                && Stored() == old(Stored()) - {Full(key, hashFunction(key))} && usedNodes == old(usedNodes) - 1
                && (exists start: nat :: start < numberNodes
                      && old(nodes[..])[start] == Full(key, hashFunction(key))
                      && (Valid() <==> RemovalSafe(old(nodes[..]), start)))
      ensures old(Light()) ==> Light()
      ensures old(Own()) ==> Own() && (r == True <==> key in old(Contents())) && Contents() == old(Contents()) - {key}
    {
      ghost var was := nodes[..];
      HashedKeys(was, hashFunction, key);
      var p := GetIndex(key, hashFunction(key));
      ProbeDecides(was, key, hashFunction(key));
      ProbeKeyMeans(was, key, hashFunction(key));
      CountFilled(was, 0, |was|);
      if !p.Present? {
        return if p.Circular? then CircularError else False;
      }
      RemoveExactly(was, p.index);
      nodes[p.index] := Empty;
      assert nodes[..] == was[p.index := Empty];
      RelayoutNodes(p.index, false);
      usedNodes := usedNodes - 1;
      KeysRemoved(was, nodes[..], hashFunction, key);
      return True;
    }
  }

  lemma KeysAdded(t: Table, t': Table, s: Slot)
    requires s.Full? && Nodes(t') == Nodes(t) + {s}
    ensures Keys(t') == Keys(t) + {s.key}
  {
  }

  /** Whether the hashes are true is a matter of the nodes alone. */
  lemma HashedNodes(t: Table, t': Table, hf: Word -> Word)
    ensures Hashed(t, hf) <==> forall x :: x in Nodes(t) && x.Full? ==> x.hash == hf(x.key)
    ensures Hashed(t', hf) <==> forall x :: x in Nodes(t') && x.Full? ==> x.hash == hf(x.key)
  {
    assert forall j :: 0 <= j < |t| && t[j].Full? ==> t[j] in Nodes(t);
    assert forall j :: 0 <= j < |t'| && t'[j].Full? ==> t'[j] in Nodes(t');
  }

  lemma KeysRemoved(t: Table, t': Table, hf: Word -> Word, key: Word)
    requires Nodes(t') == Nodes(t) - {Full(key, hf(key))}
    ensures Hashed(t, hf) ==> Hashed(t', hf) && Keys(t') == Keys(t) - {key}
  {
    HashedNodes(t, t', hf);
  }

  /** Writing a new node into the empty slot its probe ends at. */
  lemma AssignKeeps(t: Table, key: Word, hash: Word)
    requires WellFormed(t) && ProbeKey(t, key, hash).Absent?
    ensures var i := ProbeKey(t, key, hash).index;
            && i < |t| && t[i].Empty?
            && WellFormed(t[i := Full(key, hash)])
            && Nodes(t[i := Full(key, hash)]) == Nodes(t) + {Full(key, hash)}
            && Count(t[i := Full(key, hash)], 0, |t|) == Count(t, 0, |t|) + 1
  {
    ProbeKeyMeans(t, key, hash);
    ProbeDecides(t, key, hash);
    var i := ProbeKey(t, key, hash).index;
    var s := Full(key, hash);
    var t' := t[i := s];
    CountUpdate(t, 0, |t|, i, s);
    forall j | 0 <= j < |t|
      ensures Found(t', j)
    {
      if j != i { assert Found(t, j); }
    }
    assert forall j :: 0 <= j < |t| && t[j].Full? ==> t[j] in Nodes(t);
    assert t'[i] == s;
    forall x | x in Nodes(t)
      ensures x in Nodes(t')
    {
      var j :| 0 <= j < |t| && t[j].Full? && t[j] == x;
      assert t'[j] == x;
    }
  }
}
