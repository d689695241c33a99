/**
  rq_update of server_code/shinjuku/track_us/dispatch.h: requests of several packets wait on a doubly linked list
  of cells until their last packet is there. The list is rewritten in place; `Update` says what that does to the
  pending requests in list order, and the theorem is about whole traces of packets, from any moment on.
 */
module Reassembly {
  import opened Pointers
  import opened Wrappers

  /** What rq_update reads from a packet; `parts` is pkts_length, in messages. */
  datatype Packet = Packet(id: int, client: nat, reqId: nat, seqNum: nat, parts: nat, kind: nat, us: nat)
  {
    function Key(): (nat, nat) { (client, reqId) }
  }

  /** struct request; `mbufs` has the slots that were written. */
  datatype Request = Request(parts: nat, kind: nat, us: nat, mbufs: map<nat, Packet>)

  /** struct request_cell */
  datatype Cell = Cell(remaining: nat, client: nat, reqId: nat, req: Request, next: Ptr, prev: Ptr)

  /** A pending request. */
  datatype Pending = Pending(key: (nat, nat), remaining: nat, req: Request)

  // ----- What an update does -----

  function Find(s: seq<Pending>, key: (nat, nat)): (i: nat)
    ensures i <= |s| && (i < |s| ==> s[i].key == key)
    ensures forall j :: 0 <= j < i ==> s[j].key != key
  {
    if s == [] || s[0].key == key then 0 else 1 + Find(s[1..], key)
  }

  function Started(p: Packet): Pending
  {
    Pending(p.Key(), (p.parts - 1) % 256, Request(p.parts, p.kind, p.us, map[p.seqNum := p]))
  }

  /** `pkts_remaining` is 8 bits wide. */
  function Received(x: Pending, p: Packet): Pending
  {
    x.(remaining := (x.remaining - 1) % 256, req := x.req.(mbufs := x.req.mbufs[p.seqNum := p]))
  }

  function Update(s: seq<Pending>, p: Packet): (seq<Pending>, Option<Request>)
  {
    if p.parts == 1 then (s, Some(Request(1, p.kind, p.us, map[0 := p])))
    else
      var i := Find(s, p.Key());
      if i == |s| then ([Started(p)] + s, None)
      else
        var x := Received(s[i], p);
        if x.remaining == 0 then (s[..i] + s[i + 1..], Some(x.req)) else (s[i := x], None)
  }

  // ----- Traces -----

  /** What is pending after a trace that finds `s` pending. */
  function After(s: seq<Pending>, ps: seq<Packet>): seq<Pending>
  {
    if ps == [] then s else Update(After(s, ps[..|ps| - 1]), ps[|ps| - 1]).0
  }

  /** What the call for packet `i` of the trace returns. */
  function Output(s: seq<Pending>, ps: seq<Packet>, i: nat): Option<Request>
    requires i < |ps|
  {
    Update(After(s, ps[..i]), ps[i]).1
  }

  /** Nothing is pending for the request `key`. */
  ghost predicate Clear(s: seq<Pending>, key: (nat, nat))
  {
    Distinct(s) && Lookup(s, key) == None
  }

  /** The packets of one request in a trace, by sequence number. */
  function Parts(ps: seq<Packet>, key: (nat, nat)): map<nat, Packet>
  {
    if ps == [] then map[]
    else
      var p := ps[|ps| - 1];
      var m := Parts(ps[..|ps| - 1], key);
      if p.Key() == key then m[p.seqNum := p] else m
  }

  /** How many packets of a request there are in a trace. */
  function Count(ps: seq<Packet>, key: (nat, nat)): nat
  {
    if ps == [] then 0 else Count(ps[..|ps| - 1], key) + if ps[|ps| - 1].Key() == key then 1 else 0
  }

  /** The packets of the request `key` say that it has `n` parts, there are no more than `n` of them, and their numbers
      are inside the array. */
  ghost predicate Proper(ps: seq<Packet>, key: (nat, nat), n: nat)
  {
    && 1 <= n <= 7 && Count(ps, key) <= n
    && forall i :: 0 <= i < |ps| && ps[i].Key() == key ==> ps[i].parts == n && ps[i].seqNum < 7
  }

  /** No two packets of the request have the same number. */
  ghost predicate Different(ps: seq<Packet>, key: (nat, nat))
  {
    forall i, j :: 0 <= i < j < |ps| && ps[i].Key() == key && ps[j].Key() == key ==> ps[i].seqNum != ps[j].seqNum
  }

  /** The numbers of its packets are those of its parts. */
  ghost predicate InRange(ps: seq<Packet>, key: (nat, nat), n: nat)
  {
    forall i :: 0 <= i < |ps| && ps[i].Key() == key ==> ps[i].seqNum < n
  }

  /** Keys are pending once. */
  ghost predicate Distinct(s: seq<Pending>)
  {
    forall i, j :: 0 <= i < j < |s| ==> s[i].key != s[j].key
  }

  lemma UpdateDistinct(s: seq<Pending>, p: Packet)
    requires Distinct(s)
    ensures Distinct(Update(s, p).0)
  {
  }

  lemma {:induction false} AfterDistinct(s: seq<Pending>, ps: seq<Packet>)
    requires Distinct(s)
    ensures Distinct(After(s, ps))
  {
    if ps != [] {
      AfterDistinct(s, ps[..|ps| - 1]);
      UpdateDistinct(After(s, ps[..|ps| - 1]), ps[|ps| - 1]);
    }
  }

  /** The pending entry of a key. */
  ghost function Lookup(s: seq<Pending>, key: (nat, nat)): Option<Pending>
  {
    if Find(s, key) < |s| then Some(s[Find(s, key)]) else None
  }

  lemma LookupIs(s: seq<Pending>, i: nat)
    requires Distinct(s) && i < |s|
    ensures Lookup(s, s[i].key) == Some(s[i])
  {
  }

  lemma NotThere(s: seq<Pending>, key: (nat, nat))
    requires forall i :: 0 <= i < |s| ==> s[i].key != key
    ensures Lookup(s, key) == None
  {
  }

  /** Packets of other requests leave an entry alone. */
  lemma OthersUntouched(s: seq<Pending>, p: Packet, key: (nat, nat))
    requires Distinct(s) && p.Key() != key
    ensures Lookup(Update(s, p).0, key) == Lookup(s, key)
  {
    UpdateDistinct(s, p);
    var t, j := Update(s, p).0, Find(s, key);
    var i := Find(s, p.Key());
    if j < |s| {
      var k := if |t| == |s| then j else if |t| > |s| then j + 1 else if j < i then j else j - 1;
      assert k < |t| && t[k] == s[j];
      LookupIs(t, k);
    } else {
      NotThere(t, key);
    }
  }

  function First(ps: seq<Packet>, key: (nat, nat)): Option<Packet>
  {
    if ps == [] then None
    else
      var r := First(ps[..|ps| - 1], key);
      if r == None && ps[|ps| - 1].Key() == key then Some(ps[|ps| - 1]) else r
  }

  /** Every part is the packet with that number. */
  lemma {:induction false} PartsFrom(ps: seq<Packet>, key: (nat, nat), s: nat) returns (i: nat)
    requires s in Parts(ps, key)
    ensures i < |ps| && ps[i].Key() == key && ps[i].seqNum == s && Parts(ps, key)[s] == ps[i]
  {
    var n := |ps| - 1;
    if ps[n].Key() == key && ps[n].seqNum == s {
      i := n;
    } else {
      i := PartsFrom(ps[..n], key, s);
    }
  }

  lemma {:induction false} Below(s: set<nat>, n: nat)
    requires forall x :: x in s ==> x < n
    ensures |s| <= n
    ensures |s| == n ==> forall x :: 0 <= x < n ==> x in s
  {
    if n == 0 {
      assert s == {};
    } else {
      var t := s - {n - 1};
      Below(t, n - 1);
      if n - 1 in s { assert |t| == |s| - 1; } else { assert t == s; }
    }
  }

  lemma {:induction false} CountPrefix(ps: seq<Packet>, key: (nat, nat), k: nat)
    requires k <= |ps|
    ensures Count(ps[..k], key) <= Count(ps, key)
    decreases |ps|
  {
    if k < |ps| {
      CountPrefix(ps[..|ps| - 1], key, k);
      assert ps[..|ps| - 1][..k] == ps[..k];
    } else {
      assert ps[..k] == ps;
    }
  }

  lemma ProperPrefix(ps: seq<Packet>, key: (nat, nat), n: nat, k: nat)
    requires Proper(ps, key, n) && k <= |ps|
    ensures Proper(ps[..k], key, n)
  {
    CountPrefix(ps, key, k);
  }

  /** There are as many numbers as packets exactly when no number comes twice. */
  lemma {:induction false} NumbersCounted(ps: seq<Packet>, key: (nat, nat))
    ensures |Parts(ps, key)| <= Count(ps, key)
    ensures |Parts(ps, key)| == Count(ps, key) <==> Different(ps, key)
    ensures Count(ps, key) == 0 <==> Parts(ps, key) == map[]
    decreases |ps|
  {
    if ps != [] {
      var q, p := ps[..|ps| - 1], ps[|ps| - 1];
      NumbersCounted(q, key);
      OneDifferent(ps, key);
      var m := Parts(q, key);
      assert |m| == |m.Keys| && |m[p.seqNum := p]| == |m[p.seqNum := p].Keys|;
      assert m[p.seqNum := p].Keys == m.Keys + {p.seqNum};
    }
  }

  /** The last packet's number is new exactly when it is not yet among the parts. */
  lemma OneDifferent(ps: seq<Packet>, key: (nat, nat))
    requires ps != []
    ensures var q, p := ps[..|ps| - 1], ps[|ps| - 1];
            Different(ps, key) <==> Different(q, key) && (p.Key() == key ==> p.seqNum !in Parts(q, key))
  {
    var q, p := ps[..|ps| - 1], ps[|ps| - 1];
    forall i | 0 <= i < |q| && q[i].Key() == key
      ensures q[i].seqNum in Parts(q, key)
    {
      PartsHave(q, key, i);
    }
    if p.Key() == key && p.seqNum in Parts(q, key) {
      var i := PartsFrom(q, key, p.seqNum);
      assert ps[i] == q[i] && ps[i].seqNum == ps[|ps| - 1].seqNum;
    }
  }

  lemma {:induction false} PartsHave(ps: seq<Packet>, key: (nat, nat), i: nat)
    requires i < |ps| && ps[i].Key() == key
    ensures ps[i].seqNum in Parts(ps, key)
    decreases |ps|
  {
    if i < |ps| - 1 { PartsHave(ps[..|ps| - 1], key, i); }
  }

  /** All slots of a request of `n` parts were written. */
  ghost predicate Filled(m: map<nat, Packet>, n: nat)
  {
    forall k :: 0 <= k < n ==> k in m
  }

  /** `n` packets fill all slots exactly when they have the numbers below `n`, each once. */
  lemma FilledExactly(ps: seq<Packet>, key: (nat, nat), n: nat)
    requires Count(ps, key) == n
    ensures Filled(Parts(ps, key), n) <==> Different(ps, key) && InRange(ps, key, n)
  {
    var m := Parts(ps, key);
    NumbersCounted(ps, key);
    assert |m| == |m.Keys|;
    if Filled(m, n) {
      AllBelow(m.Keys, n);
      forall i | 0 <= i < |ps| && ps[i].Key() == key
        ensures ps[i].seqNum < n
      {
        PartsHave(ps, key, i);
      }
    }
    if Different(ps, key) && InRange(ps, key, n) {
      forall k | k in m
        ensures k < n
      {
        var i := PartsFrom(ps, key, k);
      }
      Below(m.Keys, n);
    }
  }

  /** A set of at most `n` numbers with all those below `n` has no other. */
  lemma {:induction false} AllBelow(s: set<nat>, n: nat)
    requires |s| <= n && forall k :: 0 <= k < n ==> k in s
    ensures |s| == n && forall k :: k in s ==> k < n
  {
    if n > 0 {
      var t := s - {n - 1};
      assert |t| == |s| - 1;
      AllBelow(t, n - 1);
      forall k | k in s
        ensures k < n
      {
        assert k != n - 1 ==> k in t;
      }
    } else {
      assert s == {};
    }
  }

  /** What is pending of a request: nothing before its first packet and after its last, and else its parts. */
  ghost predicate PendingOk(s: seq<Pending>, ps: seq<Packet>, key: (nat, nat), n: nat)
  {
    var m, k, r, f := Parts(ps, key), Count(ps, key), Lookup(After(s, ps), key), First(ps, key);
    && (k == 0 <==> f == None)
    && (k == 0 || k == n ==> r == None)
    && (0 < k < n ==> r == Some(Pending(key, n - k, Request(n, f.value.kind, f.value.us, m))))
  }

  lemma StartsPending(s: seq<Pending>, p: Packet)
    requires Distinct(s) && Lookup(s, p.Key()) == None && 2 <= p.parts <= 7
    ensures Lookup(Update(s, p).0, p.Key()) == Some(Started(p)) && Update(s, p).1 == None
  {
    UpdateDistinct(s, p);
    LookupIs(Update(s, p).0, 0);
  }

  lemma ReceivesPending(s: seq<Pending>, p: Packet)
    requires Distinct(s) && Lookup(s, p.Key()).Some? && p.parts != 1
    ensures var x := Received(Lookup(s, p.Key()).value, p);
            && Update(s, p).1 == (if x.remaining == 0 then Some(x.req) else None)
            && Lookup(Update(s, p).0, p.Key()) == if x.remaining == 0 then None else Some(x)
  {
    UpdateDistinct(s, p);
    var i, t := Find(s, p.Key()), Update(s, p).0;
    var x := Received(s[i], p);
    if x.remaining == 0 {
      NotThere(t, p.Key());
    } else {
      LookupIs(t, i);
    }
  }

  /** The packet of a request of one part goes to slot 0, whatever its number is. */
  function Slots(ps: seq<Packet>, key: (nat, nat), n: nat, p: Packet): map<nat, Packet>
  {
    if n == 1 then map[0 := p] else Parts(ps, key)
  }

  /** The last packet of the trace, one of the request, leaves pending what it should, and its call gives what it
      should. */
  ghost predicate PartOk(s: seq<Pending>, ps: seq<Packet>, key: (nat, nat), n: nat)
  {
    && ps != [] && PendingOk(s, ps, key, n)
    && var m, f := Slots(ps, key, n, ps[|ps| - 1]), First(ps, key);
       Update(After(s, ps[..|ps| - 1]), ps[|ps| - 1]).1 ==
         if Count(ps, key) == n && f.Some? then Some(Request(n, f.value.kind, f.value.us, m)) else None
  }

  lemma FirstPart(s: seq<Pending>, ps: seq<Packet>, key: (nat, nat), n: nat)
    requires Distinct(s) && Proper(ps, key, n) && ps != [] && ps[|ps| - 1].Key() == key
    requires PendingOk(s, ps[..|ps| - 1], key, n) && Count(ps[..|ps| - 1], key) == 0
    ensures PartOk(s, ps, key, n)
  {
    var q, p := ps[..|ps| - 1], ps[|ps| - 1];
    ProperPrefix(ps, key, n, |ps| - 1);
    AfterDistinct(s, q);
    NumbersCounted(q, key);
    if n > 1 { StartsPending(After(s, q), p); }
  }

  lemma LastPacket(ps: seq<Packet>, key: (nat, nat), n: nat)
    requires Proper(ps, key, n) && ps != [] && ps[|ps| - 1].Key() == key
    ensures var q, p := ps[..|ps| - 1], ps[|ps| - 1];
            && p.parts == n && Count(ps, key) == Count(q, key) + 1 <= n
                && Parts(ps, key) == Parts(q, key)[p.seqNum := p]
            && First(ps, key) == if First(q, key) == None then Some(p) else First(q, key)
  {
  }

  lemma NextPart(s: seq<Pending>, ps: seq<Packet>, key: (nat, nat), n: nat)
    requires Distinct(s) && Proper(ps, key, n) && ps != [] && ps[|ps| - 1].Key() == key
    requires PendingOk(s, ps[..|ps| - 1], key, n) && Count(ps[..|ps| - 1], key) > 0
    ensures PartOk(s, ps, key, n)
  {
    var q, p := ps[..|ps| - 1], ps[|ps| - 1];
    LastPacket(ps, key, n);
    AfterDistinct(s, q);
    ReceivesPending(After(s, q), p);
  }

  lemma PartComes(s: seq<Pending>, ps: seq<Packet>, key: (nat, nat), n: nat)
    requires Distinct(s) && Proper(ps, key, n) && ps != [] && ps[|ps| - 1].Key() == key
    requires PendingOk(s, ps[..|ps| - 1], key, n)
    ensures PartOk(s, ps, key, n)
  {
    if Count(ps[..|ps| - 1], key) == 0 {
      FirstPart(s, ps, key, n);
    } else {
      NextPart(s, ps, key, n);
    }
  }

  /** From any moment at which the request is not pending. */
  lemma {:induction false} TracePending(s: seq<Pending>, ps: seq<Packet>, key: (nat, nat), n: nat)
    requires Clear(s, key) && Proper(ps, key, n)
    ensures PendingOk(s, ps, key, n)
  {
    if ps != [] {
      var q, p := ps[..|ps| - 1], ps[|ps| - 1];
      ProperPrefix(ps, key, n, |ps| - 1);
      TracePending(s, q, key, n);
      if p.Key() == key {
        PartComes(s, ps, key, n);
      } else {
        AfterDistinct(s, q);
        OthersUntouched(After(s, q), p, key);
      }
    }
  }

  /** Packet `j` is the first of its request in `q`. */
  ghost predicate IsFirst(q: seq<Packet>, j: nat)
    requires j < |q|
  {
    forall i :: 0 <= i < j ==> q[i].Key() != q[j].Key()
  }

  /** No later packet of its request has the number of packet `j`. */
  ghost predicate IsNewest(q: seq<Packet>, j: nat)
    requires j < |q|
  {
    forall i :: j < i < |q| ==> q[i].Key() != q[j].Key() || q[i].seqNum != q[j].seqNum
  }

  /** The slots of `m` are those with a number of a packet of the request, and each has the newest packet with it. */
  ghost predicate HasNewest(m: map<nat, Packet>, q: seq<Packet>, key: (nat, nat))
  {
    && (forall k :: k in m ==> m[k] in q && (m[k].client, m[k].reqId) == key && m[k].seqNum == k)
    && (forall j :: 0 <= j < |q| && q[j].Key() == key ==> q[j].seqNum in m)
    && (forall j :: 0 <= j < |q| && q[j].Key() == key && IsNewest(q, j) ==> m[q[j].seqNum] == q[j])
  }

  lemma {:induction false} PartsNewest(q: seq<Packet>, key: (nat, nat))
    ensures HasNewest(Parts(q, key), q, key)
  {
    forall k | k in Parts(q, key)
      ensures Parts(q, key)[k] in q && Parts(q, key)[k].Key() == key && Parts(q, key)[k].seqNum == k
    {
      var j := PartsFrom(q, key, k);
    }
    forall j | 0 <= j < |q| && q[j].Key() == key
      ensures q[j].seqNum in Parts(q, key) && (IsNewest(q, j) ==> Parts(q, key)[q[j].seqNum] == q[j])
    {
      PartsHave(q, key, j);
      if IsNewest(q, j) { NewestPart(q, key, j); }
    }
  }

  lemma {:induction false} NewestPart(q: seq<Packet>, key: (nat, nat), j: nat)
    requires j < |q| && q[j].Key() == key && IsNewest(q, j)
    ensures q[j].seqNum in Parts(q, key) && Parts(q, key)[q[j].seqNum] == q[j]
    decreases |q|
  {
    var n := |q| - 1;
    if j < n {
      var p := q[n];
      assert p.Key() != key || p.seqNum != q[j].seqNum;
      NewestPart(q[..n], key, j);
    }
  }

  lemma {:induction false} FirstIs(q: seq<Packet>, key: (nat, nat), j: nat)
    requires j < |q| && q[j].Key() == key && IsFirst(q, j)
    ensures First(q, key) == Some(q[j])
    decreases |q|
  {
    var n := |q| - 1;
    if j < n { FirstIs(q[..n], key, j); } else { NoFirst(q[..n], key); }
  }

  lemma {:induction false} NoFirst(q: seq<Packet>, key: (nat, nat))
    requires forall i :: 0 <= i < |q| ==> q[i].Key() != key
    ensures First(q, key) == None
  {
    if q != [] { NoFirst(q[..|q| - 1], key); }
  }

  /** What the call for packet `i` returns, by the packets that came. */
  lemma Returned(s: seq<Pending>, ps: seq<Packet>, key: (nat, nat), n: nat, i: nat)
    requires Clear(s, key) && Proper(ps, key, n) && i < |ps| && ps[i].Key() == key
    ensures var q, r := ps[..i + 1], Output(s, ps, i);
            && First(q, key).Some? && r.Some? == (Count(q, key) == n)
            && (r.Some? ==> r.value == Request(n, First(q, key).value.kind, First(q, key).value.us,
                                               Slots(q, key, n, ps[i])))
  {
    var q := ps[..i + 1];
    ProperPrefix(ps, key, n, i + 1);
    ProperPrefix(ps, key, n, i);
    assert q[..|q| - 1] == ps[..i];
    TracePending(s, ps[..i], key, n);
    PartComes(s, q, key, n);
  }

  lemma FirstFound(q: seq<Packet>, key: (nat, nat))
    ensures forall j :: 0 <= j < |q| && q[j].Key() == key && IsFirst(q, j) ==> First(q, key) == Some(q[j])
  {
    forall j | 0 <= j < |q| && q[j].Key() == key && IsFirst(q, j)
      ensures First(q, key) == Some(q[j])
    {
      FirstIs(q, key, j);
    }
  }

  /** Whatever was pending before and whatever other packets come in between: the calls for a request's packets
      return nothing until `n` of them have come, and then the request, with the type and the service time of the
      first and each slot with the newest packet of that number. All slots are filled if and only if the `n` packets
      had different numbers below `n`. */
  lemma Reassembled(s: seq<Pending>, ps: seq<Packet>, key: (nat, nat), n: nat, i: nat)
    requires Clear(s, key) && Proper(ps, key, n) && i < |ps| && ps[i].Key() == key
    ensures var q, r := ps[..i + 1], Output(s, ps, i);
            && r.Some? == (Count(q, key) == n)
            && (r.Some? ==>
                  && r.value.parts == n
                  && (forall j :: 0 <= j < |q| && q[j].Key() == key && IsFirst(q, j) ==>
                        r.value.kind == q[j].kind && r.value.us == q[j].us)
                  && (n > 1 ==> HasNewest(r.value.mbufs, q, key))
                  && (n > 1 ==> (Filled(r.value.mbufs, n) <==> Different(q, key) && InRange(q, key, n))))
  {
    var q := ps[..i + 1];
    Returned(s, ps, key, n, i);
    if Count(q, key) == n { FilledExactly(q, key, n); }
    PartsNewest(q, key);
    FirstFound(q, key);
  }

  /** The call for a request of one part returns it, with that packet in slot 0 whatever number it has, and leaves the
      pending requests as they were. */
  lemma OnePart(s: seq<Pending>, ps: seq<Packet>, i: nat)
    requires i < |ps| && ps[i].parts == 1
    ensures var r := Output(s, ps, i);
            && r.Some? && r.value.parts == 1 && r.value.kind == ps[i].kind && r.value.us == ps[i].us
            && r.value.mbufs == map[0 := ps[i]] && After(s, ps[..i + 1]) == After(s, ps[..i])
  {
    assert ps[..i + 1][..i] == ps[..i];
  }

  lemma OneMorePacket(q: seq<Packet>, p: Packet)
    ensures Count(q + [p], p.Key()) == Count(q, p.Key()) + 1
    ensures Parts(q + [p], p.Key()) == Parts(q, p.Key())[p.seqNum := p]
  {
    assert (q + [p])[..|q + [p]| - 1] == q;
  }

  /** A packet that comes twice: a request of two parts is returned with its second slot never written. */
  lemma Duplicated(s: seq<Pending>, p: Packet)
    requires Clear(s, p.Key()) && p.parts == 2 && p.seqNum == 0
    ensures Output(s, [p, p], 1).Some? && 1 !in Output(s, [p, p], 1).value.mbufs
  {
    var ps := [p, p];
    OneMorePacket([], p);
    OneMorePacket([p], p);
    assert [] + [p] == [p] && [p] + [p] == ps && ps[..2] == ps;
    Reassembled(s, ps, p.Key(), 2, 1);
  }

  /** A trace goes on from what a first part of it has left pending. */
  lemma {:induction false} AfterJoined(s: seq<Pending>, ps: seq<Packet>, qs: seq<Packet>)
    ensures After(s, ps + qs) == After(After(s, ps), qs)
    decreases |qs|
  {
    if qs == [] {
      assert ps + [] == ps;
    } else {
      var n := |qs| - 1;
      assert (ps + qs)[..|ps + qs| - 1] == ps + qs[..n] && (ps + qs)[|ps + qs| - 1] == qs[n];
      AfterJoined(s, ps, qs[..n]);
    }
  }

  /** Once all parts of a request are there, its number may be used again, with another number of parts if need be:
      the second request is put together like the first. */
  lemma Reused(s: seq<Pending>, ps: seq<Packet>, qs: seq<Packet>, key: (nat, nat), n: nat, n': nat, i: nat)
    requires Clear(s, key) && Proper(ps, key, n) && Count(ps, key) == n && Proper(qs, key, n')
    requires i < |qs| && qs[i].Key() == key
    ensures Output(s, ps + qs, |ps| + i) == Output(After(s, ps), qs, i) && Clear(After(s, ps), key)
    ensures Output(s, ps + qs, |ps| + i).Some? == (Count(qs[..i + 1], key) == n')
  {
    TracePending(s, ps, key, n);
    AfterDistinct(s, ps);
    Reassembled(After(s, ps), qs, key, n', i);
    assert (ps + qs)[..|ps| + i] == ps + qs[..i];
    AfterJoined(s, ps, qs[..i]);
  }

  // ----- The list -----

  ghost predicate CellAt(cells: map<nat, Cell>, order: seq<nat>, i: nat)
    requires i < |order|
  {
    order[i] in cells && cells[order[i]].next == Place(order, i + 1) && cells[order[i]].prev == Place(order, i - 1)
  }

  /** `order` lists the cells from `head` on; both links of each are right, and no cell comes twice. */
  ghost predicate Linked(cells: map<nat, Cell>, head: Ptr, order: seq<nat>)
  {
    && head == Place(order, 0)
    && (forall i {:trigger CellAt(cells, order, i)} :: 0 <= i < |order| ==> CellAt(cells, order, i))
    && (forall i, j :: 0 <= i < j < |order| ==> order[i] != order[j])
  }

  function Entry(cells: map<nat, Cell>, a: nat): Pending
  {
    if a in cells then Pending((cells[a].client, cells[a].reqId), cells[a].remaining, cells[a].req)
    else Pending((0, 0), 0, Request(0, 0, 0, map[]))
  }

  function Entries(cells: map<nat, Cell>, order: seq<nat>): (s: seq<Pending>)
    ensures |s| == |order| && forall i :: 0 <= i < |s| ==> s[i] == Entry(cells, order[i])
  {
    seq(|order|, i requires 0 <= i < |order| => Entry(cells, order[i]))
  }

  /** The cell at index `i` taken out: its neighbours are linked to each other. */
  function Unlinked(cells: map<nat, Cell>, order: seq<nat>, i: nat): map<nat, Cell>
    requires i < |order|
  {
    (map a | a in cells ::
       var c := cells[a];
       if i > 0 && a == order[i - 1] then c.(next := Place(order, i + 1))
       else if i + 1 < |order| && a == order[i + 1] then c.(prev := Place(order, i - 1))
       else c) - {order[i]}
  }

  lemma UnlinkedCell(cells: map<nat, Cell>, head: Ptr, order: seq<nat>, i: nat, k: nat)
    requires Linked(cells, head, order) && i < |order| && k < |order| - 1
    ensures var o, u := order[..i] + order[i + 1..], Unlinked(cells, order, i);
            CellAt(u, o, k) && Entry(u, o[k]) == Entry(cells, order[if k < i then k else k + 1])
  {
    var j := if k < i then k else k + 1;
    var o := order[..i] + order[i + 1..];
    assert o[k] == order[j] && CellAt(cells, order, j);
    assert o[k] != order[i];
  }

  lemma UnlinkedOk(cells: map<nat, Cell>, head: Ptr, order: seq<nat>, i: nat)
    requires Linked(cells, head, order) && i < |order|
    ensures var o, u := order[..i] + order[i + 1..], Unlinked(cells, order, i);
            && Linked(u, if i == 0 then Place(order, 1) else head, o)
            && Entries(u, o) == Entries(cells, order)[..i] + Entries(cells, order)[i + 1..]
  {
    var o, u := order[..i] + order[i + 1..], Unlinked(cells, order, i);
    var s, t := Entries(u, o), Entries(cells, order)[..i] + Entries(cells, order)[i + 1..];
    forall k | 0 <= k < |o|
      ensures CellAt(u, o, k) && s[k] == t[k]
    {
      UnlinkedCell(cells, head, order, i, k);
    }
    assert s == t;
  }

  function Pushed(cells: map<nat, Cell>, order: seq<nat>, a: nat, c: Cell): map<nat, Cell>
  {
    (if order == [] then cells else cells[order[0] := Behind(cells, order[0], a)])[a := c]
  }

  lemma PushedCell(cells: map<nat, Cell>, head: Ptr, order: seq<nat>, a: nat, c: Cell, k: nat)
    requires Linked(cells, head, order) && a !in cells && c.next == head && c.prev == Null && k <= |order|
    ensures CellAt(Pushed(cells, order, a, c), [a] + order, k)
    ensures k > 0 ==> order[k - 1] != a && Entry(Pushed(cells, order, a, c), order[k - 1]) == Entry(cells, order[k - 1])
  {
    var o := [a] + order;
    if k > 0 {
      assert CellAt(cells, order, k - 1);
      assert o[k] == order[k - 1];
      if k > 1 { assert o[k - 1] == order[k - 2]; }
      if k < |order| { assert o[k + 1] == order[k]; }
    }
  }

  lemma NotTwice(order: seq<nat>, a: nat)
    requires forall i, j :: 0 <= i < j < |order| ==> order[i] != order[j]
    requires forall k :: 0 <= k < |order| ==> order[k] != a
    ensures forall i, j :: 0 <= i < j < |[a] + order| ==> ([a] + order)[i] != ([a] + order)[j]
  {
  }

  lemma EntriesCons(cells: map<nat, Cell>, u: map<nat, Cell>, order: seq<nat>, a: nat)
    requires forall k :: 0 <= k < |order| ==> Entry(u, order[k]) == Entry(cells, order[k])
    ensures Entries(u, [a] + order) == [Entry(u, a)] + Entries(cells, order)
  {
  }

  lemma PushedOk(cells: map<nat, Cell>, head: Ptr, order: seq<nat>, a: nat, c: Cell)
    requires Linked(cells, head, order) && a !in cells && c.next == head && c.prev == Null
    ensures var u := Pushed(cells, order, a, c);
            && Linked(u, At(a), [a] + order)
            && Entries(u, [a] + order) == [Pending((c.client, c.reqId), c.remaining, c.req)] + Entries(cells, order)
  {
    var u, o := Pushed(cells, order, a, c), [a] + order;
    forall k | 0 <= k < |o|
      ensures CellAt(u, o, k)
    {
      PushedCell(cells, head, order, a, c, k);
    }
    forall k | 0 <= k < |order|
      ensures order[k] != a && Entry(u, order[k]) == Entry(cells, order[k])
    {
      PushedCell(cells, head, order, a, c, k + 1);
    }
    NotTwice(order, a);
    EntriesCons(cells, u, order, a);
  }

  /** cells[b] with its prev link turned to `a`. */
  function Behind(cells: map<nat, Cell>, b: nat, a: nat): Cell
  {
    if b in cells then cells[b].(prev := At(a)) else Cell(0, 0, 0, Request(0, 0, 0, map[]), Null, At(a))
  }

  lemma ReplacedOk(cells: map<nat, Cell>, head: Ptr, order: seq<nat>, i: nat, c: Cell)
    requires Linked(cells, head, order) && i < |order| && order[i] in cells
    requires c.next == cells[order[i]].next && c.prev == cells[order[i]].prev
    ensures var u := cells[order[i] := c];
            Linked(u, head, order) && Entries(u, order) ==
                  Entries(cells, order)[i := Pending((c.client, c.reqId), c.remaining, c.req)]
  {
    var u := cells[order[i] := c];
    forall k | 0 <= k < |order|
      ensures CellAt(u, order, k)
    {
      assert CellAt(cells, order, k);
    }
    assert Entries(u, order) == Entries(cells, order)[i := Pending((c.client, c.reqId), c.remaining, c.req)];
  }

  class RequestQueue {
    var cells: map<nat, Cell>
    var head: Ptr
    ghost var order: seq<nat>

    ghost predicate Valid()
      reads this
    {
      Linked(cells, head, order)
    }

    ghost function Contents(): seq<Pending>
      reads this
    {
      Entries(cells, order)
    }

    constructor ()
      ensures Valid() && Contents() == []
    {
      cells, head, order := map[], Null, [];
    }

    /** rq_update; `cell` is the cell the pool gives for a new request. */
    method RqUpdate(pkt: Packet, cell: nat) returns (r: Option<Request>)
      requires Valid() && cell !in cells
      modifies this
      ensures Valid() && (Contents(), r) == Update(old(Contents()), pkt)
    {
      if pkt.parts == 1 {
        return Some(Request(1, pkt.kind, pkt.us, map[0 := pkt]));
      }
      var cur := head;
      ghost var i := 0;
      while cur.At?
        invariant 0 <= i <= |order| && cur == Place(order, i) && Valid()
        invariant forall j :: 0 <= j < i ==> Contents()[j].key != pkt.Key()
        decreases |order| - i
      {
        assert CellAt(cells, order, i);
        if cells[cur.a].client == pkt.client && cells[cur.a].reqId == pkt.reqId {
          FoundAt(Contents(), pkt.Key(), i);
          r := Receive(pkt, cur.a, i);
          return;
        }
        cur := cells[cur.a].next;
        i := i + 1;
      }
      FoundAt(Contents(), pkt.Key(), |order|);
      Start(pkt, cell);
      return None;
    }

    /** A packet for a request that is not pending: a new cell at the head. */
    method Start(pkt: Packet, cell: nat)
      requires Valid() && cell !in cells
      modifies this
      ensures Valid() && Contents() == [Started(pkt)] + old(Contents())
    {
      var rc := Cell((pkt.parts - 1) % 256, pkt.client, pkt.reqId,
                     Request(pkt.parts, pkt.kind, pkt.us, map[pkt.seqNum := pkt]), head, Null);
      PushedOk(cells, head, order, cell, rc);
      if head.At? {
        assert CellAt(cells, order, 0);
        cells := cells[head.a := cells[head.a].(prev := At(cell))];
      }
      cells := cells[cell := rc];
      head := At(cell);
      order := [cell] + order;
    }

    /** A packet for the pending request in cell `a`; the last packet takes the cell off the list. */
    method Receive(pkt: Packet, a: nat, ghost i: nat) returns (r: Option<Request>)
      requires Valid() && i < |order| && order[i] == a && a in cells
      modifies this
      ensures var x := Received(old(Contents()[i]), pkt);
              && Valid() && r == (if x.remaining == 0 then Some(x.req) else None)
              && Contents() ==
                 if x.remaining == 0 then old(Contents()[..i] + Contents()[i + 1..]) else old(Contents())[i := x]
    {
      var c := cells[a];
      c := c.(req := c.req.(mbufs := c.req.mbufs[pkt.seqNum := pkt]), remaining := (c.remaining - 1) % 256);
      ReplacedOk(cells, head, order, i, c);
      cells := cells[a := c];
      if c.remaining != 0 {
        return None;
      }
      Remove(a, i);
      return Some(c.req);
    }

    method Remove(a: nat, ghost i: nat)
      requires Valid() && i < |order| && order[i] == a && a in cells
      modifies this
      ensures Valid() && Contents() == old(Contents()[..i] + Contents()[i + 1..])
    {
      UnlinkedOk(cells, head, order, i);
      ghost var u := Unlinked(cells, order, i);
      var c := cells[a];
      assert CellAt(cells, order, i);
      if i > 0 { assert CellAt(cells, order, i - 1); }
      if i + 1 < |order| { assert CellAt(cells, order, i + 1); }
      if c.prev == Null {
        head := c.next;
        if head.At? {
          cells := cells[head.a := cells[head.a].(prev := Null)];
        }
      } else {
        cells := cells[c.prev.a := cells[c.prev.a].(next := c.next)];
        if c.next.At? {
          cells := cells[c.next.a := cells[c.next.a].(prev := c.prev)];
        }
      }
      cells := cells - {a};
      assert cells == u;
      order := order[..i] + order[i + 1..];
    }
  }

  lemma FoundAt(s: seq<Pending>, key: (nat, nat), i: nat)
    requires i <= |s| && (i < |s| ==> s[i].key == key) && forall j :: 0 <= j < i ==> s[j].key != key
    ensures Find(s, key) == i
  {
  }
}
