/**
  The callers of the checksum loop in inet_chksum.c: one buffer, a chain of pbufs, and the pseudo-header
  sums of TCP and UDP. A chain is its sequence of payloads, each at its own address.
 */
module ChainChecksum {
  import opened Widths
  import opened OnesComplement
  import opened Checksum

  /** The payload of one pbuf and whether it starts at an odd address; `len` is a u16_t. */
  datatype Segment = Segment(bytes: seq<Byte>, odd: bool)

  type Chain = c: seq<Segment> | forall i :: 0 <= i < |c| ==> |c[i].bytes| <= 0xffff

  function Flatten(c: seq<Segment>): seq<Byte>
  {
    if |c| == 0 then [] else Flatten(c[..|c| - 1]) + c[|c| - 1].bytes
  }

  /** Bitwise not of a u16_t. */
  function Not16(w: nat): (r: nat)
    requires w <= 0xffff
    ensures r <= 0xffff
  {
    0xffff - w
  }

  method InetChksum(data: seq<Byte>, odd: bool) returns (r: nat)
    requires |data| <= 0xffff
    ensures r + OnesSum(data) == 0xffff
  {
    var sum := ChecksumV2(data, odd);
    r := Not16(sum);
  }

  /** The accumulator of the chain loops: kept byte-swapped while `swapped` is set. */
  ghost predicate Accumulates(acc: nat, swapped: bool, base: nat, seen: seq<Byte>)
  {
    acc <= 0xffff && (if swapped then Swap16(acc) else acc) == Residue(base + WordSum(seen))
  }

  lemma SwapBack(w: nat)
    requires w <= 0xffff
    ensures Swap16(Swap16(w)) == w
  {
    var high, low := w / 256, w % 256;
    assert Swap16(w) == 256 * low + high;
    assert Swap16(w) / 256 == low && Swap16(w) % 256 == high;
  }

  /** A turn without its swap leaves the sum right either way, and so does a swap that is recorded. */
  lemma SwapRecorded(acc: nat, swapped: bool, base: nat, seen: seq<Byte>)
    requires Accumulates(acc, swapped, base, seen)
    ensures Accumulates(Swap16(acc), !swapped, base, seen)
  {
    SwapBack(acc);
  }

  /** Swapped arithmetic: a payload after an odd number of bytes adds its plain sum to the swapped total. */
  lemma AddSwapped(u: nat, v: nat, w: nat)
    requires Residue(w) == Residue(u + 256 * v)
    ensures Residue(256 * u + v) == Residue(256 * w)
  {
    ResidueTimes256(w);
    ResidueTimes256(u + 256 * v);
    var z := 256 * u + v;
    assert 256 * (u + 256 * v) == z + 0xffff * v;
    if 0 < z { ResidueMany(z, v); }
  }

  lemma ResidueSum(x: nat, y: nat)
    ensures Residue(Residue(x) + Residue(y)) == Residue(x + y)
  {
    ResidueAdd(x, Residue(y));
    ResidueAdd(y, x);
  }

  lemma SwappedTurn(acc: nat, u: nat, v: nat, w: nat)
    requires acc <= 0xffff && Swap16(acc) == Residue(u) && Residue(w) == Residue(u + 256 * v)
    ensures Fold(acc + Residue(v)) <= 0xffff && Swap16(Fold(acc + Residue(v))) == Residue(w)
  {
    SwappedSum(acc, u, v);
    AddSwapped(u, v, w);
    SwappedTwice(w);
  }

  lemma SwappedSum(acc: nat, u: nat, v: nat)
    requires acc <= 0xffff && Swap16(acc) == Residue(u)
    ensures Fold(acc + Residue(v)) == Residue(256 * u + v)
  {
    SwapBack(acc);
    SwapResidue(u);
    FoldOnce(acc + Residue(v));
    ResidueSum(256 * u, v);
  }

  lemma SwappedTwice(w: nat)
    ensures Swap16(Residue(256 * w)) == Residue(w)
  {
    SwapResidue(256 * w);
    ResidueTwice256(w);
  }

  lemma WordsAfterOdd(base: nat, seen: seq<Byte>, next: seq<Byte>)
    requires |seen| % 2 == 1
    ensures Residue(base + WordSum(seen + next)) == Residue(base + WordSum(seen) + 256 * WordSum(next))
  {
    WordSumOdd(seen, next, base);
    Regrouped(base, WordSum(seen), WordSum(next));
  }

  lemma Regrouped(x: nat, y: nat, z: nat)
    ensures x + (y + 256 * z) == x + y + 256 * z
  {
  }

  lemma NextAfterOdd(acc: nat, base: nat, seen: seq<Byte>, next: seq<Byte>)
    requires Accumulates(acc, true, base, seen) && |seen| % 2 == 1
    ensures Accumulates(Fold(acc + OnesSum(next)), true, base, seen + next)
  {
    WordsAfterOdd(base, seen, next);
    SwappedTurn(acc, base + WordSum(seen), WordSum(next), base + WordSum(seen + next));
  }

  /** One turn of the chain loops: adding the sum of the next payload, whatever its length. */
  lemma NextSegment(acc: nat, swapped: bool, base: nat, seen: seq<Byte>, next: seq<Byte>)
    requires Accumulates(acc, swapped, base, seen) && swapped == (|seen| % 2 == 1)
    ensures Accumulates(Fold(acc + OnesSum(next)), swapped, base, seen + next)
  {
    if swapped {
      NextAfterOdd(acc, base, seen, next);
    } else {
      FoldOnce(acc + OnesSum(next));
      ResidueSum(base + WordSum(seen), WordSum(next));
      WordSumEven(seen, next);
    }
  }

  /** The loop body the chain walks share: `used` bytes of a payload of length `len` are added, and the
      accumulator is swapped when `len` is odd. */
  method AddPayload(acc: nat, swapped: bool, used: seq<Byte>, odd: bool, len: nat, ghost base: nat,
                    ghost seen: seq<Byte>)
    returns (acc': nat, swapped': bool)
    requires Accumulates(acc, swapped, base, seen) && swapped == (|seen| % 2 == 1)
    requires |used| <= 0xffff
    ensures Accumulates(acc', swapped', base, seen + used)
    ensures swapped' == if len % 2 == 1 then !swapped else swapped
  {
    var sum := ChecksumV2(used, odd);
    NextSegment(acc, swapped, base, seen, used);
    acc', swapped' := Fold(acc + sum), swapped;
    if len % 2 != 0 {
      SwapRecorded(acc', swapped', base, seen + used);
      swapped' := !swapped';
      acc' := Swap16(acc');
    }
  }

  lemma FlattenNext(c: seq<Segment>, i: nat)
    requires i < |c|
    ensures Flatten(c[..i + 1]) == Flatten(c[..i]) + c[i].bytes
  {
    assert c[..i + 1][..i] == c[..i];
  }

  /** `inet_chksum_pbuf`: for any segmentation, odd lengths and any alignment, the checksum of the
      concatenated bytes. */
  method InetChksumPbuf(chain: Chain) returns (r: nat)
    ensures r + OnesSum(Flatten(chain)) == 0xffff
  {
    var acc: nat, swapped, i: nat := 0, false, 0;
    ghost var seen: seq<Byte> := [];
    while i < |chain|
      invariant 0 <= i <= |chain| && seen == Flatten(chain[..i])
      invariant Accumulates(acc, swapped, 0, seen) && swapped == (|seen| % 2 == 1)
    {
      var q := chain[i];
      acc, swapped := AddPayload(acc, swapped, q.bytes, q.odd, |q.bytes|, 0, seen);
      FlattenNext(chain, i);
      seen := seen + q.bytes;
      i := i + 1;
    }
    assert chain[..|chain|] == chain;
    if swapped {
      acc := Swap16(acc);
    }
    r := Not16(acc);
  }

  /** `inet_cksum_pseudo_partial_base`: the first `chksumLen` bytes of the chain, an initial sum for the
      addresses, the protocol and the length. The last payload may be cut short; its own length still
      decides the swap, which is then undone. */
  method PseudoPartialBase(chain: Chain, proto: nat, protoLen: nat, chksumLen: nat, base: nat) returns (r: nat)
    requires proto <= 0xff && protoLen <= 0xffff && chksumLen <= 0xffff && base <= 0xffff
    ensures var all := Flatten(chain);
            var summed := if chksumLen < |all| then all[..chksumLen] else all;
            var words := 256 * proto + (protoLen % 256 * 256 + protoLen / 256);
            r + Residue(base + WordSum(summed) + words) == 0xffff
  {
    var acc := PartialSum(chain, chksumLen, base);
    PseudoWords(proto, protoLen);
    r := FinishPseudo(acc, base + WordSum(Upto(Flatten(chain), chksumLen)), proto, protoLen);
  }

  function Upto(s: seq<Byte>, n: nat): seq<Byte>
  {
    if n < |s| then s[..n] else s
  }

  lemma UptoIs(s: seq<Byte>, left: nat, n: nat)
    requires n == if |s| > left then left else |s|
    ensures s[..n] == Upto(s, left)
  {
  }

  /** What one turn adds to the bytes summed so far, when at most `left` more are wanted. */
  lemma PartialNext(chain: Chain, i: nat, seen: seq<Byte>, left: nat)
    requires i < |chain| && seen == Flatten(chain[..i])
    ensures var bytes := chain[i].bytes;
            && seen + Upto(bytes, left) <= Flatten(chain)
            && (|bytes| < left ==> seen + Upto(bytes, left) == Flatten(chain[..i + 1]))
  {
    FlattenNext(chain, i);
    FlattenPrefix(chain, i + 1);
  }

  lemma PartialDone(chain: Chain, i: nat, seen: seq<Byte>, left: nat, want: nat)
    requires i <= |chain| && |seen| + left == want && seen <= Flatten(chain)
    requires left > 0 ==> i == |chain| && seen == Flatten(chain[..i])
    ensures seen == Upto(Flatten(chain), want)
  {
    assert chain[..|chain|] == chain;
  }

  method PartialSum(chain: Chain, chksumLen: nat, base: nat) returns (acc: nat)
    requires chksumLen <= 0xffff && base <= 0xffff
    ensures acc == Residue(base + WordSum(Upto(Flatten(chain), chksumLen)))
  {
    var swapped: bool;
    acc, swapped := PartialLoop(chain, chksumLen, base);
    if swapped {
      acc := Swap16(acc);
    }
  }

  method PartialLoop(chain: Chain, chksumLen: nat, base: nat) returns (acc: nat, swapped: bool)
    requires chksumLen <= 0xffff && base <= 0xffff
    ensures Accumulates(acc, swapped, base, Upto(Flatten(chain), chksumLen))
  {
    var left: nat, i: nat := chksumLen, 0;
    swapped := false;
    acc := base;
    ghost var seen: seq<Byte> := [];
    while i < |chain| && left > 0
      invariant 0 <= i <= |chain| && |seen| + left == chksumLen
      invariant Accumulates(acc, swapped, base, seen)
      invariant left > 0 ==> seen == Flatten(chain[..i]) && swapped == (|seen| % 2 == 1)
      invariant seen <= Flatten(chain)
    {
      var q := chain[i];
      var chklen := if |q.bytes| > left then left else |q.bytes|;
      ghost var part := Upto(q.bytes, left);
      PartialNext(chain, i, seen, left);
      UptoIs(q.bytes, left, chklen);
      acc, swapped := AddPayload(acc, swapped, q.bytes[..chklen], q.odd, |q.bytes|, base, seen);
      left := left - chklen;
      seen := seen + part;
      i := i + 1;
    }
    PartialDone(chain, i, seen, left, chksumLen);
  }

  lemma PseudoWords(proto: nat, protoLen: nat)
    requires proto <= 0xff && protoLen <= 0xffff
    ensures Swap16(proto) + Swap16(protoLen) == 256 * proto + (protoLen % 256 * 256 + protoLen / 256)
  {
  }

  /** Protocol and length are added in network order, then two folds. */
  method FinishPseudo(acc: nat, ghost total: nat, proto: nat, protoLen: nat) returns (r: nat)
    requires acc == Residue(total) && proto <= 0xff && protoLen <= 0xffff
    ensures r + Residue(total + (Swap16(proto) + Swap16(protoLen))) == 0xffff
  {
    var a := acc + Swap16(proto);
    a := a + Swap16(protoLen);
    ResidueAdd(total, Swap16(proto) + Swap16(protoLen));
    FoldTwice(a);
    r := Not16(Fold(Fold(a)));
  }

  lemma {:induction false} FlattenPrefix(c: seq<Segment>, i: nat)
    requires i <= |c|
    ensures Flatten(c[..i]) <= Flatten(c)
    decreases |c| - i
  {
    if i < |c| {
      FlattenPrefix(c, i + 1);
      FlattenNext(c, i);
    } else {
      assert c[..i] == c;
    }
  }

  /** addl, then the carry it leaves for the next adcl. */
  function AddWithCarry(x: nat, y: nat, carry: nat): (r: (nat, nat))
    requires x < WRAP32 && y < WRAP32 && carry <= 1
    ensures r.0 < WRAP32 && r.1 <= 1 && r.0 + WRAP32 * r.1 == x + y + carry
  {
    var sum := x + y + carry;
    if sum < WRAP32 then (sum, 0) else (sum - WRAP32, 1)
  }

  /** `in_pseudo`: three 32-bit words added with carry, then folded to 16 bits. */
  function InPseudo(sum: nat, b: nat, c: nat): nat
    requires sum < WRAP32 && b < WRAP32 && c < WRAP32
  {
    var (s1, carry1) := AddWithCarry(sum, b, 0);
    var (s2, carry2) := AddWithCarry(s1, c, carry1);
    var (s3, _) := AddWithCarry(s2, 0, carry2);
    if Fold(s3) > 0xffff then Fold(s3) - 0xffff else Fold(s3)
  }

  /** The last add absorbs the second carry without producing a third, so no carry is lost. */
  lemma InPseudoMeans(sum: nat, b: nat, c: nat)
    requires sum < WRAP32 && b < WRAP32 && c < WRAP32
    ensures InPseudo(sum, b, c) == Residue(sum + b + c)
  {
    var (s1, carry1) := AddWithCarry(sum, b, 0);
    var (s2, carry2) := AddWithCarry(s1, c, carry1);
    var s3 := s2 + carry2;
    ResidueFold(s3);
    FoldSmall(s3);
    assert sum + b + c == s3 + 0xffff * (0x10001 * (carry1 + carry2));
    if 0 < s3 { ResidueMany(s3, 0x10001 * (carry1 + carry2)); }
  }

  lemma FoldSmall(u: nat)
    requires u < WRAP32
    ensures Fold(u) <= 0x1fffe
  {
  }

  /** A checksum stored at an even offset, as a little-endian host stores a u16_t. */
  function Store(data: seq<Byte>, at: nat, c: nat): (s: seq<Byte>)
    requires at % 2 == 0 && at + 2 <= |data| && c <= 0xffff
    ensures |s| == |data|
  {
    data[at := c % 256][at + 1 := c / 256]
  }

  lemma {:induction false} StoreSum(data: seq<Byte>, at: nat, c: nat)
    requires at % 2 == 0 && at + 2 <= |data| && c <= 0xffff && data[at] == 0 && data[at + 1] == 0
    ensures WordSum(Store(data, at, c)) == WordSum(data) + c
    decreases at
  {
    var s := Store(data, at, c);
    if at == 0 {
      assert s[2..] == data[2..];
    } else {
      assert s[2..] == Store(data[2..], at - 2, c);
      StoreSum(data[2..], at - 2, c);
    }
  }

  /** A checksum in a zero field: the sum of the whole becomes 0xffff, so that its own checksum is 0, with the one
      computed over the zero field, with its other form when that is 0, and with no other. */
  lemma StoredChecksumVerifies(data: seq<Byte>, at: nat, c: nat)
    requires at % 2 == 0 && at + 2 <= |data| && c <= 0xffff && data[at] == 0 && data[at + 1] == 0
    ensures OnesSum(data[at := c % 256][at + 1 := c / 256]) == 0xffff <==>
            c + OnesSum(data) == 0xffff || (c == 0xffff && OnesSum(data) == 0xffff)
  {
    var x := WordSum(data);
    StoreSum(data, at, c);
    ResidueAdd(x, c);
  }

  /** What the sum is: modulo 0xffff that of the words, and zero only if all bytes are. */
  lemma OnesSumExactly(s: seq<Byte>, r: nat)
    ensures r == OnesSum(s) <==>
            && r <= 0xffff && (r == 0 <==> forall i :: 0 <= i < |s| ==> s[i] == 0)
            && exists k: nat :: WordSum(s) == r + 0xffff * k
  {
    WordSumZero(s);
    ResidueQuotient(WordSum(s));
    if r <= 0xffff && (r == 0 <==> WordSum(s) == 0) && exists k: nat :: WordSum(s) == r + 0xffff * k {
      var k: nat :| WordSum(s) == r + 0xffff * k;
      if r > 0 { ResidueMany(r, k); }
    }
  }

  lemma {:induction false} ResidueQuotient(x: nat)
    ensures exists k: nat :: x == Residue(x) + 0xffff * k
  {
    if x <= 0xffff {
      assert x == Residue(x) + 0xffff * 0;
    } else {
      ResidueQuotient(x - 0xffff);
      var k: nat :| x - 0xffff == Residue(x - 0xffff) + 0xffff * k;
      assert x == Residue(x) + 0xffff * (k + 1);
    }
  }

  /** The example of section 3 of RFC 1071, ddf2 in network order, and a last odd byte counts as if a zero followed. */
  lemma SumExample(s: seq<Byte>)
    ensures OnesSum([0x00, 0x01, 0xf2, 0x03, 0xf4, 0xf5, 0xf6, 0xf7]) == 0xf2dd
    ensures |s| % 2 == 1 ==> OnesSum(s + [0]) == OnesSum(s)
  {
    var t: seq<Byte> := [0x00, 0x01, 0xf2, 0x03, 0xf4, 0xf5, 0xf6, 0xf7];
    assert t[2..] == [0xf2, 0x03, 0xf4, 0xf5, 0xf6, 0xf7] && t[2..][2..] == [0xf4, 0xf5, 0xf6, 0xf7];
    assert t[2..][2..][2..] == [0xf6, 0xf7] && WordSum(t[2..][2..][2..]) == 0xf7f6;
    if |s| % 2 == 1 { OddPadded(s); }
  }

  lemma {:induction false} OddPadded(s: seq<Byte>)
    requires |s| % 2 == 1
    ensures WordSum(s + [0]) == WordSum(s)
  {
    if |s| >= 2 {
      assert (s + [0])[2..] == s[2..] + [0];
      OddPadded(s[2..]);
    }
  }
}
