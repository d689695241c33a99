/**
  server_code/shinjuku-rocksdb/dp/lwip/inet_chksum.c: the three versions of the checksum loop, with the
  32-bit accumulator written out.
 */
module Checksum {
  import opened Widths
  import opened OnesComplement

  /** What two byte loads at an odd address leave for version 2 to add up: the first byte as a high byte,
      the rest in words. */
  function AlignedSum(s: seq<Byte>, odd: bool): nat
  {
    if odd && |s| > 0 then 256 * s[0] + WordSum(s[1..]) else WordSum(s)
  }

  /** Un-swapping the aligned sum of a buffer at an odd address gives the sum of the buffer. */
  lemma AlignedSumMeans(s: seq<Byte>, odd: bool)
    ensures Residue(if odd then 256 * AlignedSum(s, odd) else AlignedSum(s, odd)) == OnesSum(s)
  {
    if odd && |s| > 0 {
      assert s == [s[0]] + s[1..];
      WordSumShift(s[0], s[1..], 0);
      var z := s[0] as nat + 256 * WordSum(s[1..]);
      assert 256 * AlignedSum(s, odd) == z + 0xffff * s[0] as nat;
      if 0 < z { ResidueMany(z, s[0] as nat); }
    }
  }

  lemma AlignedSumBound(s: seq<Byte>, odd: bool)
    ensures |s| <= 0x20002 ==> AlignedSum(s, odd) < WRAP32
  {
    WordSumBound(s);
    if odd && |s| > 0 { WordSumBound(s[1..]); }
  }

  // ----- Version 1: byte pairs, network order -----

  function PairSum(s: seq<Byte>): nat
  {
    if |s| == 0 then 0
    else if |s| == 1 then 256 * s[0]
    else 256 * s[0] + s[1] + PairSum(s[2..])
  }

  lemma SwappedPair(y: nat, a: nat, b: nat, rest: nat)
    ensures Residue(y + 256 * (256 * a + b + rest)) == Residue(y + a + 256 * b + 256 * rest)
  {
    var z := y + a + 256 * b + 256 * rest;
    assert y + 256 * (256 * a + b + rest) == z + 0xffff * a;
    if 0 < z { ResidueMany(z, a); }
  }

  lemma {:induction false} PairSumSwapped(s: seq<Byte>, y: nat)
    ensures Residue(y + 256 * PairSum(s)) == Residue(y + WordSum(s))
    decreases |s|
  {
    if |s| == 1 {
      SwappedPair(y, s[0], 0, 0);
    } else if |s| >= 2 {
      SwappedPair(y, s[0], s[1], PairSum(s[2..]));
      PairSumSwapped(s[2..], y + s[0] as nat + 256 * s[1] as nat);
    }
  }

  lemma {:induction false} PairSumBound(s: seq<Byte>)
    ensures PairSum(s) <= 0xffff * ((|s| + 1) / 2)
  {
    if |s| >= 2 { PairSumBound(s[2..]); }
  }

  method ChecksumV1(data: seq<Byte>) returns (r: nat)
    requires |data| <= 0xffff
    ensures r == OnesSum(data)
  {
    var acc: nat, p: nat := 0, 0;
    while |data| - p > 1
      invariant 0 <= p <= |data|
      invariant acc + PairSum(data[p..]) == PairSum(data)
    {
      assert data[p..][2..] == data[p + 2..];
      acc := acc + (256 * data[p] as nat + data[p + 1] as nat);
      p := p + 2;
    }
    if |data| - p > 0 {
      acc := acc + 256 * data[p] as nat;
    }
    PairSumSwapped(data, 0);
    PairSumBound(data);
    assert acc == PairSum(data) && acc < WRAP32;
    ghost var sum := acc;
    ResidueFold(acc);
    acc := Fold(acc);
    if acc / 0x10000 != 0 {
      ResidueFold(acc);
      acc := Fold(acc);
    }
    assert acc == Residue(sum);
    SwapResidue(sum);
    r := Swap16(acc);
  }

  // ----- Version 2: words, with the 32-bit sum wrapping as in C -----

  lemma WordSumUnfold(s: seq<Byte>, p: nat)
    requires p + 2 <= |s|
    ensures WordSum(s[p..]) == s[p] as nat + 256 * s[p + 1] as nat + WordSum(s[p + 2..])
  {
    assert s[p..][2..] == s[p + 2..];
  }

  /** How versions 2 and 3 end: two folds, and a swap when the start address was odd. */
  function FoldSwap(sum: nat, odd: bool): (r: nat)
    requires sum < WRAP32
    ensures r <= 0xffff
  {
    FoldTwice(sum);
    if odd then Swap16(Fold(Fold(sum))) else Fold(Fold(sum))
  }

  lemma FoldSwapMeans(sum: nat, s: seq<Byte>, odd: bool)
    requires sum < WRAP32 && Residue(sum) == Residue(AlignedSum(s, odd))
    ensures FoldSwap(sum, odd) == OnesSum(s)
  {
    FoldTwice(sum);
    SwapResidue(AlignedSum(s, odd));
    AlignedSumMeans(s, odd);
  }

  /** Version 2 as the code computes it, overflow included. */
  function V2(s: seq<Byte>, odd: bool): (r: nat)
    ensures r <= 0xffff
  {
    FoldSwap(AlignedSum(s, odd) % WRAP32, odd)
  }

  lemma WrapAdd(x: nat, y: nat)
    ensures (x % WRAP32 + y) % WRAP32 == (x + y) % WRAP32
  {
  }

  lemma WrapSmall(x: nat)
    requires x < WRAP32
    ensures x % WRAP32 == x
  {
  }

  method ChecksumV2(data: seq<Byte>, odd: bool) returns (r: nat)
    ensures r == V2(data, odd)
    ensures |data| <= 0x20002 ==> r == OnesSum(data)
  {
    var p: nat, t: nat, sum: nat := 0, 0, 0;
    if odd && |data| > 0 {
      t := 256 * data[0] as nat;
      p := 1;
    }
    ghost var full: nat := 0;
    assert data[0..] == data;
    while |data| - p > 1
      invariant 0 <= p <= |data|
      invariant full + WordSum(data[p..]) + t == AlignedSum(data, odd)
      invariant sum == full % WRAP32
    {
      WordSumUnfold(data, p);
      var w := data[p] as nat + 256 * data[p + 1] as nat;
      WrapAdd(full, w);
      full := full + w;
      sum := (sum + w) % WRAP32;
      p := p + 2;
    }
    if |data| - p > 0 {
      t := t + data[p] as nat;
    }
    WrapAdd(full, t);
    sum := (sum + t) % WRAP32;
    V2Correct(data, odd);
    r := FoldSwap(sum, odd);
  }

  lemma V2Correct(s: seq<Byte>, odd: bool)
    ensures |s| <= 0x20002 ==> V2(s, odd) == OnesSum(s)
  {
    if |s| <= 0x20002 {
      AlignedSumBound(s, odd);
      WrapSmall(AlignedSum(s, odd));
      FoldSwapMeans(AlignedSum(s, odd), s, odd);
    }
  }

  /** `n` bytes of 0xff add up to 0xffff per word. */
  lemma {:induction false} WordSumOnes(s: seq<Byte>, n: nat)
    requires |s| == 2 * n && forall i :: 0 <= i < |s| ==> s[i] == 255
    ensures WordSum(s) == 0xffff * n
  {
    if 0 < n { WordSumOnes(s[2..], n - 1); }
  }

  /** 0xff bytes followed by a single 1: the sum is exactly 2^32. */
  lemma WordSumWraps(s: seq<Byte>)
    requires 0x20002 < |s|
    requires forall i :: 0 <= i < |s| ==> s[i] == if i < 0x20002 then 255 else if i == 0x20002 then 1 else 0
    ensures WordSum(s) == WRAP32
  {
    var a, b := s[..0x20002], s[0x20002..];
    assert s == a + b;
    WordSumEven(a, b);
    WordSumOnes(a, 0x10001);
    WordSumZero(b[1..]);
    assert WordSum(b) == 1 by {
      if |b| >= 2 { WordSumZero(b[2..]); }
    }
  }

  /** The buffer of a given length that makes the 32-bit sum wrap to zero. */
  function Wrapping(len: nat, odd: bool): (s: seq<Byte>)
    requires 0x20002 < len
    ensures |s| == len
  {
    seq(len, i => if odd && i == 0 then 1 else if odd && i == 1 then 0
                  else if i < 0x20002 + (if odd then 1 else 0) && i < len then 255
                  else if i == 0x20002 && !odd then 1 else 0)
  }

  lemma WrappingWraps(len: nat, odd: bool)
    requires 0x20002 < len
    ensures AlignedSum(Wrapping(len, odd), odd) == WRAP32
  {
    var s := Wrapping(len, odd);
    if odd {
      var u := s[1..];
      var a, b := u[..0x20002], u[0x20002..];
      assert u == a + b;
      WordSumEven(a, b);
      WordSumOnes(a[2..], 0x10000);
      WordSumZero(b);
    } else {
      WordSumWraps(s);
    }
  }

  lemma V2Wrong(len: nat, odd: bool)
    requires 0x20002 < len
    ensures V2(Wrapping(len, odd), odd) == 0 != OnesSum(Wrapping(len, odd))
  {
    WrappingWraps(len, odd);
    AlignedSumMeans(Wrapping(len, odd), odd);
    assert FoldSwap(0, odd) == 0;
  }

  /** The comment promises version 2 up to length 0x20000; it is right up to 0x20002 and no further. */
  lemma V2ExactRange(len: nat, odd: bool)
    ensures (forall s: seq<Byte> :: |s| == len ==> V2(s, odd) == OnesSum(s)) <==> len <= 0x20002
  {
    if len <= 0x20002 {
      forall s: seq<Byte> | |s| == len
        ensures V2(s, odd) == OnesSum(s)
      {
        V2Correct(s, odd);
      }
    } else {
      var s := Wrapping(len, odd);
      V2Wrong(len, odd);
      assert |s| == len && V2(s, odd) != OnesSum(s);
    }
  }

  // ----- Version 3: 32-bit words with end-around carry -----

  /** One addition of the unrolled loop: a 32-bit add, and the carry added back. */
  function CarryAdd(x: nat, y: nat): (z: nat)
    requires x < WRAP32 && y < WRAP32
    ensures z < WRAP32
  {
    var sum := (x + y) % WRAP32;
    if sum < x then sum + 1 else sum
  }

  lemma CarryAddMeans(x: nat, y: nat, rest: nat)
    requires x < WRAP32 && y < WRAP32
    ensures Residue(CarryAdd(x, y) + rest) == Residue(x + y + rest)
  {
    if x + y >= WRAP32 {
      assert x + y + rest == CarryAdd(x, y) + rest + 0xffff * 0x10001;
      ResidueMany(CarryAdd(x, y) + rest, 0x10001);
    }
  }

  function Long(s: seq<Byte>, p: nat): (w: nat)
    requires p + 4 <= |s|
    ensures w < WRAP32
  {
    s[p] as nat + 256 * s[p + 1] as nat + 0x10000 * s[p + 2] as nat + 0x100_0000 * s[p + 3] as nat
  }

  /** A 32-bit word counts as its two 16-bit words. */
  lemma LongMeans(s: seq<Byte>, p: nat, x: nat)
    requires p + 4 <= |s|
    ensures Residue(x + Long(s, p) + WordSum(s[p + 4..])) == Residue(x + WordSum(s[p..]))
  {
    WordSumUnfold(s, p);
    WordSumUnfold(s, p + 2);
    var high := s[p + 2] as nat + 256 * s[p + 3] as nat;
    var y := x + WordSum(s[p..]);
    assert x + Long(s, p) + WordSum(s[p + 4..]) == y + 0xffff * high;
    if 0 < y { ResidueMany(y, high); }
  }

  lemma CarryLong(sum: nat, data: seq<Byte>, p: nat, t: nat)
    requires sum < WRAP32 && p + 4 <= |data|
    ensures Residue(CarryAdd(sum, Long(data, p)) + (WordSum(data[p + 4..]) + t)) ==
              Residue(sum + (WordSum(data[p..]) + t))
  {
    CarryAddMeans(sum, Long(data, p), WordSum(data[p + 4..]) + t);
    LongMeans(data, p, sum + t);
  }

  /** The two additions of one turn of the unrolled loop. */
  method AddEight(sum: nat, data: seq<Byte>, p: nat, ghost t: nat) returns (r: nat)
    requires sum < WRAP32 && p + 8 <= |data|
    ensures r < WRAP32
    ensures Residue(r + (WordSum(data[p + 8..]) + t)) == Residue(sum + (WordSum(data[p..]) + t))
  {
    var tmp := CarryAdd(sum, Long(data, p));
    r := CarryAdd(tmp, Long(data, p + 4));
    CarryLong(sum, data, p, t);
    CarryLong(tmp, data, p + 4, t);
  }

  /** The words left after the unrolled loop, and a last byte; the folded sum leaves room for them. */
  method AddTail(folded: nat, data: seq<Byte>, start: nat, head: nat, ghost total: nat) returns (sum: nat)
    requires folded <= 0x1fffe && head <= 0xff00 && start <= |data| <= start + 7
    requires Residue(folded + (WordSum(data[start..]) + head)) == Residue(total)
    ensures sum < WRAP32 && Residue(sum) == Residue(total)
  {
    var p, t := start, head;
    sum := folded;
    while |data| - p > 1
      invariant start <= p <= |data| && (p - start) % 2 == 0
      invariant sum <= 0x1fffe + 0xffff * ((p - start) / 2)
      invariant Residue(sum + (WordSum(data[p..]) + t)) == Residue(total)
    {
      WordSumUnfold(data, p);
      sum := sum + (data[p] as nat + 256 * data[p + 1] as nat);
      p := p + 2;
    }
    if |data| - p > 0 {
      t := t + data[p] as nat;
    }
    sum := sum + t;
  }

  /** The bytes before the first 32-bit boundary: an odd byte, then a word. */
  method AlignHead(data: seq<Byte>, addr: nat) returns (p: nat, t: nat, sum: nat)
    ensures p <= |data| && sum <= 0xffff && t <= 0xff00
    ensures sum + (WordSum(data[p..]) + t) == AlignedSum(data, addr % 2 == 1)
  {
    p, t, sum := 0, 0, 0;
    if addr % 2 == 1 && |data| > 0 {
      t := 256 * data[0] as nat;
      p := 1;
    }
    assert data[0..] == data;
    if (addr + p) % 4 != 0 && |data| - p > 1 {
      WordSumUnfold(data, p);
      sum := data[p] as nat + 256 * data[p + 1] as nat;
      p := p + 2;
    }
  }

  lemma FoldKeeps(sum: nat, rest: nat)
    ensures Residue(Fold(sum) + rest) == Residue(sum + rest)
  {
    ResidueFold(sum);
    ResidueAdd(sum, rest);
    ResidueAdd(Fold(sum), rest);
  }

  /** Right for every length: the carries never pile up. `addr` is the start address. */
  method ChecksumV3(data: seq<Byte>, addr: nat) returns (r: nat)
    ensures r == OnesSum(data)
  {
    var p: nat, t: nat, sum: nat := AlignHead(data, addr);
    ghost var total := AlignedSum(data, addr % 2 == 1);
    while |data| - p > 7
      invariant 0 <= p <= |data| && sum < WRAP32
      invariant Residue(sum + (WordSum(data[p..]) + t)) == Residue(total)
    {
      sum := AddEight(sum, data, p, t);
      p := p + 8;
    }
    FoldKeeps(sum, WordSum(data[p..]) + t);
    sum := AddTail(Fold(sum), data, p, t, total);
    FoldSwapMeans(sum, data, addr % 2 == 1);
    r := FoldSwap(sum, addr % 2 == 1);
  }
}
