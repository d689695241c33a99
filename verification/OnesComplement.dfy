/**
  One's-complement arithmetic for the Internet checksum (sections 1 and 2 of RFC 1071), on a
  little-endian host: what folding, byte swapping and end-around carry do to a sum.
 */
module OnesComplement {
  import opened Widths

  /** The 16-bit words of a buffer added up as a little-endian host reads them, a last odd byte as a low byte. */
  function WordSum(s: seq<Byte>): nat
  {
    if |s| == 0 then 0
    else if |s| == 1 then s[0]
    else s[0] + 256 * s[1] + WordSum(s[2..])
  }

  /** The one's-complement residue, by end-around carry: 0 only for 0, otherwise 1 up to 0xffff. */
  function Residue(x: nat): (r: nat)
    ensures r <= 0xffff && (r == 0 <==> x == 0)
  {
    if x <= 0xffff then x else Residue(x - 0xffff)
  }

  /** The checksum proper: what every routine here has to return, before inversion. */
  function OnesSum(s: seq<Byte>): nat
  {
    Residue(WordSum(s))
  }

  /** FOLD_U32T */
  function Fold(u: nat): nat
  {
    u / 0x10000 + u % 0x10000
  }

  /** SWAP_BYTES_IN_WORD, and htons on a little-endian host */
  function Swap16(w: nat): (r: nat)
    requires w <= 0xffff
    ensures r <= 0xffff
  {
    w % 256 * 256 + w / 256
  }

  lemma {:induction false} ResidueMany(x: nat, k: nat)
    requires 0 < x
    ensures Residue(x + 0xffff * k) == Residue(x)
  {
    if 0 < k { ResidueMany(x, k - 1); }
  }

  lemma {:induction false} ResidueAdd(x: nat, y: nat)
    ensures Residue(Residue(x) + y) == Residue(x + y)
  {
    if 0xffff < x { ResidueAdd(x - 0xffff, y); }
  }

  lemma {:induction false} ResidueTimes256(x: nat)
    ensures Residue(256 * Residue(x)) == Residue(256 * x)
  {
    if 0xffff < x {
      ResidueTimes256(x - 0xffff);
      ResidueMany(256 * (x - 0xffff), 256);
    }
  }

  /** Multiplying by 256 twice changes nothing: 0x10000 is one more than 0xffff. */
  lemma ResidueTwice256(x: nat)
    ensures Residue(0x10000 * x) == Residue(x)
  {
    if 0 < x { ResidueMany(x, x); }
  }

  lemma ResidueFold(u: nat)
    ensures Residue(Fold(u)) == Residue(u)
  {
    var q := u / 0x10000;
    assert u == Fold(u) + 0xffff * q;
    if 0 < u { ResidueMany(Fold(u), q); }
  }

  /** Two folds take any 32-bit sum to its residue. */
  lemma FoldTwice(u: nat)
    requires u < 0x1_0000_0000
    ensures Fold(Fold(u)) == Residue(u)
  {
    ResidueFold(u);
    ResidueFold(Fold(u));
  }

  /** One fold is enough up to twice 0xffff. */
  lemma FoldOnce(u: nat)
    requires u <= 0x1fffe
    ensures Fold(u) == Residue(u)
  {
    ResidueFold(u);
  }

  /** Swapping the bytes of a residue multiplies what it stands for by 256. */
  lemma SwapResidue(x: nat)
    ensures Swap16(Residue(x)) == Residue(256 * x)
  {
    var r := Residue(x);
    assert 256 * r == (r / 256) * 0x10000 + r % 256 * 256;
    assert Fold(256 * r) == Swap16(r);
    ResidueFold(256 * r);
    ResidueTimes256(x);
  }

  lemma {:induction false} WordSumBound(s: seq<Byte>)
    ensures WordSum(s) <= 0xffff * (|s| / 2) + if |s| % 2 == 1 then 255 else 0
  {
    if |s| >= 2 { WordSumBound(s[2..]); }
  }

  lemma {:induction false} WordSumZero(s: seq<Byte>)
    ensures WordSum(s) == 0 <==> forall i :: 0 <= i < |s| ==> s[i] == 0
  {
    if |s| >= 2 {
      WordSumZero(s[2..]);
      assert forall i :: 2 <= i < |s| ==> s[i] == s[2..][i - 2];
      assert forall i :: 0 <= i < |s| - 2 ==> s[2..][i] == s[i + 2];
    }
  }

  lemma {:induction false} WordSumEven(a: seq<Byte>, b: seq<Byte>)
    requires |a| % 2 == 0
    ensures WordSum(a + b) == WordSum(a) + WordSum(b)
  {
    if |a| == 0 {
      assert a + b == b;
    } else {
      assert (a + b)[2..] == a[2..] + b;
      WordSumEven(a[2..], b);
    }
  }

  /** Shifting a buffer by one byte multiplies its sum by 256. */
  lemma {:induction false} WordSumShift(x: Byte, s: seq<Byte>, y: nat)
    ensures Residue(y + WordSum([x] + s)) == Residue(y + (x as nat + 256 * WordSum(s)))
    decreases |s|
  {
    if |s| == 0 {
      assert [x] + s == [x];
    } else if |s| == 1 {
      assert ([x] + s)[2..] == [];
    } else {
      var a, b, c, u := x as nat, s[0] as nat, s[1] as nat, WordSum(s[2..]);
      assert ([x] + s)[2..] == [s[1]] + s[2..];
      WordSumShift(s[1], s[2..], y + a + 256 * b);
      var z := y + a + 256 * b + (c + 256 * u);
      assert y + (a + 256 * WordSum(s)) == z + 0xffff * c;
      if 0 < z { ResidueMany(z, c); }
    }
  }

  /** A buffer after an odd number of bytes counts with its bytes swapped. */
  lemma {:induction false} WordSumOdd(a: seq<Byte>, b: seq<Byte>, y: nat)
    requires |a| % 2 == 1
    ensures Residue(y + WordSum(a + b)) == Residue(y + (WordSum(a) + 256 * WordSum(b)))
    decreases |a|
  {
    if |a| == 1 {
      assert a == [a[0]];
      WordSumShift(a[0], b, y);
    } else {
      assert (a + b)[2..] == a[2..] + b;
      WordSumOdd(a[2..], b, y + a[0] as nat + 256 * a[1] as nat);
    }
  }
}
