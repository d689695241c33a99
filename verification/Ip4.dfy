/**
  The text form of IPv4 addresses in server_code/shinjuku-rocksdb/dp/lwip/ip4_addr.c: parser, printer and the
  netmask test. An address is its four bytes in network order.
 */
module Ip4 {
  import opened Widths
  import opened Wrappers

  const NUL: char := '\0'

  // ----- Bits -----

  function Pow2(n: nat): (p: nat)
    ensures 0 < p
  {
    if n == 0 then 1 else 2 * Pow2(n - 1)
  }

  function Bit(x: nat, j: nat): nat
  {
    if j == 0 then x % 2 else Bit(x / 2, j - 1)
  }

  /** x | y */
  function Or(x: nat, y: nat): nat
  {
    if x == 0 then y
    else 2 * Or(x / 2, y / 2) + if x % 2 == 1 || y % 2 == 1 then 1 else 0
  }

  /** Bits that do not overlap add up. */
  lemma {:induction false} OrAdds(x: nat, y: nat, k: nat)
    requires x < Pow2(k)
    ensures Or(x, y * Pow2(k)) == x + y * Pow2(k)
    decreases k
  {
    if x != 0 {
      var z := y * Pow2(k - 1);
      assert y * Pow2(k) == 2 * z;
      OrAdds(x / 2, y, k - 1);
    }
  }

  // ----- ip4_addr_netmask_valid -----

  /** lwip_htonl on a little-endian host. */
  function Htonl(x: nat): (r: nat)
    requires x < WRAP32
    ensures r < WRAP32
  {
    x % 256 * 0x100_0000 + x / 256 % 256 * 0x1_0000 + x / 0x1_0000 % 256 * 0x100 + x / 0x100_0000
  }

  /** Ones down to bit `k`, then zeros. */
  ghost predicate OnesThenZeros(x: nat, k: nat)
  {
    forall j :: 0 <= j < 32 ==> Bit(x, j) == if j >= k then 1 else 0
  }

  method NetmaskValid(netmask: nat) returns (valid: bool)
    requires netmask < WRAP32
    ensures valid <==> exists k :: 0 <= k <= 32 && OnesThenZeros(Htonl(netmask), k)
  {
    var host := Htonl(netmask);
    var bit := 31;
    // first, the first zero
    while bit >= 0 && Bit(host, bit) == 1
      invariant -1 <= bit <= 31 && forall j :: bit < j < 32 ==> Bit(host, j) == 1
    {
      bit := bit - 1;
    }
    ghost var zero := bit;
    BitRange(host, zero);
    while bit >= 0
      invariant -1 <= bit <= zero && forall j :: bit < j <= zero ==> Bit(host, j) == 0
    {
      if Bit(host, bit) != 0 {
        return false;
      }
      bit := bit - 1;
    }
    assert OnesThenZeros(host, zero + 1);
    return true;
  }

  lemma {:induction false} BitRange(x: nat, j: int)
    ensures 0 <= j ==> Bit(x, j) == 0 || Bit(x, j) == 1
    decreases j
  {
    if j > 0 { BitRange(x / 2, j - 1); }
  }

  /** The masks of ones and then zeros, as numbers. */
  lemma {:induction false} MaskValue(x: nat, k: nat, n: nat)
    requires x < Pow2(n) && k <= n && forall j :: 0 <= j < n ==> Bit(x, j) == if j >= k then 1 else 0
    ensures x == Pow2(n) - Pow2(k)
    decreases n
  {
    if n > 0 {
      assert Bit(x, 0) == if k == 0 then 1 else 0;
      forall j | 0 <= j < n - 1
        ensures Bit(x / 2, j) == if j >= (if k == 0 then 0 else k - 1) then 1 else 0
      {
        assert Bit(x, j + 1) == Bit(x / 2, j);
      }
      MaskValue(x / 2, if k == 0 then 0 else k - 1, n - 1);
    }
  }

  // ----- ipaddr_aton -----

  function CharAt(s: seq<char>, i: nat): char
  {
    if i < |s| then s[i] else NUL
  }

  predicate IsDigit(c: char) { '0' <= c <= '9' }
  predicate IsLower(c: char) { 'a' <= c <= 'z' }
  predicate IsXDigit(c: char) { IsDigit(c) || 'a' <= c <= 'f' || 'A' <= c <= 'F' }
  predicate IsSpace(c: char) { c in {' ', '\n', '\r', '\t', 0x0b as char, 0x0c as char} }

  lemma Pow32()
    ensures Pow2(8) == 0x100 && Pow2(16) == 0x1_0000 && Pow2(24) == 0x100_0000 && Pow2(32) == WRAP32
  {
    assert Pow2(4) == 16 && Pow2(8) == 16 * Pow2(4);
    assert Pow2(12) == 16 * Pow2(8) && Pow2(16) == 16 * Pow2(12);
    assert Pow2(20) == 16 * Pow2(16) && Pow2(24) == 16 * Pow2(20);
    assert Pow2(28) == 16 * Pow2(24) && Pow2(32) == 16 * Pow2(28);
  }

  lemma {:induction false} OrBound(x: nat, y: nat, k: nat)
    requires x < Pow2(k) && y < Pow2(k)
    ensures Or(x, y) < Pow2(k)
    decreases k
  {
    if x != 0 { OrBound(x / 2, y / 2, k - 1); }
  }

  /** x | y on 32 bits. */
  function Or32(x: nat, y: nat): (r: nat)
    requires x < WRAP32 && y < WRAP32
    ensures r < WRAP32
  {
    Pow32();
    OrBound(x, y, 32);
    Or(x, y)
  }

  function XDigit(c: char): (d: nat)
    requires IsXDigit(c) && !IsDigit(c)
    ensures 10 <= d < 16
  {
    (c as nat) + 10 - (if IsLower(c) then 'a' as nat else 'A' as nat)
  }

  /** The value of the number at `i` and where it ends; the value is 32 bits wide. */
  function Number(s: seq<char>, i: nat, base: nat, val: nat): (r: (nat, nat))
    requires val < WRAP32
    ensures r.0 < WRAP32
    decreases |s| - i
  {
    var c := CharAt(s, i);
    if i < |s| && IsDigit(c) then Number(s, i + 1, base, (val * base + (c - '0') as nat) % WRAP32)
    else if i < |s| && base == 16 && IsXDigit(c) then Number(s, i + 1, base, Or32(val * 16 % WRAP32, XDigit(c)))
    else (val, i)
  }

  /** Prefix of a number: where its digits start, and its base. */
  function Prefix(s: seq<char>, i: nat): (r: (nat, nat))
    ensures i <= r.0 <= i + 2
  {
    if CharAt(s, i) != '0' then (i, 10)
    else if CharAt(s, i + 1) == 'x' || CharAt(s, i + 1) == 'X' then (i + 2, 16)
    else (i + 1, 8)
  }

  /** The number at `i`, with its prefix, and where it ends. */
  function Field(s: seq<char>, i: nat): (r: (nat, nat))
    ensures r.0 < WRAP32
  {
    var (start, base) := Prefix(s, i);
    Number(s, start, base, 0)
  }

  /** The parts and the last value; None for a text that is refused. */
  function Parse(s: seq<char>, i: nat, parts: seq<nat>): (r: Option<nat>)
    requires |parts| <= 3
    ensures r.Some? ==> r.value < WRAP32
    decreases 4 - |parts|
  {
    if !IsDigit(CharAt(s, i)) then None
    else
      var (val, end) := Field(s, i);
      if CharAt(s, end) == '.' then
        if |parts| >= 3 then None else Parse(s, end + 1, parts + [val])
      else if CharAt(s, end) != NUL && !IsSpace(CharAt(s, end)) then None
      else Concoct(parts, val)
  }

  function Shl(x: nat, k: nat): (r: nat)
    ensures r < WRAP32
  {
    x * Pow2(k) % WRAP32
  }

  /** a, a.b, a.b.c or a.b.c.d; earlier parts are not checked, only shifted. */
  function Concoct(parts: seq<nat>, val: nat): (r: Option<nat>)
    requires |parts| <= 3 && val < WRAP32
    ensures r.Some? ==> r.value < WRAP32
  {
    if |parts| == 0 then Some(val)
    else if |parts| == 1 then if val > 0xff_ffff then None else Some(Or32(val, Shl(parts[0], 24)))
    else if |parts| == 2 then if val > 0xffff then None else Some(Or32(val, Or32(Shl(parts[0], 24), Shl(parts[1], 16))))
    else if val > 0xff then None
    else Some(Or32(val, Or32(Or32(Shl(parts[0], 24), Shl(parts[1], 16)), Shl(parts[2], 8))))
  }

  type Address = a: seq<int> | |a| == 4 && forall i :: 0 <= i < 4 ==> 0 <= a[i] < 256 witness [0, 0, 0, 0]

  /** The bytes of a value in network order. */
  function Octets(v: nat): Address
    requires v < WRAP32
  {
    [v / 0x100_0000, v / 0x1_0000 % 256, v / 0x100 % 256, v % 256]
  }

  function Value(a: Address): (v: nat)
    ensures v < WRAP32
  {
    a[0] * 0x100_0000 + a[1] * 0x1_0000 + a[2] * 0x100 + a[3]
  }

  lemma Split(h: nat, l: nat)
    requires l < 256
    ensures (h * 256 + l) / 256 == h && (h * 256 + l) % 256 == l
  {
  }

  lemma DivTwice(x: nat)
    ensures x / 0x1_0000 == x / 256 / 256 && x / 0x100_0000 == x / 256 / 256 / 256
  {
  }

  lemma ValueOctets(a: Address)
    ensures Octets(Value(a)) == a
  {
    var h1 := a[0] * 256 + a[1];
    var h2 := h1 * 256 + a[2];
    assert Value(a) == h2 * 256 + a[3];
    DivTwice(Value(a));
    Split(h2, a[3]);
    Split(h1, a[2]);
    Split(a[0], a[1]);
  }

  ghost function Parsed(s: seq<char>): Option<Address>
  {
    match Parse(s, 0, [])
    case None => None
    case Some(v) => Some(Octets(v))
  }

  method Aton(s: seq<char>) returns (r: Option<Address>)
    ensures r == Parsed(s)
  {
    var i: nat, parts: seq<nat> := 0, [];
    while true
      invariant |parts| <= 3 && Parse(s, i, parts) == Parse(s, 0, [])
      decreases 4 - |parts|
    {
      var c := CharAt(s, i);
      if !IsDigit(c) {
        return None;
      }
      var val: nat;
      val, i := ReadField(s, i);
      c := CharAt(s, i);
      if c == '.' {
        if |parts| >= 3 {
          return None;
        }
        parts := parts + [val];
        i := i + 1;
      } else if c != NUL && !IsSpace(c) {
        return None;
      } else {
        var v := Concoct(parts, val);
        return match v case None => None case Some(x) => Some(Octets(x));
      }
    }
  }

  /** A number with its prefix. */
  method ReadField(s: seq<char>, start: nat) returns (val: nat, i: nat)
    ensures (val, i) == Field(s, start) && val < WRAP32
  {
    i := start;
    var base: nat := 10;
    if CharAt(s, i) == '0' {
      i := i + 1;
      if CharAt(s, i) == 'x' || CharAt(s, i) == 'X' {
        base := 16;
        i := i + 1;
      } else {
        base := 8;
      }
    }
    val, i := Collect(s, i, base);
  }

  /** The loop over the digits of a number. */
  method Collect(s: seq<char>, start: nat, base: nat) returns (val: nat, i: nat)
    ensures (val, i) == Number(s, start, base, 0) && val < WRAP32
  {
    val, i := 0, start;
    while true
      invariant val < WRAP32 && Number(s, i, base, val) == Number(s, start, base, 0)
      decreases |s| - i
    {
      var c := CharAt(s, i);
      if IsDigit(c) {
        val := (val * base + (c - '0') as nat) % WRAP32;
        i := i + 1;
      } else if base == 16 && IsXDigit(c) {
        val := Or32(val * 16 % WRAP32, XDigit(c));
        i := i + 1;
      } else {
        return;
      }
    }
  }

  // ----- What a parsed text means -----

  ghost predicate IsDigitOf(c: char, base: nat)
  {
    '0' <= c <= '9' || (base == 16 && ('a' <= c <= 'f' || 'A' <= c <= 'F'))
  }

  ghost function DigitOf(c: char, base: nat): nat
    requires IsDigitOf(c, base)
  {
    if c <= '9' then (c - '0') as nat else if 'a' <= c then 10 + (c - 'a') as nat else 10 + (c - 'A') as nat
  }

  function Power(base: nat, n: nat): nat
  {
    if n == 0 then 1 else base * Power(base, n - 1)
  }

  /** The value of a text in positional notation, every digit times the power of its place. */
  ghost function Positional(t: seq<char>, base: nat): nat
    requires forall k :: 0 <= k < |t| ==> IsDigitOf(t[k], base)
  {
    if t == [] then 0
    else
      assert forall k :: 0 <= k < |t| - 1 ==> t[1..][k] == t[k + 1];
      DigitOf(t[0], base) * Power(base, |t| - 1) + Positional(t[1..], base)
  }

  lemma ModAdd(a: nat, p: nat, c: nat)
    ensures (a % WRAP32 * p + c) % WRAP32 == (a * p + c) % WRAP32
  {
    var q, r := a / WRAP32, a % WRAP32;
    assert a * p + c == (q * p) * WRAP32 + (r * p + c) by {
      assert a == q * WRAP32 + r;
      assert (q * WRAP32 + r) * p == q * WRAP32 * p + r * p;
    }
    ModMany(r * p + c, q * p);
  }

  lemma {:induction false} ModMany(x: nat, k: nat)
    ensures (k * WRAP32 + x) % WRAP32 == x % WRAP32
  {
    if k > 0 {
      ModMany(x, k - 1);
      assert k * WRAP32 + x == ((k - 1) * WRAP32 + x) + WRAP32;
    }
  }

  lemma ModIs(x: nat, q: nat, r: nat)
    requires x == q * 0x1_0000_0000 + r && r < WRAP32
    ensures x % WRAP32 == r
  {
  }

  lemma HexDigit(hi: nat, d: nat)
    requires d < 16
    ensures Or(hi * 16, d) == hi * 16 + d
  {
    assert Pow2(4) == 16;
    OrBelow(hi, d, 4);
  }

  lemma HexStep(val: nat, d: nat)
    requires val < WRAP32 && d < 16
    ensures Or32(val * 16 % WRAP32, d) == (val * 16 + d) % WRAP32
  {
    var q, hi := val / 0x1000_0000, val % 0x1000_0000;
    ModIs(val * 16, q, hi * 16);
    ModIs(val * 16 + d, q, hi * 16 + d);
    HexDigit(hi, d);
  }

  lemma NextValue(val: nat, d: nat, base: nat, n: nat, rest: nat)
    ensures ((val * base + d) % WRAP32 * Power(base, n) + rest) % WRAP32
            == (val * Power(base, n + 1) + (d * Power(base, n) + rest)) % WRAP32
  {
    var p := Power(base, n);
    ModAdd(val * base + d, p, rest);
    assert (val * base + d) * p + rest == val * (base * p) + (d * p + rest);
  }

  /** From `i` to `end` are all the digits there are, and `v` is their value behind `val`, modulo 2^32. */
  ghost predicate Numeral(s: seq<char>, i: nat, base: nat, val: nat, v: nat, end: nat)
  {
    && i <= end <= |s| && (forall k :: 0 <= k < end - i ==> IsDigitOf(s[i..end][k], base))
    && (end < |s| ==> !IsDigitOf(s[end], base))
    && v == (val * Power(base, end - i) + Positional(s[i..end], base)) % WRAP32
  }

  lemma NumeralStep(s: seq<char>, i: nat, base: nat, val: nat, v: nat, end: nat)
    requires i < |s| && IsDigitOf(s[i], base)
    requires Numeral(s, i + 1, base, Carry(val, base, DigitOf(s[i], base)), v, end)
    ensures Numeral(s, i, base, val, v, end)
  {
    var t := s[i..end];
    assert t[1..] == s[i + 1..end];
    forall k | 0 <= k < |t|
      ensures IsDigitOf(t[k], base)
    {
      assert k > 0 ==> t[k] == t[1..][k - 1];
    }
    DigitBefore(t, base, val, v);
  }

  lemma DigitBefore(t: seq<char>, base: nat, val: nat, v: nat)
    requires t != [] && forall k :: 0 <= k < |t| ==> IsDigitOf(t[k], base)
    requires v == (Carry(val, base, DigitOf(t[0], base)) * Power(base, |t| - 1) + Positional(t[1..], base)) % WRAP32
    ensures v == (val * Power(base, |t|) + Positional(t, base)) % WRAP32
  {
    NextValue(val, DigitOf(t[0], base), base, |t| - 1, Positional(t[1..], base));
  }

  function Carry(val: nat, base: nat, d: nat): (v: nat)
    ensures v < WRAP32
  {
    (val * base + d) % WRAP32
  }

  lemma NumberGoes(s: seq<char>, i: nat, base: nat, val: nat)
    requires i < |s| && val < WRAP32 && IsDigitOf(s[i], base)
    ensures Number(s, i, base, val) == Number(s, i + 1, base, Carry(val, base, DigitOf(s[i], base)))
  {
    if !IsDigit(s[i]) { HexStep(val, DigitOf(s[i], base)); }
  }

  lemma NumberStops(s: seq<char>, i: nat, base: nat, val: nat)
    requires i <= |s| && val < WRAP32 && (i < |s| ==> !IsDigitOf(s[i], base))
    ensures Number(s, i, base, val) == (val, i) && Numeral(s, i, base, val, val, i)
  {
    assert s[i..i] == [];
  }

  /** The loop over the digits stops at the first character that is none, and its value is that of the digits, modulo
      2^32. */
  lemma {:induction false} NumberMeans(s: seq<char>, i: nat, base: nat, val: nat)
    requires i <= |s| && val < WRAP32
    ensures Numeral(s, i, base, val, Number(s, i, base, val).0, Number(s, i, base, val).1)
    decreases |s| - i
  {
    if i < |s| && IsDigitOf(s[i], base) {
      var r, val' := Number(s, i, base, val), Carry(val, base, DigitOf(s[i], base));
      NumberGoes(s, i, base, val);
      NumberMeans(s, i + 1, base, val');
      NumeralStep(s, i, base, val, r.0, r.1);
    } else {
      NumberStops(s, i, base, val);
    }
  }

  /** A part at `i` that ends before `end` and has the value `v`: hexadecimal behind 0x, octal behind another 0, and
      else decimal; an octal one may hold the digits 8 and 9. */
  ghost predicate FieldIs(s: seq<char>, i: nat, v: nat, end: nat)
  {
    && i < |s| && '0' <= s[i] <= '9'
    && if s[i] == '0' && i + 1 < |s| && s[i + 1] in {'x', 'X'} then Numeral(s, i + 2, 16, 0, v, end)
       else if s[i] == '0' then Numeral(s, i + 1, 8, 0, v, end)
       else Numeral(s, i, 10, 0, v, end)
  }

  lemma FieldMeans(s: seq<char>, i: nat)
    requires IsDigit(CharAt(s, i))
    ensures FieldIs(s, i, Field(s, i).0, Field(s, i).1)
  {
    var (start, base) := Prefix(s, i);
    NumberMeans(s, start, base, 0);
  }

  /** The address that parts stand for: one byte each, and the last one fills what is left. */
  function Composed(parts: seq<nat>, last: nat): nat
    requires |parts| <= 3
  {
    last + if |parts| == 0 then 0
           else if |parts| == 1 then parts[0] * 0x100_0000
           else if |parts| == 2 then (parts[0] * 256 + parts[1]) * 0x1_0000
           else ((parts[0] * 256 + parts[1]) * 256 + parts[2]) * 0x100
  }

  /** What `n` bytes leave for the last part. */
  function Left(n: nat): nat
  {
    if n == 0 then WRAP32 else if n == 1 then 0x100_0000 else if n == 2 then 0x1_0000 else 0x100
  }

  lemma ConcoctTwo(a: nat, last: nat)
    requires a < 256 && last < 0x100_0000
    ensures Or32(last, Shl(a, 24)) == last + a * 0x100_0000
  {
    Pow32();
    ShiftTop(a);
    OrAdds(last, a, 24);
  }

  lemma ConcoctThree(a: nat, b: nat, last: nat)
    requires a < 256 && b < 256 && last < 0x1_0000
    ensures Or32(last, Or32(Shl(a, 24), Shl(b, 16))) == last + (a * 256 + b) * 0x1_0000
  {
    Pow32();
    ShiftTop(a);
    ShiftMiddle(b);
    OrPair(a, b);
    OrAdds(last, a * 256 + b, 16);
  }

  /** With parts that are bytes an address is accepted exactly when its last part fits into what is left. */
  lemma ConcoctMeans(parts: seq<nat>, last: nat)
    requires |parts| <= 3 && last < WRAP32 && forall k :: 0 <= k < |parts| ==> parts[k] < 256
    ensures Concoct(parts, last) == if last < Left(|parts|) then Some(Composed(parts, last)) else None
  {
    if last < Left(|parts|) {
      if |parts| == 1 {
        ConcoctTwo(parts[0], last);
      } else if |parts| == 2 {
        ConcoctThree(parts[0], parts[1], last);
      } else if |parts| == 3 {
        ConcoctFour(parts[0], parts[1], parts[2], last);
        assert parts == [parts[0], parts[1], parts[2]];
      }
    }
  }

  /** The earlier parts are not checked: an address is read as its parts in their places, and refused when one does not
      fit, if and only if the earlier parts are bytes or the last one is too large anyway. */
  lemma ConcoctExactly(parts: seq<nat>, last: nat)
    requires |parts| <= 3 && last < WRAP32
    ensures var bytes := forall k :: 0 <= k < |parts| ==> parts[k] < 256;
            && (bytes ==> Concoct(parts, last) == if last < Left(|parts|) then Some(Composed(parts, last)) else None)
            && (Concoct(parts, last) == (if bytes && last < Left(|parts|) then Some(Composed(parts, last)) else None)
                <==> bytes || Left(|parts|) <= last)
  {
    if forall k :: 0 <= k < |parts| ==> parts[k] < 256 {
      ConcoctMeans(parts, last);
    }
  }

  /** Only the last part is checked: 256 in the second place is taken for a bit of the first byte. */
  lemma PartUnchecked()
    ensures Concoct([1, 256], 0) == Concoct([1, 0], 0) == Some(0x100_0000) && Composed([1, 256], 0) == 0x200_0000
  {
    ConcoctThree(1, 0, 0);
    Pow32();
    ShiftTop(1);
    ShiftIs(256, 16, 0x1_0000);
    OrSelf(0x100_0000);
  }

  lemma {:induction false} OrSelf(x: nat)
    ensures Or(x, x) == x
  {
    if x != 0 { OrSelf(x / 2); }
  }

  // ----- ipaddr_ntoa_r -----

  function Digit(d: nat): char
    requires d < 10
  {
    '0' + d as char
  }

  /** A number in decimal. */
  function Dec(x: nat): (t: seq<char>)
    ensures t != []
  {
    if x < 10 then [Digit(x)] else Dec(x / 10) + [Digit(x % 10)]
  }

  /** What the printer has written after `n` bytes: each with a dot behind it. */
  function Out(a: Address, n: nat): seq<char>
    requires n <= 4
  {
    if n == 0 then [] else Out(a, n - 1) + Dec(a[n - 1]) + ['.']
  }

  /** The text of an address. */
  function Text(a: Address): seq<char>
  {
    Dec(a[0]) + ['.'] + Dec(a[1]) + ['.'] + Dec(a[2]) + ['.'] + Dec(a[3])
  }

  lemma OutIsText(a: Address)
    ensures Out(a, 4) == Text(a) + ['.']
    ensures |Out(a, 4)| == |Dec(a[0])| + |Dec(a[1])| + |Dec(a[2])| + |Dec(a[3])| + 4
  {
    assert Out(a, 1) == Dec(a[0]) + ['.'];
    assert Out(a, 2) == Out(a, 1) + Dec(a[1]) + ['.'];
    assert Out(a, 3) == Out(a, 2) + Dec(a[2]) + ['.'];
  }

  function Rev(s: seq<char>): seq<char>
  {
    if s == [] then [] else [s[|s| - 1]] + Rev(s[..|s| - 1])
  }

  lemma RevSnoc(s: seq<char>, c: char)
    ensures Rev(s + [c]) == [c] + Rev(s)
  {
    assert (s + [c])[..|s|] == s;
  }

  /** The digits of a byte, last one first: at most three. */
  method Digits(x: nat) returns (inv: seq<char>)
    requires x < 256
    ensures Rev(inv) == Dec(x) && |Dec(x)| == |inv| && 1 <= |inv| <= 3
  {
    inv := [Digit(x % 10)];
    var ap: nat := x / 10;
    while ap != 0
      invariant Dec(x) == (if ap == 0 then [] else Dec(ap)) + Rev(inv)
      invariant 1 <= |inv| <= 3 && (|inv| == 1 ==> ap < 26) && (|inv| == 2 ==> ap < 3) && (|inv| == 3 ==> ap == 0)
      decreases ap
    {
      RevSnoc(inv, Digit(ap % 10));
      inv := inv + [Digit(ap % 10)];
      ap := ap / 10;
    }
    RevLength(inv);
  }

  lemma Joined(x: seq<char>, y: seq<char>, c: char)
    ensures |x + y + [c]| == |x| + |y| + 1 && (x + y + [c])[|x| + |y|] == c
    ensures forall k :: 0 <= k < |y| ==> (x + y + [c])[|x| + k] == y[k]
  {
  }

  lemma PrefixAt(u: seq<char>, t: seq<char>, i: nat)
    requires u <= t && i < |u|
    ensures t[i] == u[i]
  {
  }

  /** Where byte `n` and its dot are in what is printed. */
  lemma OutAt(a: Address, n: nat, out: seq<char>)
    requires n < 4 && Out(a, n + 1) <= out
    ensures |Out(a, n)| + |Dec(a[n])| + 1 == |Out(a, n + 1)| <= |out|
    ensures forall k :: 0 <= k < |Dec(a[n])| ==> out[|Out(a, n)| + k] == Dec(a[n])[k]
    ensures out[|Out(a, n)| + |Dec(a[n])|] == '.'
  {
    var x, y, u := Out(a, n), Dec(a[n]), Out(a, n + 1);
    Joined(x, y, '.');
    PrefixAt(u, out, |x| + |y|);
    forall k | 0 <= k < |y|
      ensures out[|x| + k] == y[k]
    {
      PrefixAt(u, out, |x| + k);
    }
  }

  lemma {:induction false} OutPrefix(a: Address, n: nat)
    requires n <= 4
    ensures Out(a, n) <= Out(a, 4)
    decreases 4 - n
  {
    if n < 4 {
      OutPrefix(a, n + 1);
      assert Out(a, n) <= Out(a, n + 1);
    }
  }

  /** ipaddr_ntoa_r: succeeds exactly when there is room for the digits and four more, and writes nowhere else. */
  method Ntoa(addr: Address, buf: array<char>, buflen: int) returns (ok: bool)
    requires buflen <= buf.Length
    modifies buf
    ensures ok <==> |Dec(addr[0])| + |Dec(addr[1])| + |Dec(addr[2])| + |Dec(addr[3])| + 4 <= buflen
    ensures ok ==> |Text(addr)| + 1 <= buflen && buf[..|Text(addr)| + 1] == Text(addr) + [NUL]
    ensures ok ==> forall k :: |Text(addr)| < k < buf.Length ==> buf[k] == old(buf[k])
    ensures forall k :: 0 <= k < buf.Length && buflen <= k ==> buf[k] == old(buf[k])
  {
    var len;
    ok, len := PutBytes(addr, buf, buflen);
    OutIsText(addr);
    if ok {
      buf[len - 1] := NUL;
      TextEnds(buf[..len], Out(addr, 4), addr);
    }
  }

  /** The loop over the bytes. */
  method PutBytes(addr: Address, buf: array<char>, buflen: int) returns (ok: bool, len: nat)
    requires buflen <= buf.Length
    modifies buf
    ensures ok <==> |Out(addr, 4)| <= buflen
    ensures ok ==> len == |Out(addr, 4)| && forall k :: 0 <= k < len ==> buf[k] == Out(addr, 4)[k]
    ensures ok ==> forall k :: len <= k < buf.Length ==> buf[k] == old(buf[k])
    ensures forall k :: 0 <= k < buf.Length && buflen <= k ==> buf[k] == old(buf[k])
  {
    ghost var out := Out(addr, 4);
    len := 0;
    var n: nat := 0;
    while n < 4
      invariant n <= 4 && len == |Out(addr, n)| <= |out| && (len <= buflen || n == 0)
      invariant forall k :: 0 <= k < len ==> k < buf.Length && buf[k] == out[k]
      invariant forall k :: len <= k < buf.Length ==> buf[k] == old(buf[k])
    {
      OutPrefix(addr, n + 1);
      OutAt(addr, n, out);
      var inv := Digits(addr[n]);
      ok, len := PutBack(buf, buflen, len, inv, out);
      if !ok || len >= buflen {
        return false, len;
      }
      buf[len] := '.';
      len := len + 1;
      n := n + 1;
    }
    return true, len;
  }

  lemma TextEnds(t: seq<char>, out: seq<char>, a: Address)
    requires out == Text(a) + ['.'] && |t| == |out| && t[|t| - 1] == NUL
    requires forall k :: 0 <= k < |t| - 1 ==> t[k] == out[k]
    ensures t == Text(a) + [NUL]
  {
  }

  /** The digits in the right order, behind what is written already; stops when the buffer is full. */
  method PutBack(buf: array<char>, buflen: int, start: nat, inv: seq<char>, ghost out: seq<char>)
    returns (ok: bool, len: nat)
    requires buflen <= buf.Length && inv != [] && (start <= buflen || start == 0) && start + |inv| <= |out|
    requires |Rev(inv)| == |inv| && forall k :: 0 <= k < |inv| ==> out[start + k] == Rev(inv)[k]
    modifies buf
    ensures ok <==> start + |inv| <= buflen
    ensures ok ==> len == start + |inv| && forall k :: start <= k < len ==> buf[k] == out[k]
    ensures forall k :: 0 <= k < buf.Length && (k < start || buflen <= k || (ok && len <= k)) ==> buf[k] == old(buf[k])
  {
    len := start;
    var i := |inv|;
    while i > 0
      invariant 0 <= i <= |inv| && len == start + |inv| - i && (len <= buflen || i == |inv|)
      invariant forall k :: start <= k < len ==> k < buf.Length && buf[k] == out[k]
      invariant forall k :: 0 <= k < buf.Length && (k < start || len <= k) ==> buf[k] == old(buf[k])
    {
      i := i - 1;
      if len >= buflen {
        return false, len;
      }
      RevIndex(inv, |inv| - 1 - i);
      buf[len] := inv[i];
      len := len + 1;
    }
    return true, len;
  }

  lemma {:induction false} RevLength(s: seq<char>)
    ensures |Rev(s)| == |s|
  {
    if s != [] { RevLength(s[..|s| - 1]); }
  }

  lemma {:induction false} RevIndex(s: seq<char>, k: nat)
    requires k < |s|
    ensures |Rev(s)| == |s| && Rev(s)[k] == s[|s| - 1 - k]
  {
    RevLength(s);
    if k > 0 { RevIndex(s[..|s| - 1], k - 1); }
  }

  // ----- The round trip -----

  lemma DigitStep(s: seq<char>, j: nat, y: nat, d: nat)
    requires j < |s| && d < 10 && s[j] == Digit(d) && y * 10 + d < WRAP32
    ensures Number(s, j, 10, y) == Number(s, j + 1, 10, y * 10 + d)
  {
  }

  lemma SliceLast(s: seq<char>, i: nat, front: seq<char>, c: char)
    requires i + |front| + 1 <= |s| && s[i..i + |front| + 1] == front + [c]
    ensures s[i..i + |front|] == front && s[i + |front|] == c
  {
    assert s[i..i + |front| + 1][..|front|] == front;
    assert s[i..i + |front| + 1][|front|] == c;
  }

  /** Decimal digits are read back, one by one. */
  lemma {:induction false} DecRead(s: seq<char>, i: nat, x: nat)
    requires x < 256 && i + |Dec(x)| <= |s| && s[i..i + |Dec(x)|] == Dec(x)
    ensures Number(s, i, 10, 0) == Number(s, i + |Dec(x)|, 10, x)
    decreases x
  {
    if x < 10 {
      assert s[i..i + 1][0] == Digit(x);
      DigitStep(s, i, 0, x);
    } else {
      SliceLast(s, i, Dec(x / 10), Digit(x % 10));
      DecRead(s, i, x / 10);
      DigitStep(s, i + |Dec(x / 10)|, x / 10, x % 10);
    }
  }

  lemma {:induction false} DecHead(x: nat)
    ensures Dec(x)[0] == '0' <==> x == 0
    ensures IsDigit(Dec(x)[0])
  {
    if x >= 10 { DecHead(x / 10); }
  }

  /** A printed byte at `i`, followed by a dot or the end, is read as that byte. */
  lemma ByteRead(s: seq<char>, i: nat, x: nat)
    requires x < 256 && i + |Dec(x)| <= |s| && s[i..i + |Dec(x)|] == Dec(x)
    requires CharAt(s, i + |Dec(x)|) == '.' || i + |Dec(x)| == |s|
    ensures IsDigit(CharAt(s, i))
    ensures Field(s, i) == (x, i + |Dec(x)|)
  {
    DecHead(x);
    assert s[i] == s[i..i + |Dec(x)|][0];
    if x == 0 {
      assert Dec(0) == ['0'];
    } else {
      DecRead(s, i, x);
    }
  }

  /** Where byte `n` is in the text. */
  lemma TextParts(a: Address, n: nat, t: seq<char>, out: seq<char>)
    requires n < 4 && out == t + ['.'] && Out(a, n + 1) <= out && (n == 3 ==> Out(a, n + 1) == out)
    requires n < 3 ==> Out(a, n + 2) <= out
    ensures var i := |Out(a, n)|;
            && i + |Dec(a[n])| <= |t| && t[i..i + |Dec(a[n])|] == Dec(a[n])
            && (n < 3 ==> CharAt(t, i + |Dec(a[n])|) == '.' && |Out(a, n + 1)| == i + |Dec(a[n])| + 1)
            && (n == 3 ==> i + |Dec(a[n])| == |t|)
  {
    OutAt(a, n, out);
    if n < 3 { OutAt(a, n + 1, out); }
    SliceIs(t, out, |Out(a, n)|, Dec(a[n]));
  }

  lemma SliceIs(t: seq<char>, u: seq<char>, i: nat, d: seq<char>)
    requires u == t + ['.'] && i + |d| <= |t| && forall k :: 0 <= k < |d| ==> u[i + k] == d[k]
    ensures t[i..i + |d|] == d && forall k :: 0 <= k < |t| ==> t[k] == u[k]
  {
  }

  lemma {:induction false} OrSwap(x: nat, y: nat)
    ensures Or(x, y) == Or(y, x)
    decreases x
  {
    if x == 0 {
      OrZero(y);
    } else if y == 0 {
      OrZero(x);
    } else {
      OrSwap(x / 2, y / 2);
    }
  }

  lemma {:induction false} OrZero(x: nat)
    ensures Or(x, 0) == x
  {
    if x != 0 { OrZero(x / 2); }
  }

  lemma OrBelow(hi: nat, lo: nat, k: nat)
    requires lo < Pow2(k)
    ensures Or(hi * Pow2(k), lo) == hi * Pow2(k) + lo
  {
    OrSwap(hi * Pow2(k), lo);
    OrAdds(lo, hi, k);
  }

  lemma ShiftIs(x: nat, k: nat, p: nat)
    requires Pow2(k) == p && x * p < WRAP32
    ensures Shl(x, k) == x * p
  {
  }

  lemma ShiftTop(x: nat)
    requires x < 256
    ensures Shl(x, 24) == x * 0x100_0000
  {
    Pow32();
    ShiftIs(x, 24, 0x100_0000);
  }

  lemma ShiftMiddle(x: nat)
    requires x < 256
    ensures Shl(x, 16) == x * 0x1_0000
  {
    Pow32();
    ShiftIs(x, 16, 0x1_0000);
  }

  lemma ShiftLow(x: nat)
    requires x < 256
    ensures Shl(x, 8) == x * 0x100
  {
    Pow32();
    ShiftIs(x, 8, 0x100);
  }

  lemma OrPair(x: nat, y: nat)
    requires x < 256 && y < 256
    ensures Or(x * 0x100_0000, y * 0x1_0000) == (x * 256 + y) * 0x1_0000
  {
    Pow32();
    OrBelow(x, y * 0x1_0000, 24);
  }

  lemma OrThird(h: nat, z: nat)
    requires z < 256
    ensures Or(h * 0x1_0000, z * 0x100) == (h * 256 + z) * 0x100
  {
    Pow32();
    OrBelow(h, z * 0x100, 16);
  }

  lemma OrLast(h: nat, v: nat)
    requires v < 256
    ensures Or(v, h * 0x100) == h * 0x100 + v
  {
    Pow32();
    OrAdds(v, h, 8);
  }

  lemma OrParts(a: nat, b: nat, c: nat)
    requires a < 256 && b < 256 && c < 256
    ensures Or32(Or32(Shl(a, 24), Shl(b, 16)), Shl(c, 8)) == ((a * 256 + b) * 256 + c) * 0x100
  {
    ShiftTop(a);
    ShiftMiddle(b);
    ShiftLow(c);
    OrPair(a, b);
    OrThird(a * 256 + b, c);
  }

  lemma ConcoctFour(a: nat, b: nat, c: nat, d: nat)
    requires a < 256 && b < 256 && c < 256 && d < 256
    ensures Concoct([a, b, c], d) == Some(((a * 256 + b) * 256 + c) * 256 + d)
  {
    OrParts(a, b, c);
    OrLast((a * 256 + b) * 256 + c, d);
  }

  lemma ConcoctValue(a: Address)
    ensures Concoct([a[0], a[1], a[2]], a[3]) == Some(Value(a))
  {
    ConcoctFour(a[0], a[1], a[2], a[3]);
  }

  lemma TextAt(a: Address, n: nat)
    requires n < 4
    ensures Text(a) + ['.'] == Out(a, 4) && Out(a, n + 1) <= Out(a, 4) && (n < 3 ==> Out(a, n + 2) <= Out(a, 4))
  {
    OutIsText(a);
    OutPrefix(a, n + 1);
    if n < 3 { OutPrefix(a, n + 2); }
  }

  /** The parser takes byte `n` of the text for what it is, and goes on behind the dot. */
  lemma PartStep(a: Address, n: nat, parts: seq<nat>, s: seq<char>, out: seq<char>)
    requires n == |parts| < 4 && out == s + ['.'] && Out(a, n + 1) <= out && (n == 3 ==> Out(a, n + 1) == out)
    requires n < 3 ==> Out(a, n + 2) <= out
    ensures Parse(s, |Out(a, n)|, parts) ==
              if n < 3 then Parse(s, |Out(a, n + 1)|, parts + [a[n]]) else Concoct(parts, a[n])
  {
    PartField(a, n, s, out);
    ParseStep(s, |Out(a, n)|, parts, a[n], |Out(a, n)| + |Dec(a[n])|);
  }

  /** What the parser finds at byte `n`: its digits, and then a dot or the end. */
  lemma PartField(a: Address, n: nat, s: seq<char>, out: seq<char>)
    requires n < 4 && out == s + ['.'] && Out(a, n + 1) <= out && (n == 3 ==> Out(a, n + 1) == out)
    requires n < 3 ==> Out(a, n + 2) <= out
    ensures var i := |Out(a, n)|;
            && IsDigit(CharAt(s, i)) && Field(s, i) == (a[n], i + |Dec(a[n])|)
            && (n < 3 ==> CharAt(s, i + |Dec(a[n])|) == '.' && |Out(a, n + 1)| == i + |Dec(a[n])| + 1)
            && (n == 3 ==> CharAt(s, i + |Dec(a[n])|) == NUL)
  {
    TextParts(a, n, s, out);
    ByteRead(s, |Out(a, n)|, a[n]);
  }

  lemma ParseStep(s: seq<char>, i: nat, parts: seq<nat>, v: nat, end: nat)
    requires |parts| <= 3 && IsDigit(CharAt(s, i)) && Field(s, i) == (v, end)
    ensures CharAt(s, end) == '.' && |parts| < 3 ==> Parse(s, i, parts) == Parse(s, end + 1, parts + [v])
    ensures CharAt(s, end) == NUL ==> Parse(s, i, parts) == Concoct(parts, v)
  {
  }

  lemma ParseSpace(s: seq<char>, i: nat, parts: seq<nat>, v: nat, end: nat)
    requires |parts| <= 3 && IsDigit(CharAt(s, i)) && Field(s, i) == (v, end) && IsSpace(CharAt(s, end))
    ensures Parse(s, i, parts) == Concoct(parts, v)
  {
  }

  lemma PartRead(a: Address, n: nat, parts: seq<nat>)
    requires n == |parts| < 4
    ensures Parse(Text(a), |Out(a, n)|, parts) ==
              if n < 3 then Parse(Text(a), |Out(a, n + 1)|, parts + [a[n]]) else Concoct(parts, a[n])
  {
    TextAt(a, n);
    PartStep(a, n, parts, Text(a), Out(a, 4));
  }

  /** The parser reads every printed address back. */
  lemma RoundTrip(a: Address)
    ensures Parsed(Text(a)) == Some(a)
  {
    var s := Text(a);
    PartRead(a, 0, []);
    PartRead(a, 1, [a[0]]);
    PartRead(a, 2, [a[0], a[1]]);
    PartRead(a, 3, [a[0], a[1], a[2]]);
    assert [] + [a[0]] == [a[0]] && [a[0]] + [a[1]] == [a[0], a[1]] && [a[0], a[1]] + [a[2]] == [a[0], a[1], a[2]];
    ConcoctValue(a);
    ValueOctets(a);
  }

  // ----- Which texts are addresses -----

  /** At `i` there are parts with these values, with a dot between any two, and the text or a space ends the last. */
  ghost predicate Dotted(s: seq<char>, i: nat, vals: seq<nat>)
    decreases |vals|
  {
    && vals != []
    && exists end: nat :: FieldIs(s, i, vals[0], end)
                     && (if |vals| > 1 then CharAt(s, end) == '.' && Dotted(s, end + 1, vals[1..])
                         else CharAt(s, end) in {NUL, ' ', '\t', '\n', '\r', 0x0b as char, 0x0c as char})
  }

  /** The digits of a part are all there are, so it ends in one place only. */
  lemma NumeralUnique(s: seq<char>, i: nat, base: nat, v: nat, end: nat, v': nat, end': nat)
    requires Numeral(s, i, base, 0, v, end) && Numeral(s, i, base, 0, v', end')
    ensures end == end' && v == v'
  {
    NotShorter(s, i, base, v, end, v', end');
    NotShorter(s, i, base, v', end', v, end);
  }

  lemma DigitInside(s: seq<char>, i: nat, base: nat, v: nat, end: nat, k: nat)
    requires Numeral(s, i, base, 0, v, end) && i <= k < end
    ensures IsDigitOf(s[k], base)
  {
    assert s[i..end][k - i] == s[k];
  }

  lemma NotShorter(s: seq<char>, i: nat, base: nat, v: nat, end: nat, v': nat, end': nat)
    requires Numeral(s, i, base, 0, v, end) && Numeral(s, i, base, 0, v', end')
    ensures end >= end'
  {
    if end < end' { DigitInside(s, i, base, v', end', end); }
  }

  lemma FieldExactly(s: seq<char>, i: nat, v: nat, end: nat)
    requires IsDigit(CharAt(s, i))
    ensures FieldIs(s, i, v, end) <==> Field(s, i) == (v, end)
  {
    FieldMeans(s, i);
    var (start, base) := Prefix(s, i);
    if FieldIs(s, i, v, end) { NumeralUnique(s, start, base, v, end, Field(s, i).0, Field(s, i).1); }
  }

  /** The address of some parts and these. */
  ghost function Joint(parts: seq<nat>, vals: seq<nat>): Option<nat>
    requires 1 <= |vals| <= 4 - |parts| && vals[|vals| - 1] < WRAP32
  {
    Concoct(parts + vals[..|vals| - 1], vals[|vals| - 1])
  }

  lemma JointStep(parts: seq<nat>, vals: seq<nat>)
    requires 1 <= |vals| <= 4 - |parts| && vals[|vals| - 1] < WRAP32
    ensures |vals| > 1 ==> Joint(parts, vals) == Joint(parts + [vals[0]], vals[1..])
    ensures |vals| == 1 ==> Joint(parts, vals) == Concoct(parts, vals[0])
  {
    if |vals| > 1 {
      assert parts + vals[..|vals| - 1] == (parts + [vals[0]]) + vals[1..][..|vals| - 2];
    } else {
      assert parts + vals[..0] == parts;
    }
  }

  /** Parts at `i`: the first one, and what comes behind it. */
  lemma DottedFirst(s: seq<char>, i: nat, vals: seq<nat>) returns (end: nat)
    requires Dotted(s, i, vals)
    ensures FieldIs(s, i, vals[0], end)
    ensures if |vals| > 1 then CharAt(s, end) == '.' && Dotted(s, end + 1, vals[1..])
            else CharAt(s, end) == NUL || IsSpace(CharAt(s, end))
  {
    end :| FieldIs(s, i, vals[0], end)
           && (if |vals| > 1 then CharAt(s, end) == '.' && Dotted(s, end + 1, vals[1..])
               else CharAt(s, end) in {NUL, ' ', '\t', '\n', '\r', 0x0b as char, 0x0c as char});
  }

  lemma DottedTurn(s: seq<char>, i: nat, parts: seq<nat>, vals: seq<nat>) returns (end: nat)
    requires Dotted(s, i, vals) && |parts| + |vals| <= 4 && vals[|vals| - 1] < WRAP32
    ensures |vals| > 1 ==> Dotted(s, end + 1, vals[1..]) && Parse(s, i, parts) == Parse(s, end + 1, parts + [vals[0]])
    ensures |vals| == 1 ==> Parse(s, i, parts) == Concoct(parts, vals[0])
  {
    end := DottedFirst(s, i, vals);
    FieldExactly(s, i, vals[0], end);
    ParseStep(s, i, parts, vals[0], end);
    if IsSpace(CharAt(s, end)) { ParseSpace(s, i, parts, vals[0], end); }
  }

  lemma {:induction false} DottedParse(s: seq<char>, i: nat, parts: seq<nat>, vals: seq<nat>)
    requires Dotted(s, i, vals) && 1 <= |vals| <= 4 - |parts| && vals[|vals| - 1] < WRAP32
    ensures Parse(s, i, parts) == Joint(parts, vals)
    decreases |vals|
  {
    var end := DottedTurn(s, i, parts, vals);
    JointStep(parts, vals);
    if |vals| > 1 { DottedParse(s, end + 1, parts + [vals[0]], vals[1..]); }
  }

  lemma {:induction false} ParseDotted(s: seq<char>, i: nat, parts: seq<nat>) returns (vals: seq<nat>)
    requires |parts| <= 3 && Parse(s, i, parts).Some?
    ensures Dotted(s, i, vals) && |parts| + |vals| <= 4 && vals[|vals| - 1] < WRAP32
    decreases 4 - |parts|
  {
    var (val, end) := Field(s, i);
    FieldExactly(s, i, val, end);
    if CharAt(s, end) == '.' {
      var more := ParseDotted(s, end + 1, parts + [val]);
      vals := [val] + more;
      assert vals[1..] == more;
    } else {
      vals := [val];
    }
  }

  /** The values of one to four parts, and the value of the address they make. */
  ghost predicate Makes(vals: seq<nat>, v: nat)
  {
    1 <= |vals| <= 4 && vals[|vals| - 1] < WRAP32 && Concoct(vals[..|vals| - 1], vals[|vals| - 1]) == Some(v)
  }

  /** The parser accepts exactly the texts of one to four parts that make an address, with nothing behind them but
      what follows a space, and its answer is that address. */
  lemma AcceptsExactly(s: seq<char>, a: Address)
    ensures Parsed(s) == Some(a) <==>
            exists vals, v: nat :: v < WRAP32 && Dotted(s, 0, vals) && Makes(vals, v) && Octets(v) == a
  {
    if Parsed(s) == Some(a) {
      var vals := ParseDotted(s, 0, []);
      DottedParse(s, 0, [], vals);
      assert [] + vals[..|vals| - 1] == vals[..|vals| - 1];
      assert Makes(vals, Parse(s, 0, []).value);
    }
    if vals, v: nat :| v < WRAP32 && Dotted(s, 0, vals) && Makes(vals, v) && Octets(v) == a {
      DottedParse(s, 0, [], vals);
      assert [] + vals[..|vals| - 1] == vals[..|vals| - 1];
    }
  }

  // ----- Digits and bytes -----

  lemma {:induction false} PositionalSnoc(t: seq<char>, c: char)
    requires IsDigitOf(c, 10) && forall k :: 0 <= k < |t| ==> IsDigitOf(t[k], 10)
    ensures forall k :: 0 <= k < |t + [c]| ==> IsDigitOf((t + [c])[k], 10)
    ensures Positional(t + [c], 10) == 10 * Positional(t, 10) + (c - '0') as nat
  {
    if t != [] {
      assert (t + [c])[1..] == t[1..] + [c];
      PositionalSnoc(t[1..], c);
      PowerStep(t[0], |t| - 1);
    } else {
      assert [] + [c] == [c] && [c][1..] == [];
    }
  }

  lemma PowerStep(c: char, n: nat)
    requires IsDigitOf(c, 10)
    ensures DigitOf(c, 10) * Power(10, n + 1) == 10 * (DigitOf(c, 10) * Power(10, n))
  {
  }

  /** What is printed for a byte are decimal digits, their value is the byte, and none is a leading zero. */
  lemma {:induction false} DecMeans(x: nat)
    ensures forall k :: 0 <= k < |Dec(x)| ==> IsDigitOf(Dec(x)[k], 10)
    ensures Positional(Dec(x), 10) == x && (Dec(x)[0] == '0' ==> Dec(x) == ['0'])
  {
    DecHead(x);
    if x >= 10 {
      DecMeans(x / 10);
      PositionalSnoc(Dec(x / 10), Digit(x % 10));
    } else {
      assert Dec(x)[1..] == [];
    }
  }

  /** The netmask test looks at the bytes in network order, the first one in memory on top. */
  lemma HtonlMeans(a: Address)
    ensures Htonl(a[0] + 0x100 * a[1] + 0x1_0000 * a[2] + 0x100_0000 * a[3]) ==
            0x100_0000 * a[0] + 0x1_0000 * a[1] + 0x100 * a[2] + a[3]
  {
    var h1 := a[3] * 256 + a[2];
    var h2 := h1 * 256 + a[1];
    var x := h2 * 256 + a[0];
    assert x == a[0] + 0x100 * a[1] + 0x1_0000 * a[2] + 0x100_0000 * a[3];
    DivTwice(x);
    Split(h2, a[0]);
    Split(h1, a[1]);
    Split(a[3], a[2]);
  }
}
