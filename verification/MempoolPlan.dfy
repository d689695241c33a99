/**
  The sizes and addresses that mempool_create_datastore of libix/mempool.c computes for the elements of a datastore,
  in ints of 32 bits and in size_t of 64, against those that are meant. Addresses are byte offsets.
 */
module MempoolPlan {

  const PAGE: nat := 0x20_0000
  const INT: nat := 0x1_0000_0000
  const SIZE: nat := 0x1_0000_0000_0000_0000

  /** The value an int keeps. */
  function Int32(x: int): (r: int)
    ensures -0x8000_0000 <= r < 0x8000_0000
    ensures -0x8000_0000 <= x < 0x8000_0000 ==> r == x
  {
    var y := x % INT;
    if y < 0x8000_0000 then y else y - INT
  }

  /** The value a size_t or a uintptr_t keeps. */
  function Size(x: int): (r: nat)
    ensures r < SIZE
    ensures 0 <= x < SIZE ==> r == x
  {
    x % SIZE
  }

  /** Division of ints, rounded toward zero. */
  function Trunc(x: int, d: nat): (q: int)
    requires 0 < d
    ensures x <= 0 ==> q <= 0
  {
    DivTimes(if x >= 0 then x else -x, d);
    if x >= 0 then Quot(x, d) else 0 - Quot(-x, d)
  }

  function AlignUp(x: nat): (r: nat)
    ensures x <= r < x + 8 && r % 8 == 0
  {
    (x + 7) / 8 * 8
  }

  /** x / d, rounded down. */
  function Quot(x: nat, d: nat): (q: nat)
    requires 0 < d
    ensures d <= x ==> 0 < q
    ensures q <= x
  {
    DivTimes(x, d);
    if d <= x then (DivAtLeast(x, d, 1); x / d) else x / d
  }

  function DivUp(x: nat, d: nat): nat
    requires 0 < d
  {
    Quot(x + d - 1, d)
  }

  lemma Multiple(d: int, n: nat)
    ensures (d >= 1 ==> d * n >= n) && (d <= -1 ==> d * n + n <= 0)
  {
    if d >= 1 { assert (d - 1) * n >= 0; }
    if d <= -1 { assert (-d - 1) * n >= 0; }
  }

  lemma AtMost(a: nat, b: nat, n: nat)
    requires a <= b
    ensures a * n <= b * n
  {
    Multiple(b - a, n);
    assert (b - a) * n == b * n - a * n;
  }

  lemma Quotient(x: nat, n: nat, q: nat, r: nat)
    requires 0 < n && x == q * n + r && r < n
    ensures x / n == q
  {
    var d := x / n - q;
    assert x == x / n * n + x % n;
    assert d * n == r - x % n;
    Multiple(d, n);
  }

  lemma DivTimes(x: nat, d: nat)
    requires 0 < d
    ensures x / d * d <= x < x / d * d + d && x / d <= x
  {
    assert x == x / d * d + x % d;
    Multiple(d - 1, x / d);
  }

  /** Fits exactly when it fits as often. */
  lemma DivAtLeast(x: nat, d: nat, k: nat)
    requires 0 < d && k * d <= x
    ensures k <= x / d
  {
    DivTimes(x, d);
    Multiple(k - x / d, d);
    assert (k - x / d) * d == k * d - x / d * d;
  }

  // ----- What is meant -----

  /** The layout of a datastore: elements in a run, pages, runs, and the length of an element. */
  datatype Layout = Invalid | Layout(perPage: int, pages: int, loops: int, len: nat)

  /** The sizes without limits. Elements that may straddle pages are laid out in one run. */
  function Plan(nrElems: nat, elemLen: nat, nostraddle: bool): Layout
    requires nostraddle ==> AlignUp(elemLen) <= PAGE
  {
    if elemLen == 0 || nrElems == 0 then Invalid
    else
      var len := AlignUp(elemLen);
      if nostraddle then
        var perPage := Quot(PAGE, len);
        Layout(perPage, DivUp(nrElems, perPage), DivUp(nrElems, perPage), len)
      else
        var pages := Quot(nrElems * len + PAGE - 1, PAGE);
        Layout(Quot(pages * PAGE, len), pages, 1, len)
  }

  /** `n` elements from `start` on. */
  function Run(start: nat, n: int, len: nat): (es: seq<nat>)
    ensures |es| == if n < 0 then 0 else n
    decreases n
  {
    if n <= 0 then [] else [start] + Run(start + len, n - 1, len)
  }

  /** The elements of runs `i` to `loops`, each on a page of its own. */
  function Elements(buf: nat, i: nat, l: Layout): seq<nat>
    requires l.Layout?
    decreases l.loops - i
  {
    if l.loops <= i then [] else Run(buf + i * PAGE, l.perPage, l.len) + Elements(buf, i + 1, l)
  }

  // ----- What is computed -----

  /** The sizes mempool_create_datastore computes: `nr_pages`, `nr_elems` and the product of two ints in libix/mempool.c
      are ints, the products with `elem_len` are not. */
  function Computed(nrElems: nat, elemLen: nat, nostraddle: bool): Layout
    requires nostraddle ==> AlignUp(elemLen) <= PAGE
  {
    if elemLen == 0 || nrElems == 0 then Invalid
    else
      var len := AlignUp(elemLen);
      if nostraddle then
        var perPage := Quot(PAGE, len);
        var pages := Trunc(Int32(nrElems + perPage - 1), perPage);
        Layout(perPage, pages, pages, len)
      else
        var pages := Int32(Quot(Size(nrElems * len + PAGE - 1), PAGE));
        Layout(Int32(Quot(Size(Int32(pages * PAGE)), len)), pages, 1, len)
  }

  /** `cur` in the inner loop: it moves on by `elem_len`. */
  function Row(start: nat, n: int, len: nat): (es: seq<nat>)
    ensures |es| == if n < 0 then 0 else n
    decreases n
  {
    if n <= 0 then [] else [start] + Row(Size(start + len), n - 1, len)
  }

  /** `cur` at the start of page `i`: the offset is an int. */
  function PageAt(buf: nat, i: nat): nat
  {
    Size(buf + Int32(i * PAGE))
  }

  /** The addresses the loops of mempool_init_buf_with_pages visit from page `i` on. */
  function Visited(buf: nat, i: nat, l: Layout): seq<nat>
    requires l.Layout?
    decreases l.loops - i
  {
    if l.loops <= i then [] else Row(PageAt(buf, i), l.perPage, l.len) + Visited(buf, i + 1, l)
  }

  // ----- When they agree -----

  /** What a caller can check: fewer than 1024 pages of elements that may straddle pages, or at most 1024 of others.
      For more than 15359 pages the overflowed product may happen to give the right quotient. */
  predicate LayoutRight(nrElems: nat, elemLen: nat, nostraddle: bool)
    requires nostraddle ==> AlignUp(elemLen) <= PAGE
  {
    var l := Plan(nrElems, elemLen, nostraddle);
    l.Layout? ==> if nostraddle then l.pages <= 1024 else l.pages < 1024 || Coincides(l.pages, l.perPage, l.len)
  }

  predicate Coincides(pages: int, perPage: int, len: nat)
  {
    pages >= 0 && len > 0 && pages % 2048 >= 1024 && perPage < 0x8000_0000 && (INT - 1 - pages / 2048) % len == 0
  }

  lemma ModIs(x: int, k: int, y: nat)
    requires x == k * 0x1_0000_0000 + y && y < INT
    ensures x % INT == y
  {
  }

  /** The int product of a page count and the size of a page. */
  lemma ProductWraps(p: nat, m: nat, r: nat)
    requires p == 2048 * m + r && r < 2048
    ensures Int32(Int32(p) * PAGE) == if r < 1024 then r * PAGE else r * PAGE - INT
    ensures p * PAGE == m * INT + r * PAGE
  {
    var t := (p - Int32(p)) / INT;
    assert Int32(p) == p - t * INT;
    ModIs(Int32(p) * PAGE, m - t * PAGE, r * PAGE);
  }

  /** The product is smaller by a multiple of 2^32, and so is the quotient smaller. */
  lemma LowProduct(x: nat, v: nat, m: nat, len: nat, q: nat)
    requires 0 < len && x == m * INT + v && v < 0x8000_0000 && q == x / len && 1 <= q
    ensures v / len == q <==> m == 0
  {
    if v / len == q && m > 0 {
      DivTimes(x, len);
      DivTimes(v, len);
      Multiple(q, len);
      assert false;
    }
  }

  /** A negative product becomes a size_t of nearly 2^64; the quotient differs by a multiple of 2^32 only if the length
      divides the difference. */
  lemma HighProduct(x: nat, y: nat, e: nat, len: nat, q: nat, z: nat)
    requires 0 < len < 0x8000_0000_0000_0000 && y == x + INT * e && 0x8000_0000 <= e < INT
    requires q * len <= x < q * len + len && z * len <= y < z * len + len
    ensures Int32(z) == q <==> q < 0x8000_0000 && e % len == 0
  {
    if q < 0x8000_0000 && e % len == 0 { Congruent(x, y, e, len, q, z, e / len); }
    if Int32(z) == q { Divides(x, y, e, len, q, z); }
  }

  lemma Shifted(x: int, y: int, e: int, len: int, q: int, k: int, z: int)
    requires y == x + INT * e && z == q + INT * k
    ensures y - z * len == (x - q * len) + INT * (e - k * len)
  {
    assert z * len == q * len + INT * (k * len);
  }

  lemma Congruent(x: nat, y: nat, e: nat, len: nat, q: nat, z: nat, k: nat)
    requires 0 < len && y == x + INT * e && q < 0x8000_0000 && e % len == 0 && k == e / len
    requires q * len <= x < q * len + len && z * len <= y < z * len + len
    ensures Int32(z) == q
  {
    assert e == k * len;
    Shifted(x, y, e, len, q, k, q + INT * k);
    SameQuotient(y, len, z, q + INT * k);
    ModIs(q + INT * k, k, q);
  }

  lemma SameQuotient(y: nat, len: nat, z: nat, w: nat)
    requires 0 < len && z * len <= y < z * len + len && w * len <= y < w * len + len
    ensures z == w
  {
    Multiple(z - w, len);
    assert (z - w) * len == z * len - w * len;
  }

  lemma Divides(x: nat, y: nat, e: nat, len: nat, q: nat, z: nat)
    requires 0 < len < 0x8000_0000_0000_0000 && y == x + INT * e && 0x8000_0000 <= e < INT && Int32(z) == q
    requires q * len <= x < q * len + len && z * len <= y < z * len + len
    ensures q < 0x8000_0000 && e % len == 0
  {
    var k := (z - q) / INT;
    ByWraps(z, q);
    Shifted(x, y, e, len, q, k, z);
    Close(e, k, len, x - q * len, y - z * len);
    NoRest(e, len, k);
  }

  lemma ByWraps(z: nat, q: nat)
    requires Int32(z) == q
    ensures z == q + INT * ((z - q) / INT)
  {
  }

  lemma Close(e: nat, k: int, len: nat, a: nat, b: nat)
    requires 0 < len < 0x8000_0000_0000_0000 && 0x8000_0000 <= e < INT
    requires a < len && b < len && b == a + INT * (e - k * len)
    ensures e == k * len && 0 <= k
  {
    if k <= 0 {
      Multiple(0 - k, len);
      NotNegative(e, k * len, len, a, b);
    } else {
      Multiple(k - 1, len);
      OnlyZero(e, k * len, len, a, b);
    }
  }

  lemma OnlyZero(e: nat, kl: int, len: nat, a: nat, b: nat)
    requires e < INT && len <= kl && a < len && b < len && b == a + INT * (e - kl)
    ensures e == kl
  {
  }

  lemma NotNegative(e: nat, kl: int, len: nat, a: nat, b: nat)
    requires len < 0x8000_0000_0000_0000 && 0x8000_0000 <= e && b < len && b == a + INT * (e - kl)
    ensures 0 < kl
  {
  }

  lemma NoRest(e: nat, len: nat, k: nat)
    requires 0 < len && e == k * len
    ensures e % len == 0
  {
    Quotient(e, len, k, 0);
    assert e == e / len * len + e % len;
  }

  lemma ByEight(e: nat, len: nat)
    requires len % 8 == 0 && 0 < len && e % len == 0
    ensures e % 8 == 0
  {
    var k := e / len;
    assert e == k * len;
    assert len == 8 * (len / 8);
    assert e == 8 * (k * (len / 8));
  }

  /** The element count that is computed for `p` pages. */
  function Count(p: nat, len: nat): int
    requires 0 < len
  {
    Int32(Quot(Size(Int32(Int32(p) * PAGE)), len))
  }

  lemma LowCount(p: nat, m: nat, r: nat, len: nat)
    requires 0 < len && p == 2048 * m + r && r < 1024
    ensures Count(p, len) == r * PAGE / len
  {
    ProductWraps(p, m, r);
    DivTimes(r * PAGE, len);
  }

  lemma HighCount(p: nat, m: nat, r: nat, len: nat)
    requires 0 < len && p == 2048 * m + r && 1024 <= r < 2048
    ensures Count(p, len) == Int32((SIZE + (r * PAGE - INT)) / len)
  {
    ProductWraps(p, m, r);
    assert Size(r * PAGE - INT) == SIZE + (r * PAGE - INT);
  }

  lemma RunLow(p: nat, m: nat, r: nat, len: nat, q: nat)
    requires 0 < len && p == 2048 * m + r && r < 1024 && q == p * PAGE / len && 1 <= q
    ensures Count(p, len) == q <==> m == 0
  {
    ProductWraps(p, m, r);
    LowCount(p, m, r, len);
    LowProduct(p * PAGE, r * PAGE, m, len, q);
  }

  lemma RunHigh(p: nat, m: nat, r: nat, len: nat, q: nat)
    requires 0 < len < 0x8000_0000_0000_0000 && p == 2048 * m + r && 1024 <= r < 2048 && m < 0x8000_0000
    requires q == p * PAGE / len
    ensures Count(p, len) == q <==> q < 0x8000_0000 && (INT - 1 - m) % len == 0
  {
    ProductWraps(p, m, r);
    HighCount(p, m, r, len);
    var y := SIZE + (r * PAGE - INT);
    DivTimes(p * PAGE, len);
    DivTimes(y, len);
    HighProduct(p * PAGE, y, INT - 1 - m, len, q, y / len);
  }

  /** The number of elements in a run over all pages is right exactly for fewer than 1024 pages, or by coincidence. */
  lemma RunRight(p: nat, len: nat, q: nat)
    requires 8 <= len < 0x8000_0000_0000_0000 && len % 8 == 0 && p < 0x400_0000_0000
    requires q == p * PAGE / len && 1 <= q
    ensures Count(p, len) == q <==> p < 1024 || Coincides(p, q, len)
  {
    var m, r := p / 2048, p % 2048;
    if r < 1024 {
      RunLow(p, m, r, len, q);
    } else {
      RunHigh(p, m, r, len, q);
      if m == 0 && (INT - 1) % len == 0 { ByEight(INT - 1, len); }
    }
  }

  // ----- Addresses -----

  lemma {:induction false} RowIsRun(start: nat, n: nat, len: nat)
    requires start + n * len <= SIZE && 0 < len
    ensures Row(start, n, len) == Run(start, n, len)
    decreases n
  {
    if 1 < n {
      Multiple(n - 1, len);
      assert n * len == (n - 1) * len + len;
      RowIsRun(start + len, n - 1, len);
    }
  }

  lemma {:induction false} VisitedRight(buf: nat, i: nat, l: Layout)
    requires l.Layout? && l.loops <= 1024 && 0 <= l.perPage && 0 < l.len
    requires forall k :: i <= k < l.loops ==> buf + k * PAGE + l.perPage * l.len <= SIZE
    ensures Visited(buf, i, l) == Elements(buf, i, l)
    decreases l.loops - i
  {
    if i < l.loops {
      Multiple(l.perPage, l.len);
      assert buf + i * PAGE + l.perPage * l.len <= SIZE;
      if 0 < l.perPage { assert PageAt(buf, i) == buf + i * PAGE; RowIsRun(buf + i * PAGE, l.perPage, l.len); }
      VisitedRight(buf, i + 1, l);
    }
  }

  /** Where the elements are as they should be, they are so on each page. */
  lemma {:induction false} SameRest(buf: nat, i: nat, l: Layout, k: nat)
    requires l.Layout? && i <= k <= l.loops && Visited(buf, i, l) == Elements(buf, i, l)
    ensures Visited(buf, k, l) == Elements(buf, k, l)
    decreases k - i
  {
    if i < k {
      var a, b, c, d := Row(PageAt(buf, i), l.perPage, l.len), Visited(buf, i + 1, l),
                        Run(buf + i * PAGE, l.perPage, l.len), Elements(buf, i + 1, l);
      assert (a + b)[|a|..] == b && (c + d)[|c|..] == d;
      SameRest(buf, i + 1, l, k);
    }
  }

  /** The offset of page 1024 is negative. */
  lemma FarPages(buf: nat, l: Layout)
    requires l.Layout? && 1024 < l.loops && 0 < l.perPage && buf < SIZE
    ensures Visited(buf, 0, l) != Elements(buf, 0, l)
  {
    FirstFar(buf, l);
    if Visited(buf, 0, l) == Elements(buf, 0, l) {
      SameRest(buf, 0, l, 1024);
    }
  }

  lemma FirstFar(buf: nat, l: Layout)
    requires l.Layout? && 1024 < l.loops && 0 < l.perPage && buf < SIZE
    ensures Visited(buf, 1024, l) != [] && Elements(buf, 1024, l) != []
    ensures Visited(buf, 1024, l)[0] != Elements(buf, 1024, l)[0]
  {
  }

  // ----- The plan -----

  lemma PlanStraddles(nrElems: nat, len: nat, pages: nat)
    requires 0 < len && pages == Quot(nrElems * len + PAGE - 1, PAGE) && 0 < nrElems
    ensures Quot(pages * PAGE, len) * len <= pages * PAGE && nrElems <= Quot(pages * PAGE, len) && 0 < pages
    ensures nrElems * len <= pages * PAGE < nrElems * len + PAGE
  {
    DivTimes(nrElems * len + PAGE - 1, PAGE);
    DivTimes(pages * PAGE, len);
    DivAtLeast(pages * PAGE, len, nrElems);
    Multiple(nrElems, len);
  }

  lemma PlanOnPages(nrElems: nat, len: nat, pages: nat)
    requires 0 < len <= PAGE && 0 < nrElems && pages == DivUp(nrElems, Quot(PAGE, len))
    ensures 0 < Quot(PAGE, len) && Quot(PAGE, len) * len <= PAGE && nrElems <= pages * Quot(PAGE, len) && 0 < pages
  {
    var n := Quot(PAGE, len);
    DivTimes(PAGE, len);
    DivAtLeast(PAGE, len, 1);
    DivTimes(nrElems + n - 1, n);
    DivAtLeast(nrElems + n - 1, n, 1);
  }

  /** The planned elements fit the pages, and there are at least as many as were asked for. */
  lemma PlanFits(nrElems: nat, elemLen: nat, nostraddle: bool)
    requires nostraddle ==> AlignUp(elemLen) <= PAGE
    requires 0 < elemLen && 0 < nrElems
    ensures var l := Plan(nrElems, elemLen, nostraddle);
            && l.Layout? && elemLen <= l.len && 0 < l.loops && 0 < l.perPage
            && (1 < l.loops ==> l.perPage * l.len <= PAGE)
            && (l.loops - 1) * PAGE + l.perPage * l.len <= l.pages * PAGE
            && nrElems <= l.loops * l.perPage
  {
    var l := Plan(nrElems, elemLen, nostraddle);
    if nostraddle {
      PlanOnPages(nrElems, l.len, l.pages);
    } else {
      PlanStraddles(nrElems, l.len, l.pages);
    }
  }

  // ----- The theorem -----

  /** The sizes a caller can mean: `nr_elems` is an int, and the bytes fit the memory of the machine. */
  predicate Sizes(buf: nat, nrElems: nat, elemLen: nat, nostraddle: bool)
  {
    && 0 < nrElems < 0x8000_0000 && 0 < elemLen && (nostraddle ==> AlignUp(elemLen) <= PAGE)
    && nrElems * AlignUp(elemLen) + PAGE <= 0x8000_0000_0000_0000
    && buf + Plan(nrElems, elemLen, nostraddle).pages * PAGE <= SIZE
  }

  /** The sizes of a layout on pages, when the sum that is divided is an int and when not. */
  lemma OnPagesComputed(nrElems: nat, elemLen: nat)
    requires 0 < nrElems < 0x8000_0000 && 0 < elemLen && AlignUp(elemLen) <= PAGE
    ensures var p, c := Plan(nrElems, elemLen, true), Computed(nrElems, elemLen, true);
            if nrElems + p.perPage - 1 < 0x8000_0000 then c == p else c.loops <= 0
  {
  }

  lemma OnPagesExactly(buf: nat, nrElems: nat, elemLen: nat)
    requires Sizes(buf, nrElems, elemLen, true)
    ensures Visited(buf, 0, Computed(nrElems, elemLen, true)) == Elements(buf, 0, Plan(nrElems, elemLen, true))
            <==> LayoutRight(nrElems, elemLen, true)
  {
    var p := Plan(nrElems, elemLen, true);
    PlanOnPages(nrElems, p.len, p.pages);
    OnPagesComputed(nrElems, elemLen);
    if nrElems + p.perPage - 1 >= 0x8000_0000 {
      ManyPages(nrElems, p.perPage, p.len, p.pages);
      assert Elements(buf, 0, p) != [];
    } else if p.pages <= 1024 {
      RunsInside(buf, p);
      VisitedRight(buf, 0, p);
    } else {
      FarPages(buf, p);
    }
  }

  lemma RunsInside(buf: nat, l: Layout)
    requires l.Layout? && 0 < l.perPage && 0 < l.len && l.perPage * l.len <= PAGE && buf + l.loops * PAGE <= SIZE
    ensures forall k :: 0 <= k < l.loops ==> buf + k * PAGE + l.perPage * l.len <= SIZE
  {
  }

  lemma ManyPages(nrElems: nat, perPage: nat, len: nat, pages: nat)
    requires 8 <= len && 0 < perPage && perPage * len <= PAGE && nrElems <= pages * perPage
    requires 0x8000_0000 <= nrElems + perPage - 1
    ensures 1024 < pages
  {
    Multiple(perPage, len - 8);
    assert perPage * len == perPage * 8 + perPage * (len - 8);
    if pages <= 1024 { AtMost(pages, 1024, perPage); }
  }

  lemma StraddlingExactly(buf: nat, nrElems: nat, elemLen: nat)
    requires Sizes(buf, nrElems, elemLen, false)
    ensures Visited(buf, 0, Computed(nrElems, elemLen, false)) == Elements(buf, 0, Plan(nrElems, elemLen, false))
            <==> LayoutRight(nrElems, elemLen, false)
  {
    var p, c := Plan(nrElems, elemLen, false), Computed(nrElems, elemLen, false);
    PlanStraddles(nrElems, p.len, p.pages);
    Multiple(nrElems, p.len);
    RunRight(p.pages, p.len, p.perPage);
    StraddlingComputed(nrElems, elemLen);
    assert |Elements(buf, 0, p)| == p.perPage;
    if c.perPage == p.perPage {
      VisitedRight(buf, 0, c);
      assert Elements(buf, 0, c) == Elements(buf, 0, p);
    } else {
      assert |Visited(buf, 0, c)| != p.perPage;
    }
  }

  /** The elements that are linked are the planned ones if and only if `LayoutRight`. */
  lemma LayoutExactly(buf: nat, nrElems: nat, elemLen: nat, nostraddle: bool)
    requires Sizes(buf, nrElems, elemLen, nostraddle)
    ensures Visited(buf, 0, Computed(nrElems, elemLen, nostraddle)) ==
              Elements(buf, 0, Plan(nrElems, elemLen, nostraddle))
            <==> LayoutRight(nrElems, elemLen, nostraddle)
  {
    if nostraddle {
      OnPagesExactly(buf, nrElems, elemLen);
    } else {
      StraddlingExactly(buf, nrElems, elemLen);
    }
  }

  /** Up to 30 GiB there is no coincidence. */
  lemma NoCoincidence(nrElems: nat, elemLen: nat)
    requires 0 < nrElems && 0 < elemLen && Plan(nrElems, elemLen, false).pages < 15360
    ensures LayoutRight(nrElems, elemLen, false) <==> Plan(nrElems, elemLen, false).pages < 1024
  {
    var l := Plan(nrElems, elemLen, false);
    var e := INT - 1 - l.pages / 2048;
    if e % l.len == 0 { ByEight(e, l.len); }
  }

  /** When the product has wrapped to a value that is not negative, there are fewer elements than were asked for. */
  lemma TooFew(buf: nat, nrElems: nat, elemLen: nat)
    requires Sizes(buf, nrElems, elemLen, false)
    requires var p := Plan(nrElems, elemLen, false).pages; 1024 <= p && p % 2048 < 1024
    ensures |Visited(buf, 0, Computed(nrElems, elemLen, false))| < nrElems
  {
    var l := Plan(nrElems, elemLen, false);
    PlanStraddles(nrElems, l.len, l.pages);
    StraddlingComputed(nrElems, elemLen);
    FewerOn(l.pages, nrElems, l.len);
  }

  lemma StraddlingComputed(nrElems: nat, elemLen: nat)
    requires 0 < nrElems < 0x8000_0000 && 0 < elemLen && nrElems * AlignUp(elemLen) + PAGE <= 0x8000_0000_0000_0000
    ensures var p, c := Plan(nrElems, elemLen, false), Computed(nrElems, elemLen, false);
            c.Layout? && c.perPage == Count(p.pages, p.len) && c.loops == 1 && c.len == p.len
  {
  }

  lemma FewerOn(p: nat, nr: nat, len: nat)
    requires 0 < len && 1024 <= p && p % 2048 < 1024 && p * PAGE < nr * len + PAGE
    ensures Count(p, len) < nr
  {
    var m, r := p / 2048, p % 2048;
    ProductWraps(p, m, r);
    LowCount(p, m, r, len);
    DivTimes(r * PAGE, len);
    Fewer(p * PAGE, r * PAGE, m, len, nr, r * PAGE / len);
  }

  lemma Fewer(x: nat, v: nat, m: nat, len: nat, nr: nat, c: nat)
    requires c * len <= v && x == m * INT + v && 1 <= m && x < nr * len + PAGE
    ensures c < nr
  {
    if nr <= c { AtMost(nr, c, len); }
  }

  /** 2^20 elements of 4096 bytes: 4 GiB of pages, and none of them is used. */
  lemma NothingLinked(buf: nat)
    ensures Plan(0x10_0000, 4096, false) == Layout(0x10_0000, 2048, 1, 4096)
    ensures Computed(0x10_0000, 4096, false) == Layout(0, 2048, 1, 4096)
    ensures Visited(buf, 0, Computed(0x10_0000, 4096, false)) == []
  {
    assert AlignUp(4096) == 4096;
    assert Quot(0x10_0000 * 4096 + PAGE - 1, PAGE) == 2048;
    assert Quot(2048 * PAGE, 4096) == 0x10_0000;
    StraddlingComputed(0x10_0000, 4096);
    LowCount(2048, 1, 0, 4096);
  }

  /** 62 GiB of elements of 40 bytes: the product overflows, and the number of elements is right. */
  lemma LuckyCount()
    ensures Plan(1664299827, 40, false).pages == 31744 && LayoutRight(1664299827, 40, false)
  {
  }
}
