/**
 * Multiplication of multi-precision numbers: columns of digit products, carried from the last kept one to the first.
 */
module MpProduct {
  import opened MpDigits
  import opened MpArithmetic

  /** Integers up to here are exact in a 53-bit significand. */
  const EXACT := 0x20_0000_0000_0000

  /**
   * `(v + CUTTER) - CUTTER`: adding and taking away 2^76 rounds to some nearest multiple of 2^24. The callers may
   * not rely on which one, when two are equally near.
   */
  method RoundToRadix(v: int) returns (u: int)
    requires 0 <= v < EXACT
    ensures u % RADIX == 0 && v - RADIX / 2 <= u <= v + RADIX / 2
  {
    u := v / RADIX * RADIX;
    if v - u > RADIX / 2 {
      u := u + RADIX;
    }
  }

  /** The columns that are computed, of the 2 * p - 1 there are. */
  function LastPlace(p: nat): nat {
    if p < 3 then p + p else p + 3
  }

  /** Places `k + 1` to `last` of `z` are final, and with what is carried into place `k` they hold `total`. */
  ghost predicate Carried(z: MpNo, k: nat, last: nat, total: int)
    requires z.d.Length == SIZE && k <= last < SIZE
    reads z, z.d
  {
    && 0 <= z.d[k] * RADIX < EXACT && Digits(z.d[k+1..last+1])
    && Scale(z.d[k], last - k) + Val(z.d[k+1..last+1]) == total
  }

  /** Add up column `k` in place. */
  method AddColumn(x: MpNo, y: MpNo, z: MpNo, p: nat, k: nat)
    requires x.Valid(p) && y.Valid(p) && x.d[0] != 0 && y.d[0] != 0 && 2 <= k <= 2 * p && k < SIZE
    requires z.d.Length == SIZE && z.d != x.d && z.d != y.d
    modifies z.d
    ensures z.d[k] == old(z.d[k]) + Column(x.d[1..p+1], y.d[1..p+1], k - 2)
    ensures forall m :: 0 <= m < SIZE && m != k ==> z.d[m] == old(z.d[m])
  {
    hide Column;
    ghost var xs, ys, carry := x.d[1..p+1], y.d[1..p+1], z.d[k];
    var i1, i2 := 1, k;
    if k > p {
      i1, i2 := k - p, p + 1;
    }
    ColumnStarts(xs, ys, k - 2, i1 - 1);
    var i, j := i1, i2 - 1;
    while i < i2
      invariant i1 <= i <= i2 && i + j == k
      invariant z.d[k] == carry + Column(xs[..i-1], ys, k - 2)
      invariant forall m :: 0 <= m < SIZE && m != k ==> z.d[m] == old(z.d[m])
    {
      ColumnGoesOn(xs, ys, k - 2, i);
      assert x.d[i] == xs[i-1] && y.d[j] == ys[k-2-(i-1)];
      z.d[k] := z.d[k] + x.d[i] * y.d[j];
      i, j := i + 1, j - 1;
    }
    if k > p {
      assert xs[..i2-1] == xs;
    } else {
      ColumnStops(xs, ys, k - 2, k - 1);
    }
  }

  /** Digits of `x` whose partner would be beyond the last digit of `y` add nothing. */
  lemma ColumnStarts(xs: seq<int>, ys: seq<int>, k: int, n: nat)
    requires n <= |xs| && (n == 0 || n + |ys| <= k + 1)
    ensures Column(xs[..n], ys, k) == 0
  {
    if n > 0 {
      ColumnBeyond(xs[..n], ys, k);
    }
  }

  lemma ColumnGoesOn(xs: seq<int>, ys: seq<int>, k: int, i: nat)
    requires 1 <= i <= |xs| && 0 <= k - (i - 1) < |ys|
    ensures Column(xs[..i], ys, k) == Column(xs[..i-1], ys, k) + xs[i-1] * ys[k-(i-1)]
  {
    ColumnAppend(xs[..i-1], xs[i-1], ys, k);
    assert xs[..i] == xs[..i-1] + [xs[i-1]];
  }

  /** Keep the last digit of place `k` and carry the rest. */
  method CarryPlace(z: MpNo, k: nat)
    requires z.d.Length == SIZE && 1 <= k < SIZE && 0 <= z.d[k] < EXACT
    modifies z.d
    ensures 0 <= z.d[k] < RADIX && 0 <= z.d[k-1] * RADIX < EXACT
    ensures old(z.d[k]) == z.d[k] + RADIX * z.d[k-1]
    ensures forall m :: 0 <= m < SIZE && m != k && m != k - 1 ==> z.d[m] == old(z.d[m])
  {
    var u := RoundToRadix(z.d[k]);
    if u > z.d[k] {
      u := u - RADIX;
    }
    z.d[k] := z.d[k] - u;
    z.d[k-1] := u / RADIX;
  }

  /** One column: its sum is exact, and one more place is final. */
  method FinishColumn(x: MpNo, y: MpNo, z: MpNo, p: nat, k: nat, last: nat, ghost total: int)
    requires x.Valid(p) && y.Valid(p) && x.d[0] != 0 && y.d[0] != 0 && 2 <= k <= last <= 2 * p && last < SIZE
    requires z.d.Length == SIZE && z.d != x.d && z.d != y.d
    requires Carried(z, k, last, total)
    modifies z.d
    ensures Carried(z, k - 1, last, total + Scale(Column(x.d[1..p+1], y.d[1..p+1], k - 2), last - k))
  {
    hide Column;
    ghost var column := Column(x.d[1..p+1], y.d[1..p+1], k - 2);
    ghost var carry, rest := z.d[k], z.d[k+1..last+1];
    ColumnSumsAreExact(x.d[1..p+1], y.d[1..p+1], k - 2, carry);
    AddColumn(x, y, z, p, k);
    CarryPlace(z, k);
    assert z.d[k..last+1] == [z.d[k]] + rest;
    DigitStep(carry, column, z.d[k], z.d[k-1], rest);
  }

  // ---------------------------------------------------------------- what the computed columns are worth

  /**
   * One unit of the product of two `p`-digit integers is RADIX^(x.e + y.e - 2 * p); the last place of `z` is this
   * many places up.
   */
  function PlacesUp(x: Num, y: Num, z: Num, p: nat): int {
    (z.e - p) - (x.e + y.e - 2 * p)
  }

  function ProductSign(x: Num, y: Num): int {
    if x.sign == 0 || y.sign == 0 then 0 else if x.sign == y.sign then 1 else -1
  }

  /**
   * `z` is the product of `x` and `y`: truncated to `p` digits up to `p == 3`, and within 1.001 ulp below beyond
   * that.
   */
  predicate ProductOf(x: Num, y: Num, z: Num, p: nat) {
    && z.sign == ProductSign(x, y)
    && (z.sign != 0 ==>
          var exact, s := x.m * y.m, PlacesUp(x, y, z, p);
          && s >= 0
          && Scale(z.m, s) <= exact
          && (p <= 3 ==> exact < Scale(z.m + 1, s))
          && 1000 * (exact - Scale(z.m, s)) < 1001 * Scale(1, s))
  }

  lemma {:induction false} ScaleTimes(a: int, m: int, n: nat)
    ensures Scale(a * m, n) == a * Scale(m, n)
  {
    if n > 0 {
      ScaleTimes(a, m, n - 1);
      TimesRadix(a, Scale(m, n - 1));
    }
  }

  lemma TimesRadix(a: int, v: int)
    ensures a * (RADIX * v) == RADIX * (a * v)
  {
  }

  /** A product of two `p`-digit numbers has at most `2 * p` digits. */
  lemma ProductDigits(a: int, b: int, p: nat)
    requires 0 <= a < Scale(1, p) && 0 <= b < Scale(1, p)
    ensures a * b < Scale(1, 2 * p)
  {
    hide Scale;
    ScalePositive(p);
    MulGrows(a, b, Scale(1, p));
    ProductLess(Scale(1, p), b, Scale(1, p));
    ScaleTimes(Scale(1, p), 1, p);
    ScaleScale(1, p, p);
    assert Scale(1, p) * 1 == Scale(1, p) && p + p == 2 * p;
  }

  lemma ProductLess(a: int, b: int, c: int)
    requires a > 0 && b < c
    ensures a * b < a * c
  {
  }

  /** The product is the computed columns, moved up, plus a little that is left out. */
  lemma ComputedColumns(xs: seq<int>, ys: seq<int>, last: nat, p: nat)
    requires |xs| == |ys| == p && 1 <= p <= 32 && Digits(xs) && Digits(ys) && 1 <= last <= 2 * p
    ensures var left := Val(xs) * Val(ys) - Scale(Val(Columns(xs, ys, last - 1)), 2 * p - last);
            && 0 <= left && left + 32 * (RADIX - 1) <= Scale(32 * (RADIX - 1), 2 * p - last)
  {
    hide Val, Scale, Column;
    var all, some := Columns(xs, ys, 2 * p - 1), Columns(xs, ys, last - 1);
    var rest := all[last-1..];
    ColumnsMakeProduct(xs, ys);
    assert p + p - 1 == 2 * p - 1;
    assert all == some + rest && |rest| == 2 * p - last;
    ValConcat(some, rest);
    forall i | 0 <= i < |rest| ensures 0 <= rest[i] <= (32 * (RADIX - 1)) * (RADIX - 1) {
      ColumnBound(xs, ys, last - 1 + i);
    }
    ValSmall(rest, 32 * (RADIX - 1));
  }

  /** The first column is the product of two digits that are not zero. */
  lemma FirstColumn(xs: seq<int>, ys: seq<int>, last: nat)
    requires xs != [] && ys != [] && Digits(xs) && Digits(ys) && xs[0] > 0 && ys[0] > 0 && 2 <= last
    ensures Val(Columns(xs, ys, last - 1)) >= Scale(1, last - 2)
  {
    var c := Columns(xs, ys, last - 1);
    ColumnStops(xs, ys, 0, 1);
    assert xs[..1][..0] == [];
    assert c[0] == xs[0] * ys[0] >= 1 by {
      MulGrows(1, ys[0], xs[0]);
    }
    hide Val, Scale, Column;
    ValFirst(c);
    assert |c| - 1 == last - 2;
    ScaleOrder(c[0], 1, last - 2);
    forall i | 0 <= i < |c[1..]| ensures 0 <= c[1..][i] {
      ColumnBound(xs, ys, i + 1);
    }
    ValNonNegative(c[1..]);
  }

  lemma {:induction false} ValNonNegative(c: seq<int>)
    requires forall i :: 0 <= i < |c| ==> 0 <= c[i]
    ensures Val(c) >= 0
  {
    if c != [] {
      ValNonNegative(c[..|c|-1]);
    }
  }

  /** What is left out, and what is cut off, together stay below 1.001 units in the last place. */
  lemma ErrorBound(exact: int, total: int, m: int, q: nat, l: nat)
    requires Scale(m, q) <= total < Scale(m + 1, q)
    requires 0 <= exact - Scale(total, l) && exact - Scale(total, l) + 32 * (RADIX - 1) <= Scale(32 * (RADIX - 1), l)
    requires l == 0 || q >= 2
    ensures Scale(m, q + l) <= exact
    ensures l == 0 ==> exact < Scale(m + 1, q + l)
    ensures 1000 * (exact - Scale(m, q + l)) < 1001 * Scale(1, q + l)
  {
    var b := 32 * (RADIX - 1);
    ScaleZero(b);
    ScaleZero(total);
    if l > 0 {
      PowerGrows(2, q);
      assert Scale(1, 2) == RADIX * RADIX;
    }
    hide Scale;
    ScaleScale(m, q, l);
    ScaleScale(1, q, l);
    ScaleScale(m + 1, q, l);
    ScaleAdd(m, 1, q);
    var cut := total - Scale(m, q);
    ScaleAdd(Scale(m, q), cut, l);
    ScaleAdd(cut, b, l);
    ScaleOrder(cut, 0, l);
    ScaleOrder(0, 0, l);
    ScalePositive(q + l);
    if l == 0 {
      ScaleZero(cut);
      ScaleZero(Scale(m, q));
      ScaleZero(Scale(1, q));
      ScaleZero(Scale(m + 1, q));
    } else {
      ScaleTimes(1000, cut + b, l);
      ScaleTimes(1001, Scale(1, q), l);
      ScaleOrder(1000 * (cut + b), 1001 * Scale(1, q), l);
    }
  }

  /** Cutting the digits to the first `p` of them. */
  lemma CutProduct(exact: int, d: seq<int>, p: nat, q: nat, l: nat)
    requires Digits(d) && |d| == p + q && (l == 0 || q >= 2)
    requires 0 <= exact - Scale(Val(d), l) && exact - Scale(Val(d), l) + 32 * (RADIX - 1) <= Scale(32 * (RADIX - 1), l)
    ensures var m := Val(d[..p]);
            && Scale(m, q + l) <= exact
            && (l == 0 ==> exact < Scale(m + 1, q + l))
            && 1000 * (exact - Scale(m, q + l)) < 1001 * Scale(1, q + l)
  {
    hide Val, Scale;
    Truncated(d, p, q);
    ErrorBound(exact, Val(d), Val(d[..p]), q, l);
  }

  /** The digits, once they start with one that is not zero, are the product the documentation promises. */
  lemma DigitsAreProduct(x: Num, xs: seq<int>, y: Num, ys: seq<int>, w: seq<int>, p: nat)
    requires 1 <= p <= 32 && |xs| == |ys| == p && |w| == LastPlace(p) && Digits(xs) && Digits(ys)
    requires xs[0] > 0 && ys[0] > 0 && x.m == Val(xs) && y.m == Val(ys) && x.sign in {-1, 1} && y.sign in {-1, 1}
    requires Digits(w[1..]) && 0 <= w[0] && Val(w) == Val(Columns(xs, ys, LastPlace(p) - 1))
    ensures Digits(w)
    ensures w[0] == 0 ==> w[1] > 0 && ProductOf(x, y, Num(ProductSign(x, y), x.e + y.e - 1, Val(w[1..p+1])), p)
    ensures w[0] != 0 ==> ProductOf(x, y, Num(ProductSign(x, y), x.e + y.e, Val(w[..p])), p)
  {
    hide Val, Scale, Column, Columns, ProductOf, Digits;
    var last := LastPlace(p);
    var l := 2 * p - last;
    ComputedColumns(xs, ys, last, p);
    LeadingBelowRadix(xs, ys, w, last, p);
    if w[0] == 0 {
      LeadingZeroOnce(xs, ys, w, last);
      var d := w[1..];
      TailDigits(w);
      CutProduct(x.m * y.m, d, p, last - 1 - p, l);
      assert d[..p] == w[1..p+1] && last - 1 - p + l == p - 1;
      ProductHolds(x, y, x.e + y.e - 1, Val(w[1..p+1]), p, p - 1);
    } else {
      CutProduct(x.m * y.m, w, p, last - p, l);
      assert last - p + l == p;
      ProductHolds(x, y, x.e + y.e, Val(w[..p]), p, p);
    }
  }

  lemma TailDigits(w: seq<int>)
    requires Digits(w) && w != []
    ensures Digits(w[1..])
  {
  }

  lemma ProductHolds(x: Num, y: Num, e: int, m: int, p: nat, s: nat)
    requires x.sign in {-1, 1} && y.sign in {-1, 1} && e - p - (x.e + y.e - 2 * p) == s
    requires Scale(m, s) <= x.m * y.m && (p <= 3 ==> x.m * y.m < Scale(m + 1, s))
    requires 1000 * (x.m * y.m - Scale(m, s)) < 1001 * Scale(1, s)
    ensures ProductOf(x, y, Num(ProductSign(x, y), e, m), p)
  {
  }

  /** Nothing is carried beyond the first place. */
  lemma LeadingBelowRadix(xs: seq<int>, ys: seq<int>, w: seq<int>, last: nat, p: nat)
    requires 1 <= p <= 32 && |xs| == |ys| == p && |w| == last && 2 <= last <= 2 * p && Digits(xs) && Digits(ys)
    requires Digits(w[1..]) && 0 <= w[0] && Val(w) == Val(Columns(xs, ys, last - 1))
    ensures Digits(w)
  {
    hide Val, Scale, Column;
    var l := 2 * p - last;
    ComputedColumns(xs, ys, last, p);
    ValBounds(xs);
    ValBounds(ys);
    ProductDigits(Val(xs), Val(ys), p);
    ScaleScale(1, last, l);
    assert last + l == 2 * p;
    ScaleOrder(Val(w), Scale(1, last), l);
    ValFirst(w);
    ValBounds(w[1..]);
    ScaleScale(RADIX, 0, last - 1);
    RadixIsScaled(last);
    ScaleOrder(w[0], RADIX, last - 1);
    assert forall i :: 1 <= i < last ==> w[i] == w[1..][i-1];
  }

  lemma RadixIsScaled(n: nat)
    requires n >= 1
    ensures Scale(RADIX, n - 1) == Scale(1, n)
  {
    ScaleIn(1, n - 1);
  }

  lemma LeadingZeroOnce(xs: seq<int>, ys: seq<int>, w: seq<int>, last: nat)
    requires xs != [] && ys != [] && Digits(xs) && Digits(ys) && xs[0] > 0 && ys[0] > 0 && |w| == last >= 2
    requires Digits(w) && w[0] == 0 && Val(w) == Val(Columns(xs, ys, last - 1))
    ensures w[1] > 0 && Val(w[1..]) == Val(w)
  {
    hide Val, Scale, Column;
    FirstColumn(xs, ys, last);
    ValFirst(w);
    ScaleOrder(0, 0, last - 1);
    LeadingDigit(w[1..]);
    assert |w[1..]| - 1 == last - 2;
  }

  // ---------------------------------------------------------------- the product

  /** Multiply and carry, from the last computed column to the first. */
  method MulDigits(x: MpNo, y: MpNo, z: MpNo, p: nat)
    requires x.Valid(p) && y.Valid(p) && x.d[0] != 0 && y.d[0] != 0
    requires z.d.Length == SIZE && z.d != x.d && z.d != y.d
    modifies z.d
    ensures Digits(z.d[2..LastPlace(p)+1]) && 0 <= z.d[1]
    ensures Val(z.d[1..LastPlace(p)+1]) == old(Val(Columns(x.d[1..p+1], y.d[1..p+1], LastPlace(p) - 1)))
  {
    hide Val, Scale, Column, Carried;
    ghost var xs, ys := x.d[1..p+1], y.d[1..p+1];
    var last := LastPlace(p);
    ghost var columns := Columns(xs, ys, last - 1);
    var k := last;
    z.d[k] := 0;
    NothingCarried(z, last, columns);
    while k > 1
      invariant 1 <= k <= last && Carried(z, k, last, Val(columns[k-1..]))
    {
      Suffix(columns, k - 2);
      assert |columns| - (k - 2) - 1 == last - k;
      FinishColumn(x, y, z, p, k, last, Val(columns[k-1..]));
      k := k - 1;
    }
    assert columns[0..] == columns;
    CarriedToFirst(z, last, Val(columns));
  }

  lemma NothingCarried(z: MpNo, last: nat, columns: seq<int>)
    requires z.d.Length == SIZE && 1 <= last < SIZE && z.d[last] == 0 && |columns| == last - 1
    ensures Carried(z, last, last, Val(columns[last-1..]))
  {
  }

  lemma CarriedToFirst(z: MpNo, last: nat, total: int)
    requires z.d.Length == SIZE && 1 <= last < SIZE && Carried(z, 1, last, total)
    ensures Digits(z.d[2..last+1]) && 0 <= z.d[1] && Val(z.d[1..last+1]) == total
  {
    hide Val, Scale;
    ValFirst(z.d[1..last+1]);
    assert z.d[1..last+1][1..] == z.d[2..last+1];
  }

  lemma ZeroProduct(x: Num, y: Num, z: Num, p: nat)
    requires (x.sign == 0 || y.sign == 0) && z.sign == 0
    ensures ProductOf(x, y, z, p)
  {
  }

  /** `z` becomes the product of `x` and `y`; those two may be one object, `z` is another. */
  method Mul(x: MpNo, y: MpNo, z: MpNo, p: nat)
    requires x.Valid(p) && y.Valid(p)
    requires z.d.Length == SIZE && z != x && z != y && z.d != x.d && z.d != y.d
    modifies z, z.d
    ensures z.Valid(p) && ProductOf(old(x.View(p)), old(y.View(p)), z.View(p), p)
    ensures z.d[0] != 0 ==>
              FromColumns(old(x.View(p)), old(x.d[1..p+1]), old(y.View(p)), old(y.d[1..p+1]), z.View(p), p)
  {
    hide Val, Scale, Column, Columns, ProductOf, FromColumns;
    ghost var xn, yn := x.View(p), y.View(p);
    ghost var xs, ys := x.d[1..p+1], y.d[1..p+1];
    if x.d[0] * y.d[0] == 0 {
      z.d[0] := 0;
      ZeroProduct(xn, yn, z.View(p), p);
      return;
    }
    MulDigits(x, y, z, p);
    ghost var w := z.d[1..LastPlace(p)+1];
    assert w[1..] == z.d[2..LastPlace(p)+1];
    DigitsAreProduct(xn, xs, yn, ys, w, p);
    DigitsAreColumns(xn, xs, yn, ys, w, p, ProductSign(xn, yn));
    PlaceProduct(z, p, x.d[0] * y.d[0], x.e + y.e);
  }

  /** Drop a leading zero and the digits behind the first `p`. */
  method PlaceProduct(z: MpNo, p: nat, sign: int, e: int)
    requires z.d.Length == SIZE && 1 <= p <= 32 && sign in {-1, 1}
    requires Digits(z.d[1..LastPlace(p)+1]) && (z.d[1] == 0 ==> z.d[2] > 0)
    modifies z, z.d
    ensures var w := old(z.d[1..LastPlace(p)+1]);
            && z.Valid(p)
            && z.View(p) == if w[0] == 0 then Num(sign, e - 1, Val(w[1..p+1])) else Num(sign, e, Val(w[..p]))
  {
    hide Val;
    ghost var w := z.d[1..LastPlace(p)+1];
    Slices(z.d[..], LastPlace(p), p);
    assert z.d[..][1..LastPlace(p)+1] == w && z.d[..][2..p+2] == z.d[2..p+2] && z.d[..][1..p+1] == z.d[1..p+1];
    if z.d[1] == 0 {
      ShiftDigits(z, p);
      assert z.d[1..p+1] == w[1..p+1];
      assert z.d[1] == z.d[1..p+1][0] == w[1];
      z.e := e - 1;
    } else {
      assert z.d[1..p+1] == w[..p];
      assert z.d[1] == w[0];
      z.e := e;
    }
    z.d[0] := sign;
    assert z.d[1..p+1] == if w[0] == 0 then w[1..p+1] else w[..p];
  }

  /**
   * `z` is made of the first columns of the digits `xs` and `ys`: of all of them for p up to 3, and of the first p + 2
   * beyond that, cut to p digits.
   */
  predicate FromColumns(x: Num, xs: seq<int>, y: Num, ys: seq<int>, z: Num, p: nat)
    requires p >= 1
  {
    var n := if p <= 3 then 2 * p - 1 else p + 2;
    var q := z.e - (x.e + y.e) + n + 1 - p;
    q >= 0 && Scale(z.m, q) <= Val(Columns(xs, ys, n)) < Scale(z.m + 1, q)
  }

  lemma DigitsAreColumns(x: Num, xs: seq<int>, y: Num, ys: seq<int>, w: seq<int>, p: nat, sign: int)
    requires 1 <= p <= 32 && |xs| == |ys| == p && |w| == LastPlace(p) && Digits(xs) && Digits(ys)
    requires xs[0] > 0 && ys[0] > 0 && Digits(w) && Val(w) == Val(Columns(xs, ys, LastPlace(p) - 1))
    ensures w[0] == 0 ==> FromColumns(x, xs, y, ys, Num(sign, x.e + y.e - 1, Val(w[1..p+1])), p)
    ensures w[0] != 0 ==> FromColumns(x, xs, y, ys, Num(sign, x.e + y.e, Val(w[..p])), p)
  {
    hide Val, Scale, Column, Columns;
    var last := LastPlace(p);
    if w[0] == 0 {
      LeadingZeroOnce(xs, ys, w, last);
      Truncated(w[1..], p, last - 1 - p);
      assert w[1..][..p] == w[1..p+1];
    } else {
      Truncated(w, p, last - p);
    }
  }

  /** Where the digits of the result are among the digits computed. */
  lemma Slices(d: seq<int>, last: nat, p: nat)
    requires p < last < |d|
    ensures d[1..last+1][1..p+1] == d[2..p+2] && d[1..last+1][..p] == d[1..p+1]
  {
    var a, b := d[1..last+1][1..p+1], d[2..p+2];
    assert |a| == |b| && forall i :: 0 <= i < p ==> a[i] == b[i];
  }
}
