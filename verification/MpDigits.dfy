/** Numbers written as digits in base 2^24, most significant digit first. */
module MpDigits {

  const RADIX := 0x100_0000

  /** `m` with `n` zero digits appended. */
  function Scale(m: int, n: nat): int {
    if n == 0 then m else RADIX * Scale(m, n - 1)
  }

  function Val(d: seq<int>): int {
    if d == [] then 0 else RADIX * Val(d[..|d|-1]) + d[|d|-1]
  }

  predicate Digits(d: seq<int>) {
    forall i :: 0 <= i < |d| ==> 0 <= d[i] < RADIX
  }

  lemma {:induction false} ScaleAdd(a: int, b: int, n: nat)
    ensures Scale(a + b, n) == Scale(a, n) + Scale(b, n)
  {
    if n > 0 {
      ScaleAdd(a, b, n - 1);
    }
  }

  lemma {:induction false} ScaleMinus(a: int, n: nat)
    ensures Scale(-a, n) == -Scale(a, n)
  {
    if n > 0 {
      ScaleMinus(a, n - 1);
    }
  }

  lemma {:induction false} ScaleIn(m: int, n: nat)
    ensures Scale(RADIX * m, n) == RADIX * Scale(m, n)
  {
    if n > 0 {
      ScaleIn(m, n - 1);
    }
  }

  lemma {:induction false} ScaleScale(m: int, a: nat, b: nat)
    ensures Scale(Scale(m, a), b) == Scale(m, a + b)
  {
    if b > 0 {
      ScaleScale(m, a, b - 1);
    }
  }

  lemma {:induction false} ScaleOrder(a: int, b: int, n: nat)
    ensures a < b <==> Scale(a, n) < Scale(b, n)
    ensures a == 0 ==> Scale(a, n) == 0
  {
    if n > 0 {
      ScaleOrder(a, b, n - 1);
    }
  }

  lemma {:induction false} ValAppend(d: seq<int>, x: int)
    ensures Val(d + [x]) == RADIX * Val(d) + x
  {
    assert (d + [x])[..|d|] == d;
  }

  lemma {:induction false} ValConcat(a: seq<int>, b: seq<int>)
    ensures Val(a + b) == Scale(Val(a), |b|) + Val(b)
  {
    if b == [] {
      assert a + b == a;
    } else {
      ValConcat(a, b[..|b|-1]);
      assert (a + b)[..|a + b|-1] == a + b[..|b|-1];
    }
  }

  /** Splitting off the leading digit. */
  lemma ValFirst(d: seq<int>)
    requires d != []
    ensures Val(d) == Scale(d[0], |d| - 1) + Val(d[1..])
  {
    ValConcat([d[0]], d[1..]);
    assert [d[0]] + d[1..] == d;
    assert [d[0]][..0] == [];
  }

  lemma {:induction false} ValBounds(d: seq<int>)
    requires Digits(d)
    ensures 0 <= Val(d) < Scale(1, |d|)
  {
    if d != [] {
      ValBounds(d[..|d|-1]);
    }
  }

  lemma {:induction false} ScalePositive(n: nat)
    ensures Scale(1, n) >= 1
  {
    if n > 0 {
      ScalePositive(n - 1);
    }
  }

  /** The leading digit tells how large a number is. */
  lemma LeadingDigit(d: seq<int>)
    requires d != [] && Digits(d)
    ensures d[0] != 0 <==> Val(d) >= Scale(1, |d| - 1)
  {
    ValFirst(d);
    ValBounds(d[1..]);
    ScaleOrder(0, d[0], |d| - 1);
    if d[0] != 0 {
      ScaleOrder(d[0], 1, |d| - 1);
    }
  }

  /** Keeping the leading `n` digits and dropping the last `s` truncates. */
  lemma Truncated(d: seq<int>, n: nat, s: nat)
    requires Digits(d) && n + s == |d|
    ensures Scale(Val(d[..n]), s) <= Val(d) < Scale(Val(d[..n]) + 1, s)
  {
    ValConcat(d[..n], d[n..]);
    assert d[..n] + d[n..] == d && |d[n..]| == s;
    ValBounds(d[n..]);
    ScaleAdd(Val(d[..n]), 1, s);
  }

  lemma {:induction false} ValZeros(d: seq<int>)
    requires forall i :: 0 <= i < |d| ==> d[i] == 0
    ensures Val(d) == 0
  {
    if d != [] {
      ValZeros(d[..|d|-1]);
    }
  }

  /** The digits before, at and after place `k`. */
  lemma ValAt(d: seq<int>, k: nat)
    requires k < |d|
    ensures var n := |d| - k - 1;
            Val(d) == Scale(Val(d[..k]), n + 1) + Scale(d[k], n) + Val(d[k+1..])
  {
    ValConcat(d[..k], d[k..]);
    assert d == d[..k] + d[k..];
    ValFirst(d[k..]);
    assert d[k..][1..] == d[k+1..];
  }

  /** Digit strings of one length are ordered by the first place where they differ. */
  lemma FirstDifference(a: seq<int>, b: seq<int>, k: nat)
    requires |a| == |b| && k < |a| && Digits(a) && Digits(b)
    requires a[..k] == b[..k] && a[k] < b[k]
    ensures Val(a) < Val(b)
  {
    var n := |a| - k - 1;
    ValAt(a, k);
    ValAt(b, k);
    ValBounds(a[k+1..]);
    ValBounds(b[k+1..]);
    hide Val, Scale, Digits;
    ScaleAdd(a[k], 1, n);
    ScaleOrder(b[k], a[k] + 1, n);
  }

  // ---------------------------------------------------------------- products, column by column

  /** The sum of all `x[i] * y[k - i]`. */
  function Column(x: seq<int>, y: seq<int>, k: int): int {
    if x == [] then 0
    else
      var i := |x| - 1;
      Column(x[..i], y, k) + (if 0 <= k - i < |y| then x[i] * y[k-i] else 0)
  }

  function Columns(x: seq<int>, y: seq<int>, n: nat): (c: seq<int>)
    ensures |c| == n && forall k :: 0 <= k < n ==> c[k] == Column(x, y, k)
  {
    seq(n, k requires 0 <= k < n => Column(x, y, k))
  }

  /** A column further to the right than any pair of digits reaches. */
  lemma {:induction false} ColumnBeyond(x: seq<int>, y: seq<int>, k: int)
    requires |x| + |y| <= k + 1
    ensures Column(x, y, k) == 0
  {
    if x != [] {
      ColumnBeyond(x[..|x|-1], y, k);
    }
  }

  /** Digits of `x` further to the right than column `k` play no part in it. */
  lemma {:induction false} ColumnStops(x: seq<int>, y: seq<int>, k: int, n: nat)
    requires k < n <= |x|
    ensures Column(x, y, k) == Column(x[..n], y, k)
  {
    if n < |x| {
      ColumnStops(x[..|x|-1], y, k, n);
      assert x[..|x|-1][..n] == x[..n];
    } else {
      assert x[..n] == x;
    }
  }

  lemma ColumnAppend(x: seq<int>, d: int, y: seq<int>, k: int)
    ensures Column(x + [d], y, k) == Column(x, y, k) + (if 0 <= k - |x| < |y| then d * y[k-|x|] else 0)
  {
    assert (x + [d])[..|x|] == x;
  }

  lemma ColumnsStep(x: seq<int>, y: seq<int>, n: nat)
    ensures Val(Columns(x, y, n + 1)) == RADIX * Val(Columns(x, y, n)) + Column(x, y, n)
  {
    assert Columns(x, y, n + 1)[..n] == Columns(x, y, n);
  }

  lemma MulDistributes(d: int, v: int, w: int)
    ensures d * (RADIX * v + w) == RADIX * (d * v) + d * w
  {
  }

  lemma EmptyVal(d: seq<int>)
    ensures Val(d[..0]) == 0
  {
  }

  /** What a further digit of `x` adds to the first columns. */
  lemma {:induction false} ColumnsGrow(x: seq<int>, d: int, y: seq<int>, m: nat)
    requires m <= |y|
    ensures Val(Columns(x + [d], y, |x| + m)) == Val(Columns(x, y, |x| + m)) + d * Val(y[..m])
  {
    hide Column, Val;
    if m == 0 {
      forall k: nat | k < |x| ensures Column(x + [d], y, k) == Column(x, y, k) {
        ColumnAppend(x, d, y, k);
      }
      assert Columns(x + [d], y, |x|) == Columns(x, y, |x|);
      EmptyVal(y);
    } else {
      ColumnsGrow(x, d, y, m - 1);
      ColumnAppend(x, d, y, |x| + m - 1);
      ColumnsStep(x + [d], y, |x| + m - 1);
      ColumnsStep(x, y, |x| + m - 1);
      ValAppend(y[..m-1], y[m-1]);
      assert y[..m] == y[..m-1] + [y[m-1]];
      MulDistributes(d, Val(y[..m-1]), y[m-1]);
    }
  }

  lemma MulAssociates(v: int, w: int, d: int)
    ensures (RADIX * v + d) * w == RADIX * (v * w) + d * w
  {
  }

  /** All columns together make the product. */
  lemma {:induction false} ColumnsMakeProduct(x: seq<int>, y: seq<int>)
    requires y != []
    ensures Val(Columns(x, y, |x| + |y| - 1)) == Val(x) * Val(y)
  {
    if x == [] {
      ValZeros(Columns(x, y, |y| - 1));
    } else {
      var w, d := x[..|x|-1], x[|x|-1];
      assert x == w + [d];
      ColumnsMakeProduct(w, y);
      ColumnsGrow(w, d, y, |y|);
      assert y[..|y|] == y;
      ColumnsStep(w, y, |w| + |y| - 1);
      ColumnBeyond(w, y, |w| + |y| - 1);
      ValAppend(w, d);
      hide Val, Column;
      MulAssociates(Val(w), Val(y), d);
    }
  }

  lemma MulGrows(a: int, b: int, c: int)
    requires 0 <= a <= c && 0 <= b
    ensures 0 <= a * b <= c * b
  {
  }

  lemma ProductBound(a: int, b: int)
    requires 0 <= a < RADIX && 0 <= b < RADIX
    ensures 0 <= a * b <= (RADIX - 1) * (RADIX - 1)
  {
    MulGrows(a, b, RADIX - 1);
  }

  /** A column of `n` terms is at most `n` times the greatest product of two digits. */
  lemma {:induction false} ColumnBound(x: seq<int>, y: seq<int>, k: int)
    requires Digits(x) && Digits(y)
    ensures 0 <= Column(x, y, k) <= |x| * ((RADIX - 1) * (RADIX - 1))
  {
    if x != [] {
      var i := |x| - 1;
      ColumnBound(x[..i], y, k);
      if 0 <= k - i < |y| {
        ProductBound(x[i], y[k-i]);
      }
    }
  }

  /** Column sums, with any carry that can come in, are exact in a 53-bit significand. */
  lemma ColumnSumsAreExact(x: seq<int>, y: seq<int>, k: int, carry: int)
    requires Digits(x) && Digits(y) && |x| <= 32 && 0 <= carry * RADIX < 0x20_0000_0000_0000
    ensures 0 <= Column(x, y, k) + carry < 0x20_0000_0000_0000
  {
    ColumnBound(x, y, k);
  }

  /** A string of large entries is still small against a place further up. */
  lemma {:induction false} ValSmall(c: seq<int>, b: nat)
    requires forall i :: 0 <= i < |c| ==> 0 <= c[i] <= b * (RADIX - 1)
    ensures 0 <= Val(c) && Val(c) + b <= Scale(b, |c|)
  {
    if c != [] {
      ValSmall(c[..|c|-1], b);
      assert b * (RADIX - 1) == b * RADIX - b;
    }
  }
}
