/** Multi-precision numbers: comparison, addition, subtraction and multiplication on digit arrays, in place. */
module MpArithmetic {
  import opened MpDigits

  /** What a multi-precision number says: a sign, and `p` digits as one integer, worth RADIX^(e - p) per unit. */
  datatype Num = Num(sign: int, e: int, m: int)

  /** Normalised to `p` digits, or zero. */
  predicate Normal(n: Num, p: nat)
    requires p >= 1
  {
    n.sign == 0 || (n.sign in {-1, 1} && Scale(1, p - 1) <= n.m < Scale(1, p))
  }

  /** A scale fine enough for the number to be a whole multiple of its unit. */
  predicate FineFor(n: Num, f: int) {
    n.sign == 0 || f <= n.e
  }

  function Magnitude(n: Num, f: int): int
    requires FineFor(n, f)
  {
    if n.sign == 0 then 0 else Scale(n.m, n.e - f)
  }

  /** The value of the number, in units of RADIX^(f - p). */
  function At(n: Num, f: int): int
    requires FineFor(n, f)
  {
    if n.sign < 0 then -Magnitude(n, f) else Magnitude(n, f)
  }

  /** One unit in the last place of `n`, in the same units. */
  function Ulp(n: Num, f: int): int
    requires f <= n.e
  {
    Scale(1, n.e - f)
  }

  function Sign(n: int): int {
    if n > 0 then 1 else if n < 0 then -1 else 0
  }

  // ---------------------------------------------------------------- order

  /** How the comparison of absolute values goes: zero first, then exponents, then digits. */
  function CompareMagnitudes(x: Num, y: Num): int {
    if x.sign == 0 then (if y.sign == 0 then 0 else -1)
    else if y.sign == 0 then 1
    else if x.e != y.e then Sign(x.e - y.e)
    else Sign(x.m - y.m)
  }

  function Compare(x: Num, y: Num): int {
    if x.sign != y.sign then Sign(x.sign - y.sign)
    else if x.sign < 0 then CompareMagnitudes(y, x)
    else CompareMagnitudes(x, y)
  }

  lemma {:induction false} PowerGrows(a: nat, b: nat)
    requires a <= b
    ensures Scale(1, a) <= Scale(1, b)
  {
    if a < b {
      PowerGrows(a, b - 1);
      ScalePositive(b - 1);
    }
  }

  /** A normalised number with a greater exponent is greater. */
  lemma ExponentDecides(x: Num, y: Num, p: nat, f: int)
    requires p >= 1 && Normal(x, p) && Normal(y, p) && x.sign != 0 && y.sign != 0
    requires x.e > y.e >= f
    ensures Magnitude(x, f) > Magnitude(y, f)
  {
    ScaleOrder(x.m, Scale(1, p - 1), x.e - f);
    ScaleScale(1, p - 1, x.e - f);
    ScaleOrder(y.m, Scale(1, p), y.e - f);
    ScaleScale(1, p, y.e - f);
    PowerGrows(p + (y.e - f), p - 1 + (x.e - f));
  }

  lemma MagnitudePositive(x: Num, p: nat, f: int)
    requires p >= 1 && Normal(x, p) && FineFor(x, f)
    ensures Magnitude(x, f) >= 0 && (Magnitude(x, f) == 0 <==> x.sign == 0)
  {
    if x.sign != 0 {
      ScalePositive(p - 1);
      ScaleOrder(0, x.m, x.e - f);
    }
  }

  lemma CompareMagnitudesIsOrder(x: Num, y: Num, p: nat, f: int)
    requires p >= 1 && Normal(x, p) && Normal(y, p) && FineFor(x, f) && FineFor(y, f)
    ensures CompareMagnitudes(x, y) == Sign(Magnitude(x, f) - Magnitude(y, f))
  {
    MagnitudePositive(x, p, f);
    MagnitudePositive(y, p, f);
    if x.sign != 0 && y.sign != 0 {
      if x.e > y.e {
        ExponentDecides(x, y, p, f);
      } else if x.e < y.e {
        ExponentDecides(y, x, p, f);
      } else {
        ScaleOrder(x.m, y.m, x.e - f);
        ScaleOrder(y.m, x.m, x.e - f);
      }
    }
  }

  /** Numbers are ordered exactly as their values are. */
  lemma CompareIsOrder(x: Num, y: Num, p: nat, f: int)
    requires p >= 1 && Normal(x, p) && Normal(y, p) && FineFor(x, f) && FineFor(y, f)
    ensures Compare(x, y) == Sign(At(x, f) - At(y, f))
  {
    MagnitudePositive(x, p, f);
    MagnitudePositive(y, p, f);
    CompareMagnitudesIsOrder(x, y, p, f);
    CompareMagnitudesIsOrder(y, x, p, f);
  }

  // ---------------------------------------------------------------- numbers as objects

  const SIZE := 40

  class MpNo {
    var e: int
    const d: array<int>

    constructor ()
      ensures fresh(d) && d.Length == SIZE
    {
      e := 0;
      d := new int[SIZE](_ => 0);
    }

    ghost predicate Valid(p: nat)
      reads this, d
    {
      && d.Length == SIZE && 1 <= p <= 32
      && d[0] in {-1, 0, 1}
      && (d[0] != 0 ==> Digits(d[1..p+1]) && d[1] > 0)
    }

    /** The number held to `p` digits. */
    ghost function View(p: nat): Num
      requires Valid(p)
      reads this, d
    {
      Num(d[0], e, Val(d[1..p+1]))
    }
  }

  lemma ValidIsNormal(x: MpNo, p: nat)
    requires x.Valid(p)
    ensures Normal(x.View(p), p)
  {
    if x.d[0] != 0 {
      LeadingDigit(x.d[1..p+1]);
      ValBounds(x.d[1..p+1]);
    }
  }

  /** Compare digits, whatever the signs and exponents. */
  method CompareDigits(x: MpNo, y: MpNo, p: nat) returns (r: int)
    requires x.d.Length == y.d.Length == SIZE && 1 <= p <= 32
    requires Digits(x.d[1..p+1]) && Digits(y.d[1..p+1])
    ensures r == Sign(Val(x.d[1..p+1]) - Val(y.d[1..p+1]))
  {
    ghost var a, b := x.d[1..p+1], y.d[1..p+1];
    for i := 1 to p + 1
      invariant a[..i-1] == b[..i-1]
    {
      assert x.d[i] == a[i-1] && y.d[i] == b[i-1];
      if x.d[i] == y.d[i] {
        assert a[..i] == a[..i-1] + [a[i-1]] && b[..i] == b[..i-1] + [b[i-1]];
      } else if x.d[i] > y.d[i] {
        FirstDifference(b, a, i - 1);
        return 1;
      } else {
        FirstDifference(a, b, i - 1);
        return -1;
      }
    }
    assert a == b by {
      assert a[..p] == a && b[..p] == b;
    }
    r := 0;
  }

  /** Compare absolute values. */
  method Acr(x: MpNo, y: MpNo, p: nat) returns (i: int)
    requires x.Valid(p) && y.Valid(p)
    ensures i == CompareMagnitudes(x.View(p), y.View(p))
  {
    if x.d[0] == 0 {
      i := if y.d[0] == 0 then 0 else -1;
    } else if y.d[0] == 0 {
      i := 1;
    } else if x.e > y.e {
      i := 1;
    } else if x.e < y.e {
      i := -1;
    } else {
      i := CompareDigits(x, y, p);
    }
  }

  /** Compare values. */
  method Cr(x: MpNo, y: MpNo, p: nat) returns (i: int)
    requires x.Valid(p) && y.Valid(p)
    ensures i == Compare(x.View(p), y.View(p))
  {
    if x.d[0] > y.d[0] {
      i := 1;
    } else if x.d[0] < y.d[0] {
      i := -1;
    } else if x.d[0] < 0 {
      i := Acr(y, x, p);
    } else {
      i := Acr(x, y, p);
    }
  }

  /** Copy the first `p` digits. */
  method Copy(x: MpNo, y: MpNo, p: nat)
    requires x.d.Length == y.d.Length == SIZE && 1 <= p <= 32
    modifies y, y.d
    ensures y.e == old(x.e) && y.d[..p+1] == old(x.d[..p+1])
  {
    ghost var was := x.d[..];
    y.e := x.e;
    for i := 0 to p + 1
      modifies y.d
      invariant y.d[..i] == was[..i] && forall j :: i <= j < SIZE ==> x.d[j] == was[j]
    {
      y.d[i] := x.d[i];
    }
  }

  // ---------------------------------------------------------------- addition of magnitudes

  /** One digit of a sum or a difference, and what is carried on. */
  lemma DigitStep(carry: int, a: int, d: int, c: int, rest: seq<int>)
    requires carry + a == d + RADIX * c
    ensures Scale(c, |rest| + 1) + Val([d] + rest) == Scale(carry, |rest|) + Val(rest) + Scale(a, |rest|)
  {
    var q := |rest|;
    ValFirst([d] + rest);
    assert ([d] + rest)[1..] == rest;
    ScaleIn(c, q);
    ScaleAdd(carry, a, q);
    ScaleAdd(d, RADIX * c, q);
  }

  /** The digits from place `i` on. */
  lemma Suffix(d: seq<int>, i: nat)
    requires i < |d|
    ensures Val(d[i..]) == Scale(d[i], |d| - i - 1) + Val(d[i+1..])
  {
    ValFirst(d[i..]);
    assert d[i..][1..] == d[i+1..];
  }

  /** The digits kept of the sum, truncated, with `t` the difference of the exponents. */
  predicate TruncatedSum(x: Num, y: Num, z: Num) {
    && x.e >= y.e && z.e >= x.e
    && var t, s := x.e - y.e, z.e - y.e;
    && Scale(z.m, s) <= Scale(x.m, t) + y.m < Scale(z.m + 1, s)
  }

  /** A sum of digits, one of the two cut short by `t`, truncates the exact sum. */
  lemma SumOfTruncated(xm: int, ys: seq<int>, n: nat, t: nat, sum: int)
    requires Digits(ys) && n + t == |ys| && sum == xm + Val(ys[..n])
    ensures Scale(sum, t) <= Scale(xm, t) + Val(ys) < Scale(sum + 1, t)
  {
    hide Val, Scale;
    Truncated(ys, n, t);
    ScaleAdd(xm, Val(ys[..n]), t);
    ScaleAdd(xm, Val(ys[..n]) + 1, t);
  }

  /** Dropping one more digit truncates once more. */
  lemma DropDigit(m: int, d: int, t: nat, exact: int)
    requires 0 <= d < RADIX && Scale(RADIX * m + d, t) <= exact < Scale(RADIX * m + d + 1, t)
    ensures Scale(m, t + 1) <= exact < Scale(m + 1, t + 1)
  {
    ScaleIn(m, t);
    ScaleIn(m + 1, t);
    ScaleOrder(RADIX * m + d, RADIX * m, t);
    ScaleOrder(RADIX * (m + 1), RADIX * m + d + 1, t);
  }

  /** `y` is too small to be seen next to `x`. */
  lemma TooSmall(xm: int, y: int, p: nat, t: nat)
    requires 0 <= y < Scale(1, p) && p <= t
    ensures Scale(xm, t) <= Scale(xm, t) + y < Scale(xm + 1, t)
    ensures Scale(xm - 1, t) < Scale(xm, t) - y <= Scale(xm, t)
  {
    PowerGrows(p, t);
    ScaleAdd(xm, 1, t);
    ScaleAdd(xm - 1, 1, t);
  }

  /** The places of `z` from `k` to `p + 1`, with what is carried into place `k`, hold `total`. */
  ghost predicate Summed(z: MpNo, k: nat, p: nat, carries: set<int>, total: int)
    requires z.d.Length == SIZE && k <= p + 1 < SIZE
    reads z, z.d
  {
    && z.d[k] in carries && Digits(z.d[k+1..p+2])
    && Scale(z.d[k], p + 1 - k) + Val(z.d[k+1..p+2]) == total
  }

  /** Add `v` to the digit at place `k` and carry into the place before it. */
  method AddIn(z: MpNo, k: nat, v: int, p: nat, ghost total: int)
    requires z.d.Length == SIZE && 1 <= k <= p + 1 < SIZE && 0 <= v <= 2 * RADIX - 2
    requires Summed(z, k, p, {0, 1}, total)
    modifies z.d
    ensures Summed(z, k - 1, p, {0, 1}, total + Scale(v, p + 1 - k))
  {
    ghost var carry, rest := z.d[k], z.d[k+1..p+2];
    z.d[k] := z.d[k] + v;
    if z.d[k] >= RADIX {
      z.d[k] := z.d[k] - RADIX;
      z.d[k-1] := 1;
    } else {
      z.d[k-1] := 0;
    }
    assert z.d[k..p+2] == [z.d[k]] + rest;
    DigitStep(carry, v, z.d[k], z.d[k-1], rest);
  }

  /** At the start nothing has been summed. */
  lemma NothingSummed(z: MpNo, p: nat, carries: set<int>, xs: seq<int>, i: nat, ys: seq<int>, j: nat)
    requires z.d.Length == SIZE && p + 1 < SIZE && z.d[p+1] == 0 && 0 in carries && i == |xs| && j == |ys|
    ensures Summed(z, p + 1, p, carries, Val(xs[i..]) + Val(ys[j..]))
  {
  }

  /** What a pair of digits adds. */
  lemma PairGain(xs: seq<int>, ys: seq<int>, i: nat, j: nat, q: nat)
    requires 0 < i <= |xs| && 0 < j <= |ys| && |xs| == i + q && |ys| == j + q
    ensures Val(xs[i-1..]) + Val(ys[j-1..]) == Val(xs[i..]) + Val(ys[j..]) + Scale(xs[i-1] + ys[j-1], q)
  {
    Suffix(xs, i - 1);
    Suffix(ys, j - 1);
    ScaleAdd(xs[i-1], ys[j-1], q);
  }

  /** Add the digits of `y` up to place `n` to the last digits of `x`. */
  method AddPairs(x: MpNo, y: MpNo, z: MpNo, p: nat, n: nat)
    requires x.Valid(p) && y.Valid(p) && x.d[0] != 0 && y.d[0] != 0 && n <= p
    requires z.d.Length == SIZE && z.d != x.d && z.d != y.d
    modifies z.d
    ensures Summed(z, p + 1 - n, p, {0, 1}, Val(x.d[1..p+1][p-n..]) + Val(y.d[1..n+1]))
  {
    hide Val, Scale, Summed;
    ghost var xs, ys := x.d[1..p+1], y.d[1..n+1];
    assert forall m :: 0 <= m < n ==> ys[m] == y.d[1..p+1][m];
    var i, j, k := p, n, p + 1;
    z.d[k] := 0;
    NothingSummed(z, p, {0, 1}, xs, i, ys, j);
    while j > 0
      invariant 0 <= j <= n && i == p - (n - j) && k == i + 1
      invariant Summed(z, k, p, {0, 1}, Val(xs[i..]) + Val(ys[j..]))
    {
      assert x.d[i] == xs[i-1] && y.d[j] == ys[j-1];
      PairGain(xs, ys, i, j, p - i);
      AddIn(z, k, x.d[i] + y.d[j], p, Val(xs[i..]) + Val(ys[j..]));
      i, j, k := i - 1, j - 1, k - 1;
    }
    assert ys[0..] == ys;
  }

  /** Carry on through the remaining digits of `x`; `added` is what has come in from elsewhere. */
  method AddRest(x: MpNo, z: MpNo, p: nat, n: nat, ghost added: int)
    requires x.Valid(p) && x.d[0] != 0 && n <= p && z.d.Length == SIZE && z.d != x.d
    requires Summed(z, p + 1 - n, p, {0, 1}, Val(x.d[1..p+1][p-n..]) + added)
    modifies z.d
    ensures Summed(z, 1, p, {0, 1}, Val(x.d[1..p+1]) + added)
  {
    hide Val, Scale, Summed;
    ghost var xs := x.d[1..p+1];
    var i, k := p - n, p + 1 - n;
    while i > 0
      invariant 0 <= i <= p - n && k == i + 1
      invariant Summed(z, k, p, {0, 1}, Val(xs[i..]) + added)
    {
      assert x.d[i] == xs[i-1];
      Suffix(xs, i - 1);
      AddIn(z, k, x.d[i], p, Val(xs[i..]) + added);
      i, k := i - 1, k - 1;
    }
    assert xs[0..] == xs;
  }

  /** Add the leading `n` digits of `y` to the digits of `x`, with room for a carry in front. */
  method AddDigits(x: MpNo, y: MpNo, z: MpNo, p: nat, n: nat)
    requires x.Valid(p) && y.Valid(p) && x.d[0] != 0 && y.d[0] != 0 && n <= p
    requires z.d.Length == SIZE && z.d != x.d && z.d != y.d
    modifies z.d
    ensures z.d[1] in {0, 1} && Digits(z.d[2..p+2])
    ensures Val(z.d[1..p+2]) == old(Val(x.d[1..p+1]) + Val(y.d[1..n+1]))
  {
    hide Val, Scale;
    AddPairs(x, y, z, p, n);
    AddRest(x, z, p, n, Val(y.d[1..n+1]));
    ValFirst(z.d[1..p+2]);
    assert z.d[1..p+2][1..] == z.d[2..p+2];
  }

  /** Move the digits up one place. */
  method ShiftDigits(z: MpNo, p: nat)
    requires z.d.Length == SIZE && p <= 32
    modifies z.d
    ensures z.d[1..p+1] == old(z.d[2..p+2]) && z.d[0] == old(z.d[0])
  {
    ghost var was := z.d[..];
    for i := 1 to p + 1
      invariant forall j :: 1 <= j < i ==> z.d[j] == was[j+1]
      invariant forall j :: i <= j < SIZE ==> z.d[j] == was[j]
      invariant z.d[0] == was[0]
    {
      z.d[i] := z.d[i+1];
    }
  }

  /** `z` gets the sum of the magnitudes, truncated; its sign is left open. */
  method AddMagnitudes(x: MpNo, y: MpNo, z: MpNo, p: nat)
    requires x.Valid(p) && y.Valid(p) && x.d[0] != 0 && y.d[0] != 0 && x.e >= y.e
    requires z.d.Length == SIZE && z != x && z != y && z.d != x.d && z.d != y.d
    modifies z, z.d
    ensures Digits(z.d[1..p+1]) && z.d[1] > 0
    ensures TruncatedSum(old(x.View(p)), old(y.View(p)), Num(1, z.e, Val(z.d[1..p+1])))
  {
    hide Val, Scale, TruncatedSum;
    ghost var xs, ys, t := x.d[1..p+1], y.d[1..p+1], x.e - y.e;
    ghost var xn, yn := x.View(p), y.View(p);
    z.e := x.e;
    var n := p + y.e - x.e;
    if n < 1 {
      Copy(x, z, p);
      assert z.d[1..p+1] == z.d[..p+1][1..] == x.d[..p+1][1..] == xs;
      CopyIsTruncated(xn, yn, ys, p);
      return;
    }
    AddDigits(x, y, z, p, n);
    assert y.d[1..n+1] == ys[..n];
    ghost var w := z.d[1..p+2];
    assert Digits(w);
    SumNormalises(xn, xs, yn, ys, n, t, w, p);
    if z.d[1] == 0 {
      ShiftDigits(z, p);
      assert w[1..] == z.d[1..p+1];
      assert z.d[1] == z.d[1..p+1][0] == w[1..][0] == w[1];
    } else {
      z.e := z.e + 1;
      assert w[..p] == z.d[1..p+1];
      assert z.d[1] == w[0] && Digits(z.d[1..p+1]);
    }
  }

  /** A number too small to be seen next to the other is left out. */
  lemma CopyIsTruncated(x: Num, y: Num, ys: seq<int>, p: nat)
    requires |ys| == p && Digits(ys) && y.m == Val(ys) && x.e - y.e >= p
    ensures TruncatedSum(x, y, Num(1, x.e, x.m))
  {
    ValBounds(ys);
    TooSmall(x.m, y.m, p, x.e - y.e);
  }

  /** The sum of the kept digits is normalised by at most one place, and truncates the exact sum. */
  lemma SumNormalises(x: Num, xs: seq<int>, y: Num, ys: seq<int>, n: nat, t: nat, w: seq<int>, p: nat)
    requires p >= 1 && |xs| == |ys| == p && |w| == p + 1 && Digits(xs) && Digits(ys) && Digits(w) && xs[0] > 0
    requires x.e == y.e + t && n + t == p && x.m == Val(xs) && y.m == Val(ys) && Val(w) == Val(xs) + Val(ys[..n])
    ensures w[0] == 0 ==> w[1] > 0 && TruncatedSum(x, y, Num(1, x.e, Val(w[1..])))
    ensures w[0] != 0 ==> TruncatedSum(x, y, Num(1, x.e + 1, Val(w[..p])))
  {
    hide Val, Scale;
    SumOfTruncated(x.m, ys, n, t, Val(w));
    LastDigit(w, p);
    var d := w[p];
    assert 0 <= d < RADIX;
    if w[0] == 0 {
      NoCarry(xs, ys[..n], w);
    } else {
      DropDigit(Val(w[..p]), d, t, Scale(x.m, t) + y.m);
    }
  }

  /** Without a carry the sum starts one place further on, and is as long as the longer of the two numbers. */
  lemma NoCarry(xs: seq<int>, ys: seq<int>, w: seq<int>)
    requires |xs| >= 1 && |w| == |xs| + 1 && Digits(xs) && Digits(ys) && Digits(w) && xs[0] > 0
    requires Val(w) == Val(xs) + Val(ys) && w[0] == 0
    ensures w[1] > 0 && Val(w[1..]) == Val(w)
  {
    ValFirst(w);
    ScaleOrder(0, 0, |xs|);
    ValBounds(ys);
    LeadingDigit(xs);
    LeadingDigit(w[1..]);
  }

  lemma LastDigit(w: seq<int>, p: nat)
    requires |w| == p + 1
    ensures Val(w) == RADIX * Val(w[..p]) + w[p]
  {
  }

  // ---------------------------------------------------------------- subtraction of magnitudes

  /** The difference is off by less than one unit in the last place of `z`, and exact if `z` reaches beyond both. */
  predicate NearDifference(x: Num, y: Num, z: Num) {
    && x.e >= y.e
    && var exact, s := Scale(x.m, x.e - y.e) - y.m, z.e - y.e;
    && (s >= 0 ==> exact - Scale(1, s) < Scale(z.m, s) < exact + Scale(1, s))
    && (s < 0 ==> z.m == Scale(exact, -s))
  }

  /** `k` is `y.m` with one digit more than `x.m` has at its end, and what is beyond that cut off. */
  predicate CutToGuard(x: Num, y: Num, k: int) {
    && x.e >= y.e
    && var t := x.e - y.e;
       if t == 0 then k == RADIX * y.m else Scale(k, t - 1) <= y.m < Scale(k + 1, t - 1)
  }

  /**
   * The difference taken with one guard digit: only then is it moved up, so that it starts with a digit other than
   * zero, or else the guard digit is cut off.
   */
  ghost predicate GuardedResult(x: Num, y: Num, z: Num) {
    && z.e <= x.e
    && exists k :: CutToGuard(x, y, k) && FromGuarded(RADIX * x.m - k, z.m, x.e - z.e)
  }

  predicate FromGuarded(g: int, m: int, zeros: nat) {
    if zeros == 0 then RADIX * m <= g < RADIX * (m + 1) else m == Scale(g, zeros - 1)
  }

  /** Add `v`, which may be negative, to the digit at place `k` and borrow from the place before it. */
  method SubIn(z: MpNo, k: nat, v: int, p: nat, ghost total: int)
    requires z.d.Length == SIZE && 1 <= k <= p + 1 < SIZE && -RADIX < v < RADIX
    requires Summed(z, k, p, {-1, 0}, total)
    modifies z.d
    ensures Summed(z, k - 1, p, {-1, 0}, total + Scale(v, p + 1 - k))
  {
    ghost var borrow, rest := z.d[k], z.d[k+1..p+2];
    z.d[k] := z.d[k] + v;
    if z.d[k] < 0 {
      z.d[k] := z.d[k] + RADIX;
      z.d[k-1] := -1;
    } else {
      z.d[k-1] := 0;
    }
    assert z.d[k..p+2] == [z.d[k]] + rest;
    DigitStep(borrow, v, z.d[k], z.d[k-1], rest);
  }

  /** `x` with a guard digit, and what is kept of `y` next to it. */
  function Guarded(xs: seq<int>): seq<int> {
    xs + [0]
  }

  function Kept(ys: seq<int>, t: nat): seq<int>
    requires t <= |ys|
  {
    if t == 0 then ys + [0] else ys[..|ys|+1-t]
  }

  /** What a pair of digits takes away. */
  lemma PairLoss(xs: seq<int>, ys: seq<int>, i: nat, j: nat, q: nat)
    requires 0 < i <= |xs| && 0 < j <= |ys| && |xs| == i + q && |ys| == j + q
    ensures Val(xs[i-1..]) - Val(ys[j-1..]) == Val(xs[i..]) - Val(ys[j..]) + Scale(xs[i-1] - ys[j-1], q)
  {
    Suffix(xs, i - 1);
    Suffix(ys, j - 1);
    ScaleAdd(xs[i-1], -ys[j-1], q);
    ScaleMinus(ys[j-1], q);
  }

  /** The guard place: nothing of `x`, and the last digit kept of `y`. */
  lemma GuardDone(z: MpNo, p: nat, xs: seq<int>, ys: seq<int>)
    requires z.d.Length == SIZE && 1 <= p && p + 1 < SIZE && |xs| == p + 1 && ys != [] && xs[p] == 0
    requires z.d[p] in {-1, 0} && 0 <= z.d[p+1] < RADIX && RADIX * z.d[p] + z.d[p+1] == -ys[|ys|-1]
    ensures Summed(z, p, p, {-1, 0}, Val(xs[p..]) - Val(ys[|ys|-1..]))
  {
    assert z.d[p+1..p+2] == [z.d[p+1]] && xs[p..] == [0] && ys[|ys|-1..] == [ys[|ys|-1]];
    OneDigit(z.d[p+1]);
    OneDigit(0);
    OneDigit(ys[|ys|-1]);
    assert p + 1 - p == 1 && Scale(z.d[p], 1) == RADIX * Scale(z.d[p], 0);
  }

  lemma OneDigit(d: int)
    ensures Val([d]) == d
  {
    assert [d][..0] == [];
  }

  /** Fill the guard place, and say where in `y` the digits next to those of `x` start. */
  method GuardDigit(x: MpNo, y: MpNo, z: MpNo, p: nat, t: nat) returns (j: nat)
    requires x.Valid(p) && y.Valid(p) && x.d[0] != 0 && y.d[0] != 0 && t <= p
    requires z.d.Length == SIZE && z.d != x.d && z.d != y.d
    modifies z.d
    ensures j == if t == 0 then p else p - t
    ensures var xs, ys := Guarded(x.d[1..p+1]), Kept(y.d[1..p+1], t);
            j + 1 == |ys| && Summed(z, p, p, {-1, 0}, Val(xs[p..]) - Val(ys[j..]))
  {
    hide Val, Scale, Summed;
    ghost var xs, ys := Guarded(x.d[1..p+1]), Kept(y.d[1..p+1], t);
    if t == 0 {
      j := p;
      z.d[p] := 0;
      z.d[p+1] := 0;
    } else {
      j := p + 1 - t;
      assert ys[j-1] == y.d[1..p+1][j-1] == y.d[j];
      if y.d[j] > 0 {
        z.d[p+1] := RADIX - y.d[j];
        z.d[p] := -1;
      } else {
        z.d[p+1] := 0;
        z.d[p] := 0;
      }
      j := j - 1;
    }
    GuardDone(z, p, xs, ys);
  }

  /** Subtract the first `n` digits of `y` from as many digits of `x`, up to the last. */
  method SubPairs(x: MpNo, y: MpNo, z: MpNo, p: nat, n: nat, ghost ys: seq<int>)
    requires x.Valid(p) && x.d[0] != 0 && n <= p && y.d.Length == SIZE && Digits(ys)
    requires |ys| == n + 1 && forall m :: 0 <= m < n ==> ys[m] == y.d[m+1]
    requires z.d.Length == SIZE && z.d != x.d && z.d != y.d
    requires Summed(z, p, p, {-1, 0}, Val(Guarded(x.d[1..p+1])[p..]) - Val(ys[n..]))
    modifies z.d
    ensures Summed(z, p - n, p, {-1, 0}, Val(Guarded(x.d[1..p+1])[p-n..]) - Val(ys))
  {
    hide Val, Scale, Summed;
    ghost var xs := Guarded(x.d[1..p+1]);
    var i, j, k := p, n, p;
    while j > 0
      invariant 0 <= j <= n && i == p - (n - j) && k == i
      invariant Summed(z, k, p, {-1, 0}, Val(xs[i..]) - Val(ys[j..]))
    {
      assert x.d[i] == xs[i-1] && y.d[j] == ys[j-1];
      PairLoss(xs, ys, i, j, p + 1 - i);
      SubIn(z, k, x.d[i] - y.d[j], p, Val(xs[i..]) - Val(ys[j..]));
      i, j, k := i - 1, j - 1, k - 1;
    }
    assert ys[0..] == ys;
  }

  /** Carry on through the remaining digits of `x`; `taken` is what has been taken away. */
  method SubRest(x: MpNo, z: MpNo, p: nat, n: nat, ghost taken: int)
    requires x.Valid(p) && x.d[0] != 0 && n <= p && z.d.Length == SIZE && z.d != x.d
    requires Summed(z, p - n, p, {-1, 0}, Val(Guarded(x.d[1..p+1])[p-n..]) - taken)
    modifies z.d
    ensures Summed(z, 0, p, {-1, 0}, Val(Guarded(x.d[1..p+1])) - taken)
  {
    hide Val, Scale, Summed;
    ghost var xs := Guarded(x.d[1..p+1]);
    var i, k := p - n, p - n;
    while i > 0
      invariant 0 <= i <= p - n && k == i
      invariant Summed(z, k, p, {-1, 0}, Val(xs[i..]) - taken)
    {
      assert x.d[i] == xs[i-1];
      Suffix(xs, i - 1);
      assert |xs| - (i - 1) - 1 == p + 1 - i;
      SubIn(z, k, x.d[i], p, Val(xs[i..]) - taken);
      i, k := i - 1, k - 1;
    }
    assert xs[0..] == xs;
  }

  /** The first place with a digit other than zero. */
  method LeadingPlace(z: MpNo, p: nat) returns (i: nat)
    requires z.d.Length == SIZE && 1 <= p <= 32 && Val(z.d[1..p+2]) != 0
    ensures 1 <= i <= p + 1 && z.d[i] != 0 && forall m :: 1 <= m < i ==> z.d[m] == 0
  {
    if forall m :: 1 <= m <= p + 1 ==> z.d[m] == 0 {
      ValZeros(z.d[1..p+2]);
    }
    ghost var h :| 1 <= h <= p + 1 && z.d[h] != 0;
    i := 1;
    while z.d[i] == 0
      invariant 1 <= i <= h && forall m :: 1 <= m < i ==> z.d[m] == 0
      decreases h - i
    {
      i := i + 1;
    }
  }

  /** Move the digits from place `from` to the front, and put zeros behind them. */
  method MoveUp(z: MpNo, from: nat, p: nat)
    requires z.d.Length == SIZE && 1 <= from <= p + 1 && 1 <= p <= 32
    modifies z.d
    ensures forall m :: 1 <= m <= p + 2 - from ==> z.d[m] == old(z.d[m+from-1])
    ensures forall m :: p + 2 - from < m <= p ==> z.d[m] == 0
  {
    ghost var was := z.d[..];
    var k, i := 1, from;
    while i <= p + 1
      invariant k <= i <= p + 2 && i - k == from - 1 && 1 <= k
      invariant forall m :: 1 <= m < k ==> z.d[m] == was[m+from-1]
      invariant forall m :: k <= m < SIZE ==> z.d[m] == was[m]
    {
      z.d[k] := z.d[i];
      k, i := k + 1, i + 1;
    }
    while k <= p
      invariant p + 3 - from <= k
      invariant forall m :: 1 <= m <= p + 2 - from ==> z.d[m] == was[m+from-1]
      invariant forall m :: p + 2 - from < m < k && m <= p ==> z.d[m] == 0
    {
      z.d[k] := 0;
      k := k + 1;
    }
  }

  /** Strip `zeros` leading zeros from the digits `w`, keeping `p` of the rest. */
  function Stripped(w: seq<int>, zeros: nat, p: nat): (r: seq<int>)
    requires |w| == p + 1 && zeros <= p
    ensures |r| == p
  {
    if zeros == 0 then w[..p] else w[zeros..] + seq(zeros - 1, _ => 0)
  }

  /** Strip leading zeros: the digits move up and zeros follow. */
  method Normalise(z: MpNo, p: nat) returns (ghost zeros: nat)
    requires z.d.Length == SIZE && 1 <= p <= 32 && Val(z.d[1..p+2]) != 0
    modifies z, z.d
    ensures zeros <= p && z.e == old(z.e) - zeros
    ensures var w := old(z.d[1..p+2]);
            && (forall m :: 0 <= m < zeros ==> w[m] == 0)
            && w[zeros] != 0
            && z.d[1..p+1] == Stripped(w, zeros, p)
  {
    hide Val, Stripped;
    var i := LeadingPlace(z, p);
    zeros := i - 1;
    ghost var w := z.d[1..p+2];
    z.e := z.e - i + 1;
    MoveUp(z, i, p);
    forall m | 0 <= m < p ensures z.d[1..p+1][m] == Stripped(w, zeros, p)[m] {
      StrippedAt(w, zeros, p, m);
      assert m + zeros <= p ==> z.d[m+1] == w[m+zeros];
    }
  }

  lemma StrippedAt(w: seq<int>, zeros: nat, p: nat, m: nat)
    requires |w| == p + 1 && zeros <= p && m < p
    ensures Stripped(w, zeros, p)[m] == if m + zeros <= p then w[m+zeros] else 0
  {
  }

  lemma {:induction false} ValTrailing(d: seq<int>, n: nat)
    ensures Val(d + seq(n, _ => 0)) == Scale(Val(d), n)
  {
    ValConcat(d, seq(n, _ => 0));
    ValZeros(seq(n, _ => 0));
  }

  /** Leading zeros carry no value. */
  lemma {:induction false} ValLeading(w: seq<int>, zeros: nat)
    requires zeros <= |w| && forall m :: 0 <= m < zeros ==> w[m] == 0
    ensures Val(w[zeros..]) == Val(w)
  {
    ValConcat(w[..zeros], w[zeros..]);
    assert w == w[..zeros] + w[zeros..];
    ValZeros(w[..zeros]);
    ScaleOrder(0, 0, |w| - zeros);
  }

  lemma StrippedValue(w: seq<int>, zeros: nat, p: nat)
    requires |w| == p + 1 && zeros <= p && Digits(w) && forall m :: 0 <= m < zeros ==> w[m] == 0
    ensures Digits(Stripped(w, zeros, p))
    ensures zeros == 0 ==> RADIX * Val(Stripped(w, zeros, p)) + w[p] == Val(w)
    ensures zeros > 0 ==> Val(Stripped(w, zeros, p)) == Scale(Val(w), zeros - 1)
  {
    if zeros == 0 {
      LastDigit(w, p);
    } else {
      ValLeading(w, zeros);
      ValTrailing(w[zeros..], zeros - 1);
    }
  }

  /** Taking away a truncated number takes away too little, by less than one unit. */
  lemma DifferenceOfTruncated(xm: int, y: int, kept: int, u: nat)
    requires Scale(kept, u) <= y < Scale(kept + 1, u)
    ensures Scale(RADIX * xm - kept - 1, u) < Scale(xm, u + 1) - y <= Scale(RADIX * xm - kept, u)
  {
    ScaleIn(xm, u);
    assert Scale(xm, u + 1) == RADIX * Scale(xm, u);
    hide Scale;
    ScaleAdd(RADIX * xm, -kept, u);
    ScaleAdd(RADIX * xm, -kept - 1, u);
    ScaleMinus(kept, u);
    ScaleMinus(kept + 1, u);
    assert -(kept + 1) == -kept - 1;
  }

  lemma ScaleZero(m: int)
    ensures Scale(m, 0) == m
  {
  }

  /** How the guarded difference relates to the exact one, in units of the last place of `y`. */
  lemma GuardedDifference(xs: seq<int>, ys: seq<int>, t: nat)
    requires |xs| == |ys| >= t && Digits(ys)
    ensures var g := Val(Guarded(xs)) - Val(Kept(ys, t));
            var exact := Scale(Val(xs), t) - Val(ys);
            && (t == 0 ==> g == RADIX * exact)
            && (t > 0 ==> Scale(g - 1, t - 1) < exact <= Scale(g, t - 1))
  {
    hide Val, Scale;
    ScaleZero(Val(xs));
    ValAppend(xs, 0);
    if t == 0 {
      ValAppend(ys, 0);
    } else {
      var n := |ys| + 1 - t;
      Truncated(ys, n, t - 1);
      DifferenceOfTruncated(Val(xs), Val(ys), Val(ys[..n]), t - 1);
    }
  }

  /** The exact difference of a greater and a smaller magnitude is positive, and so is the guarded one. */
  lemma DifferenceIsPositive(xs: seq<int>, ys: seq<int>, t: nat)
    requires |xs| == |ys| >= 1 && Digits(xs) && Digits(ys) && xs[0] > 0
    requires t > 0 || Val(xs) > Val(ys)
    ensures Scale(Val(xs), t) - Val(ys) > 0
  {
    if t > 0 {
      var p := |xs|;
      LeadingDigit(xs);
      ValBounds(ys);
      hide Val;
      ScaleOrder(Val(xs), Scale(1, p - 1), t);
      ScaleScale(1, p - 1, t);
      PowerGrows(p, p - 1 + t);
    }
  }

  /** With exponents two or more apart, at most one leading digit of the guarded difference is zero. */
  lemma FewLeadingZeros(xs: seq<int>, ys: seq<int>, t: nat)
    requires 2 <= t <= |xs| == |ys| && Digits(xs) && Digits(ys) && xs[0] > 0
    ensures Val(Guarded(xs)) - Val(Kept(ys, t)) >= Scale(1, |xs| - 1)
  {
    var p := |xs|;
    LeadingDigit(xs);
    ValAppend(xs, 0);
    ValBounds(ys[..p+1-t]);
    PowerGrows(p + 1 - t, p - 1);
    ScalePositive(p - 1);
    hide Val, Scale;
  }

  lemma LeadingZerosBound(w: seq<int>, zeros: nat)
    requires zeros < |w| && Digits(w) && forall m :: 0 <= m < zeros ==> w[m] == 0
    ensures Val(w) < Scale(1, |w| - zeros)
  {
    ValLeading(w, zeros);
    ValBounds(w[zeros..]);
  }

  /** The guarded difference, stripped of leading zeros and cut to `p` digits, is near enough to the exact one. */
  lemma StrippedIsNear(x: Num, xs: seq<int>, y: Num, ys: seq<int>, t: nat, w: seq<int>, zeros: nat, p: nat)
    requires 1 <= p && t <= p && |xs| == |ys| == p && Digits(xs) && Digits(ys) && xs[0] > 0
    requires x.e == y.e + t && x.m == Val(xs) && y.m == Val(ys)
    requires |w| == p + 1 && Digits(w) && zeros <= p && w[zeros] != 0 && (forall m :: 0 <= m < zeros ==> w[m] == 0)
    requires Val(w) == Val(Guarded(xs)) - Val(Kept(ys, t))
    ensures NearDifference(x, y, Num(1, x.e - zeros, Val(Stripped(w, zeros, p))))
  {
    hide Val, Scale, Stripped, Guarded, Kept, NearDifference;
    StrippedValue(w, zeros, p);
    GuardedDifference(xs, ys, t);
    if t >= 2 {
      FewLeadingZeros(xs, ys, t);
      LeadingZerosBound(w, zeros);
      ScaleOneOrder(p - 1, p + 1 - zeros);
    }
    var digit := w[p];
    assert 0 <= digit < RADIX;
    NearByCases(x, y, t, Val(w), Val(Stripped(w, zeros, p)), digit, zeros);
  }

  /** And it is that of the guarded difference. */
  lemma StrippedIsGuarded(x: Num, xs: seq<int>, y: Num, ys: seq<int>, t: nat, w: seq<int>, zeros: nat, p: nat)
    requires 1 <= p && t <= p && |xs| == |ys| == p && Digits(ys) && Digits(w)
    requires x.e == y.e + t && x.m == Val(xs) && y.m == Val(ys)
    requires |w| == p + 1 && zeros <= p && (forall m :: 0 <= m < zeros ==> w[m] == 0)
    requires Val(w) == Val(Guarded(xs)) - Val(Kept(ys, t))
    ensures GuardedResult(x, y, Num(1, x.e - zeros, Val(Stripped(w, zeros, p))))
  {
    hide Val, Scale, Stripped;
    StrippedValue(w, zeros, p);
    ValAppend(xs, 0);
    var k := Val(Kept(ys, t));
    if t == 0 {
      ValAppend(ys, 0);
    } else {
      Truncated(ys, |ys| + 1 - t, t - 1);
    }
    assert CutToGuard(x, y, k);
    assert 0 <= w[p] < RADIX;
    assert FromGuarded(RADIX * x.m - k, Val(Stripped(w, zeros, p)), zeros);
  }

  lemma NearByCases(x: Num, y: Num, t: nat, g: int, m: int, digit: int, zeros: nat)
    requires x.e == y.e + t && 0 <= digit < RADIX && (t >= 2 ==> zeros < 2)
    requires t == 0 ==> g == RADIX * (Scale(x.m, t) - y.m)
    requires t > 0 ==> Scale(g - 1, t - 1) < Scale(x.m, t) - y.m <= Scale(g, t - 1)
    requires zeros == 0 ==> RADIX * m + digit == g
    requires zeros > 0 ==> m == Scale(g, zeros - 1)
    ensures NearDifference(x, y, Num(1, x.e - zeros, m))
  {
    var exact := Scale(x.m, t) - y.m;
    assert x.e - y.e == t && x.e - zeros - y.e == t - zeros;
    if t == 0 {
      if zeros > 0 {
        ScaleIn(exact, zeros - 1);
      }
    } else if zeros == 0 {
      NearAfterCut(exact, g, m, digit, t - 1);
    } else if zeros == 1 {
      NearWithoutCut(exact, g, t - 1);
    } else {
      assert exact == g && zeros - t == zeros - 1;
    }
  }

  lemma {:induction false} ScaleOneOrder(a: nat, b: nat)
    ensures Scale(1, a) < Scale(1, b) ==> a < b
  {
    if b <= a {
      PowerGrows(b, a);
    }
  }

  lemma NearWithoutCut(exact: int, g: int, u: nat)
    requires Scale(g - 1, u) < exact <= Scale(g, u)
    ensures exact - Scale(1, u) < Scale(g, u) < exact + Scale(1, u)
  {
    ScalePositive(u);
    ScaleAdd(g - 1, 1, u);
  }

  lemma NearAfterCut(exact: int, g: int, m: int, d: int, u: nat)
    requires g == RADIX * m + d && 0 <= d < RADIX && Scale(g - 1, u) < exact <= Scale(g, u)
    ensures exact - Scale(1, u + 1) < Scale(m, u + 1) < exact + Scale(1, u + 1)
  {
    ScalePositive(u);
    ScaleIn(m, u);
    ScaleIn(1, u);
    ScaleAdd(g - 1, 1, u);
    ScaleAdd(RADIX * m, d, u);
    ScaleAdd(RADIX * m, RADIX, u);
    ScaleOrder(d, RADIX, u);
    ScaleOrder(0, 0, u);
    ScaleOrder(d, 0, u);
    assert Scale(m, u + 1) == RADIX * Scale(m, u) && Scale(1, u + 1) == RADIX * Scale(1, u);
  }

  /** `z` gets the difference of the magnitudes, with one guard digit; its sign is left open. */
  method SubMagnitudes(x: MpNo, y: MpNo, z: MpNo, p: nat)
    requires x.Valid(p) && y.Valid(p) && x.d[0] != 0 && y.d[0] != 0
    requires CompareMagnitudes(x.View(p), y.View(p)) > 0
    requires z.d.Length == SIZE && z != x && z != y && z.d != x.d && z.d != y.d
    modifies z, z.d
    ensures Digits(z.d[1..p+1]) && z.d[1] > 0
    ensures NearDifference(old(x.View(p)), old(y.View(p)), Num(1, z.e, Val(z.d[1..p+1])))
    ensures GuardedResult(old(x.View(p)), old(y.View(p)), Num(1, z.e, Val(z.d[1..p+1])))
  {
    hide Val, Scale, NearDifference, GuardedResult, Summed, Guarded, Kept;
    ghost var xs, ys := x.d[1..p+1], y.d[1..p+1];
    ghost var xn, yn := x.View(p), y.View(p);
    z.e := x.e;
    var t := x.e - y.e;
    if t > p {
      Copy(x, z, p);
      assert z.d[1..p+1] == z.d[..p+1][1..] == x.d[..p+1][1..] == xs;
      CopyIsNear(xn, yn, ys, p);
      return;
    }
    var n := GuardDigit(x, y, z, p, t);
    ghost var kept := Kept(ys, t);
    KeptDigits(ys, t);
    SubPairs(x, y, z, p, n, kept);
    SubRest(x, z, p, n, Val(kept));
    ghost var w := z.d[1..p+2];
    NoBorrow(z, xs, ys, t, p);
    ghost var zeros := Normalise(z, p);
    StrippedValue(w, zeros, p);
    StrippedAt(w, zeros, p, 0);
    StrippedIsNear(xn, xs, yn, ys, t, w, zeros, p);
    StrippedIsGuarded(xn, xs, yn, ys, t, w, zeros, p);
  }

  lemma KeptDigits(ys: seq<int>, t: nat)
    requires t <= |ys| && Digits(ys)
    ensures Digits(Kept(ys, t)) && |Kept(ys, t)| == (if t == 0 then |ys| + 1 else |ys| + 1 - t)
    ensures forall m :: 0 <= m < |Kept(ys, t)| - 1 ==> Kept(ys, t)[m] == ys[m]
  {
  }

  lemma CopyIsNear(x: Num, y: Num, ys: seq<int>, p: nat)
    requires |ys| == p && Digits(ys) && y.m == Val(ys) && x.e - y.e > p && ys != [] && ys[0] > 0
    ensures NearDifference(x, y, Num(1, x.e, x.m)) && GuardedResult(x, y, Num(1, x.e, x.m))
  {
    var t := x.e - y.e;
    ValBounds(ys);
    LeadingDigit(ys);
    ScalePositive(p - 1);
    TooSmall(x.m, y.m, p, t);
    PowerGrows(p, t);
    PowerGrows(p, t - 1);
    ScaleOrder(0, 0, t - 1);
    assert CutToGuard(x, y, 0);
    assert FromGuarded(RADIX * x.m - 0, x.m, 0);
  }

  /** The difference is positive, so nothing is borrowed from the place of the sign. */
  lemma NoBorrow(z: MpNo, xs: seq<int>, ys: seq<int>, t: nat, p: nat)
    requires z.d.Length == SIZE && 1 <= p <= 32 && |xs| == |ys| == p >= t && Digits(xs) && Digits(ys) && xs[0] > 0
    requires t > 0 || Val(xs) > Val(ys)
    requires Summed(z, 0, p, {-1, 0}, Val(Guarded(xs)) - Val(Kept(ys, t)))
    ensures Digits(z.d[1..p+2]) && Val(z.d[1..p+2]) == Val(Guarded(xs)) - Val(Kept(ys, t)) > 0
  {
    hide Val, Scale, Guarded, Kept;
    GuardedDifference(xs, ys, t);
    DifferenceIsPositive(xs, ys, t);
    var g := Val(Guarded(xs)) - Val(Kept(ys, t));
    if t > 0 {
      ScaleOrder(0, g, t - 1);
    }
    assert p + 1 - 0 == p + 1 && z.d[0+1..p+2] == z.d[1..p+2];
    ValBounds(z.d[1..p+2]);
    ScaleMinus(1, p + 1);
    ScaleOrder(0, 0, p + 1);
  }

  // ---------------------------------------------------------------- addition and subtraction

  function Negated(n: Num): Num {
    n.(sign := -n.sign)
  }

  predicate FineForAll(x: Num, y: Num, z: Num, f: int) {
    FineFor(x, f) && FineFor(y, f) && FineFor(z, f)
  }

  predicate SameDirection(x: Num, y: Num) {
    x.sign == 0 || y.sign == 0 || x.sign == y.sign
  }

  function Abs(n: int): nat {
    if n < 0 then -n else n
  }

  /** At scale `f`: summands of one direction give the sum truncated, others a sum off by less than one ulp. */
  predicate AccurateAt(x: Num, y: Num, z: Num, f: int)
    requires FineForAll(x, y, z, f)
  {
    var exact := At(x, f) + At(y, f);
    if z.sign == 0 then exact == 0
    else
      && (exact < 0 <==> z.sign < 0)
      && if SameDirection(x, y) then Abs(At(z, f)) <= Abs(exact) < Abs(At(z, f)) + Ulp(z, f)
         else Abs(exact - At(z, f)) < Ulp(z, f)
  }

  /** `z` is the sum of `x` and `y`, as accurately as the documentation promises. */
  ghost predicate SumOf(x: Num, y: Num, z: Num) {
    forall f: int :: FineForAll(x, y, z, f) ==> AccurateAt(x, y, z, f)
  }

  lemma TruncatedAt(x: Num, y: Num, z: Num, f: int)
    requires TruncatedSum(x, y, z) && f <= y.e
    ensures var zf := Scale(z.m, z.e - f);
            zf <= Scale(x.m, x.e - f) + Scale(y.m, y.e - f) < zf + Scale(1, z.e - f)
  {
    hide Scale;
    var u, t, s := y.e - f, x.e - y.e, z.e - y.e;
    var exact := Scale(x.m, t) + y.m;
    ScaleAdd(Scale(x.m, t), y.m, u);
    ScaleScale(x.m, t, u);
    ScaleScale(z.m, s, u);
    ScaleScale(z.m + 1, s, u);
    assert t + u == x.e - f && s + u == z.e - f;
    ScaleOrder(exact, Scale(z.m, s), u);
    ScaleOrder(exact, Scale(z.m + 1, s), u);
    ScaleAdd(z.m, 1, z.e - f);
  }

  lemma NearAt(x: Num, y: Num, z: Num, f: int)
    requires NearDifference(x, y, z) && f <= y.e && f <= z.e
    ensures Abs(Scale(x.m, x.e - f) - Scale(y.m, y.e - f) - Scale(z.m, z.e - f)) < Scale(1, z.e - f)
  {
    hide Scale;
    var u, t, s := y.e - f, x.e - y.e, z.e - y.e;
    var exact := Scale(x.m, t) - y.m;
    ScaleAdd(Scale(x.m, t), -y.m, u);
    ScaleMinus(y.m, u);
    ScaleScale(x.m, t, u);
    assert t + u == x.e - f && s + u == z.e - f;
    if s >= 0 {
      ScaleScale(z.m, s, u);
      ScaleScale(1, s, u);
      ScaleOrder(exact - Scale(1, s), Scale(z.m, s), u);
      ScaleOrder(Scale(z.m, s), exact + Scale(1, s), u);
      ScaleAdd(exact, Scale(1, s), u);
      ScaleAdd(exact, -Scale(1, s), u);
      ScaleMinus(Scale(1, s), u);
    } else {
      ScaleScale(exact, -s, z.e - f);
      assert -s + (z.e - f) == u;
      ScalePositive(z.e - f);
    }
  }

  lemma SameDirectionIsAccurate(x: Num, y: Num, z: Num, p: nat)
    requires p >= 1 && Normal(x, p) && Normal(y, p) && x.sign == y.sign == z.sign != 0
    requires TruncatedSum(x, y, z.(sign := 1)) || TruncatedSum(y, x, z.(sign := 1))
    ensures SumOf(x, y, z)
  {
    hide Scale, TruncatedSum;
    forall f: int | FineForAll(x, y, z, f) ensures AccurateAt(x, y, z, f) {
      MagnitudePositive(x, p, f);
      MagnitudePositive(y, p, f);
      if TruncatedSum(x, y, z.(sign := 1)) {
        TruncatedAt(x, y, z.(sign := 1), f);
      } else {
        TruncatedAt(y, x, z.(sign := 1), f);
      }
      ScaleNonNegative(z, f);
    }
  }

  lemma ScaleNonNegative(z: Num, f: int)
    requires f <= z.e
    ensures z.m >= 0 ==> Scale(z.m, z.e - f) >= 0
    ensures z.m < 0 ==> Scale(z.m, z.e - f) + Scale(1, z.e - f) <= 0
  {
    ScaleOrder(z.m, 0, z.e - f);
    ScaleOrder(0, 0, z.e - f);
    ScaleOrder(0, z.m + 1, z.e - f);
    ScaleAdd(z.m, 1, z.e - f);
  }

  lemma OppositeIsAccurate(x: Num, y: Num, z: Num, p: nat)
    requires p >= 1 && Normal(x, p) && Normal(y, p) && Normal(z, p) && x.sign != 0 && y.sign != 0
             && z.sign == x.sign != y.sign
    requires CompareMagnitudes(x, y) > 0 && NearDifference(x, y, z.(sign := 1))
    ensures SumOf(x, y, z) && SumOf(y, x, z)
  {
    hide Scale, NearDifference, CompareMagnitudes;
    forall f: int | FineForAll(x, y, z, f) ensures AccurateAt(x, y, z, f) && AccurateAt(y, x, z, f) {
      MagnitudePositive(x, p, f);
      MagnitudePositive(y, p, f);
      MagnitudePositive(z, p, f);
      CompareMagnitudesIsOrder(x, y, p, f);
      NearAt(x, y, z.(sign := 1), f);
    }
    assert forall f: int :: FineForAll(y, x, z, f) ==> FineForAll(x, y, z, f);
  }

  lemma CancelsIsAccurate(x: Num, y: Num, z: Num, p: nat)
    requires p >= 1 && Normal(x, p) && Normal(y, p) && x.sign != 0 && y.sign != 0 && x.sign != y.sign && z.sign == 0
    requires CompareMagnitudes(x, y) == 0
    ensures SumOf(x, y, z)
  {
    forall f: int | FineForAll(x, y, z, f) ensures AccurateAt(x, y, z, f) {
      CompareMagnitudesIsOrder(x, y, p, f);
    }
  }

  /** Adding zero copies. */
  lemma ZeroIsAccurate(x: Num, y: Num, z: Num, p: nat)
    requires p >= 1 && Normal(y, p) && x.sign == 0 && z.sign == y.sign && (y.sign != 0 ==> z == y)
    ensures SumOf(x, y, z) && SumOf(y, x, z)
  {
    forall f: int | FineForAll(x, y, z, f) ensures AccurateAt(x, y, z, f) && AccurateAt(y, x, z, f) {
      MagnitudePositive(y, p, f);
      if y.sign != 0 {
        ScalePositive(y.e - f);
      }
    }
    assert forall f: int :: FineForAll(y, x, z, f) ==> FineForAll(x, y, z, f);
  }

  lemma NegatedIsNormal(n: Num, p: nat)
    requires p >= 1 && Normal(n, p)
    ensures Normal(Negated(n), p)
  {
  }

  method CopyNumber(x: MpNo, z: MpNo, p: nat)
    requires x.Valid(p) && z.d.Length == SIZE && z != x && z.d != x.d
    modifies z, z.d
    ensures z.Valid(p) && z.View(p) == old(x.View(p))
  {
    Copy(x, z, p);
    assert z.d[1..p+1] == z.d[..p+1][1..] == x.d[..p+1][1..] == x.d[1..p+1];
    assert z.d[0] == z.d[..p+1][0] == x.d[0] && z.d[1] == z.d[..p+1][1] == x.d[1];
  }

  method Negate(z: MpNo, p: nat)
    requires z.Valid(p)
    modifies z.d
    ensures z.Valid(p) && z.View(p) == Negated(old(z.View(p)))
  {
    z.d[0] := -z.d[0];
  }

  /** Add magnitudes, the smaller to the greater. */
  method AddOrdered(x: MpNo, y: MpNo, z: MpNo, p: nat) returns (n: int)
    requires x.Valid(p) && y.Valid(p) && x.d[0] != 0 && y.d[0] != 0
    requires z.d.Length == SIZE && z != x && z != y && z.d != x.d && z.d != y.d
    modifies z, z.d
    ensures Digits(z.d[1..p+1]) && z.d[1] > 0
    ensures n > 0 ==> TruncatedSum(old(x.View(p)), old(y.View(p)), Num(1, z.e, Val(z.d[1..p+1])))
    ensures n <= 0 ==> TruncatedSum(old(y.View(p)), old(x.View(p)), Num(1, z.e, Val(z.d[1..p+1])))
  {
    hide Val, TruncatedSum;
    n := Acr(x, y, p);
    if n > 0 {
      AddMagnitudes(x, y, z, p);
    } else {
      AddMagnitudes(y, x, z, p);
    }
  }

  /** Subtract magnitudes, the smaller from the greater; equal ones leave nothing. */
  method SubOrdered(x: MpNo, y: MpNo, z: MpNo, p: nat) returns (n: int)
    requires x.Valid(p) && y.Valid(p) && x.d[0] != 0 && y.d[0] != 0
    requires z.d.Length == SIZE && z != x && z != y && z.d != x.d && z.d != y.d
    modifies z, z.d
    ensures n == CompareMagnitudes(old(x.View(p)), old(y.View(p)))
    ensures n != 0 ==> Digits(z.d[1..p+1]) && z.d[1] > 0
    ensures n == 1 ==> NearDifference(old(x.View(p)), old(y.View(p)), Num(1, z.e, Val(z.d[1..p+1])))
    ensures n == -1 ==> NearDifference(old(y.View(p)), old(x.View(p)), Num(1, z.e, Val(z.d[1..p+1])))
    ensures n == 1 ==> GuardedResult(old(x.View(p)), old(y.View(p)), Num(1, z.e, Val(z.d[1..p+1])))
    ensures n == -1 ==> GuardedResult(old(y.View(p)), old(x.View(p)), Num(1, z.e, Val(z.d[1..p+1])))
  {
    hide Val, NearDifference, GuardedResult;
    n := Acr(x, y, p);
    if n == 1 {
      SubMagnitudes(x, y, z, p);
    } else if n == -1 {
      SubMagnitudes(y, x, z, p);
    }
  }

  /** Of summands of opposite signs that do not cancel, the lesser is taken from the greater with one guard digit. */
  ghost predicate GuardsOneDigit(x: Num, y: Num, z: Num) {
    x.sign != 0 && y.sign != 0 && x.sign != y.sign ==>
      && (CompareMagnitudes(x, y) == 1 ==> GuardedResult(x, y, z))
      && (CompareMagnitudes(x, y) == -1 ==> GuardedResult(y, x, z))
  }

  lemma GuardIgnoresSigns(x: Num, y: Num)
    ensures forall z: Num :: GuardedResult(Negated(x), y, z) == GuardedResult(x, y, z)
    ensures forall z: Num :: GuardedResult(y, Negated(x), z) == GuardedResult(y, x, z)
  {
    forall z: Num
      ensures GuardedResult(Negated(x), y, z) == GuardedResult(x, y, z)
      ensures GuardedResult(y, Negated(x), z) == GuardedResult(y, x, z)
    {
      assert forall k :: CutToGuard(Negated(x), y, k) == CutToGuard(x, y, k);
      assert forall k :: CutToGuard(y, Negated(x), k) == CutToGuard(y, x, k);
    }
  }

  lemma LikeSum(z: MpNo, x: Num, y: Num, p: nat)
    requires z.d.Length == SIZE && 1 <= p <= 32 && Digits(z.d[1..p+1]) && z.d[1] > 0
    requires Normal(x, p) && Normal(y, p) && z.d[0] == x.sign == y.sign != 0
    requires var n := Num(1, z.e, Val(z.d[1..p+1])); TruncatedSum(x, y, n) || TruncatedSum(y, x, n)
    ensures z.Valid(p) && SumOf(x, y, z.View(p))
  {
    hide Val, Scale, TruncatedSum, SumOf;
    SameDirectionIsAccurate(x, y, z.View(p), p);
  }

  lemma UnlikeSum(z: MpNo, x: Num, y: Num, n: int, p: nat)
    requires z.d.Length == SIZE && 1 <= p <= 32 && n == CompareMagnitudes(x, y)
    requires Normal(x, p) && Normal(y, p) && x.sign != 0 && y.sign != 0 && x.sign != y.sign
    requires n != 0 ==> Digits(z.d[1..p+1]) && z.d[1] > 0
    requires n == 1 ==> z.d[0] == x.sign && NearDifference(x, y, Num(1, z.e, Val(z.d[1..p+1])))
    requires n == -1 ==> z.d[0] == y.sign && NearDifference(y, x, Num(1, z.e, Val(z.d[1..p+1])))
    requires n == 1 ==> GuardedResult(x, y, Num(1, z.e, Val(z.d[1..p+1])))
    requires n == -1 ==> GuardedResult(y, x, Num(1, z.e, Val(z.d[1..p+1])))
    requires n == 0 ==> z.d[0] == 0
    ensures z.Valid(p) && SumOf(x, y, z.View(p)) && GuardsOneDigit(x, y, z.View(p))
  {
    hide Val, Scale, NearDifference, SumOf, CutToGuard, FromGuarded;
    ValidIsNormal(z, p);
    if n == 1 {
      OppositeIsAccurate(x, y, z.View(p), p);
    } else if n == -1 {
      OppositeIsAccurate(y, x, z.View(p), p);
    } else {
      CancelsIsAccurate(x, y, z.View(p), p);
    }
  }

  /** `z` becomes the sum of `x` and `y`; those two may be one object, `z` is another. */
  method Add(x: MpNo, y: MpNo, z: MpNo, p: nat)
    requires x.Valid(p) && y.Valid(p)
    requires z.d.Length == SIZE && z != x && z != y && z.d != x.d && z.d != y.d
    modifies z, z.d
    ensures z.Valid(p) && SumOf(old(x.View(p)), old(y.View(p)), z.View(p))
    ensures GuardsOneDigit(old(x.View(p)), old(y.View(p)), z.View(p))
  {
    hide Val, Scale, SumOf, Normal, GuardedResult;
    ghost var xn, yn := x.View(p), y.View(p);
    ValidIsNormal(x, p);
    ValidIsNormal(y, p);
    if x.d[0] == 0 {
      CopyNumber(y, z, p);
      ZeroIsAccurate(xn, yn, z.View(p), p);
    } else if y.d[0] == 0 {
      CopyNumber(x, z, p);
      ZeroIsAccurate(yn, xn, z.View(p), p);
    } else if x.d[0] == y.d[0] {
      var n := AddOrdered(x, y, z, p);
      z.d[0] := if n > 0 then x.d[0] else y.d[0];
      LikeSum(z, xn, yn, p);
    } else {
      var n := SubOrdered(x, y, z, p);
      z.d[0] := if n == 1 then x.d[0] else if n == -1 then y.d[0] else 0;
      UnlikeSum(z, xn, yn, n, p);
    }
  }

  /** `z` becomes `x` less `y`. */
  method Sub(x: MpNo, y: MpNo, z: MpNo, p: nat)
    requires x.Valid(p) && y.Valid(p)
    requires z.d.Length == SIZE && z != x && z != y && z.d != x.d && z.d != y.d
    modifies z, z.d
    ensures z.Valid(p) && SumOf(old(x.View(p)), Negated(old(y.View(p))), z.View(p))
    ensures GuardsOneDigit(old(x.View(p)), Negated(old(y.View(p))), z.View(p))
  {
    hide Val, Scale, SumOf, Normal, GuardedResult;
    ghost var xn, yn := x.View(p), Negated(y.View(p));
    ValidIsNormal(x, p);
    ValidIsNormal(y, p);
    NegatedIsNormal(y.View(p), p);
    if x.d[0] == 0 {
      CopyNumber(y, z, p);
      Negate(z, p);
      ZeroIsAccurate(xn, yn, z.View(p), p);
    } else if y.d[0] == 0 {
      CopyNumber(x, z, p);
      ZeroIsAccurate(yn, xn, z.View(p), p);
    } else if x.d[0] != y.d[0] {
      var n := AddOrdered(x, y, z, p);
      z.d[0] := if n > 0 then x.d[0] else -y.d[0];
      LikeSum(z, xn, yn, p);
    } else {
      GuardIgnoresSigns(y.View(p), xn);
      var n := SubOrdered(x, y, z, p);
      z.d[0] := if n == 1 then x.d[0] else if n == -1 then -y.d[0] else 0;
      UnlikeSum(z, xn, yn, n, p);
    }
  }
}
