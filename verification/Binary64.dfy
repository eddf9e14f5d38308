/** Rounding to integral values on the two words of a binary64 encoding (IEEE 754-2008, sections 3.4 and 5.9). */
module Binary64 {
  import opened Bits

  const WORD: nat := 0x1_0000_0000

  type Word = w: nat | w < WORD

  datatype Double = Double(hi: Word, lo: Word)

  predicate Negative(x: Double) {
    x.hi >= 0x8000_0000
  }

  function Exponent(x: Double): nat {
    x.hi / 0x10_0000 % 0x800
  }

  function Fraction(x: Double): nat {
    x.hi % 0x10_0000 * WORD + x.lo
  }

  predicate Finite(x: Double) {
    Exponent(x) < 0x7ff
  }

  predicate Infinite(x: Double) {
    Exponent(x) == 0x7ff && Fraction(x) == 0
  }

  const HIDDEN: nat := 0x10_0000_0000_0000

  /** Every finite number is a whole multiple of 2^-1074. */
  const FINEST: nat := 1074

  type Fineness = n: nat | n >= FINEST witness FINEST

  /** Values are integers in units of 2^-UNIT, whichever unit that is. */
  ghost const UNIT: Fineness

  /** The integral significand of a finite number. */
  function Significand(x: Double): nat {
    if Exponent(x) == 0 then Fraction(x) else HIDDEN + Fraction(x)
  }

  /** How many places the significand is above the unit. */
  ghost function Place(x: Double): nat {
    (if Exponent(x) == 0 then 0 else Exponent(x) - 1) + (UNIT - FINEST)
  }

  ghost function Magnitude(x: Double): int {
    Up(Significand(x), Place(x))
  }

  ghost function Value(x: Double): int {
    if Negative(x) then -Magnitude(x) else Magnitude(x)
  }

  /** The number one, in the same units. */
  ghost function Unity(): int {
    Up(1, UNIT)
  }

  ghost predicate Integral(x: Double) {
    exists n: nat :: Magnitude(x) == Up(n, UNIT)
  }

  // ---------------------------------------------------------------- encodings

  function Pattern(x: Double): nat {
    x.hi * WORD + x.lo
  }

  /** Adding to the pattern adds to the fraction, and a fraction that runs over bumps the exponent. */
  lemma Bump(x: Double, y: Double, t: int)
    requires 1 <= Exponent(x) < 0x7fe && Pattern(y) == Pattern(x) + t && 0 <= Fraction(x) + t <= HIDDEN
    ensures Finite(y) && (Negative(y) <==> Negative(x)) && Magnitude(y) == Up(HIDDEN + Fraction(x) + t, Place(x))
  {
    Fields(x);
    Fields(y);
    UpIn(HIDDEN, Place(x));
    UpNext(HIDDEN, Place(x));
    hide Up;
    var f := Fraction(x) + t;
    var base := (if Negative(x) then 0x800 else 0) + Exponent(x);
    assert Pattern(y) == base * HIDDEN + f;
  }

  /** A pattern is sign and exponent, then the fraction. */
  lemma Fields(x: Double)
    ensures Pattern(x) == ((if Negative(x) then 0x800 else 0) + Exponent(x)) * HIDDEN + Fraction(x)
    ensures Fraction(x) < HIDDEN
  {
  }

  lemma Powers()
    ensures Up(1, 16) == 0x1_0000 && Up(1, 20) == 0x10_0000 && Up(1, 32) == WORD && Up(1, 52) == HIDDEN
  {
    assert Up(1, 4) == 0x10;
    assert Up(1, 8) == 0x100;
    assert Up(1, 12) == 0x1000;
    assert Up(1, 16) == 0x1_0000;
    assert Up(1, 20) == 0x10_0000;
    assert Up(0x1_0000, 4) == 0x10_0000;
    assert Up(0x1_0000, 8) == 0x100_0000;
    assert Up(0x1_0000, 12) == 0x1000_0000;
    UpUp(1, 16, 16);
    assert Up(0x10_0000, 4) == 0x100_0000;
    assert Up(0x10_0000, 8) == 0x1000_0000;
    assert Up(0x10_0000, 12) == 0x1_0000_0000;
    assert Up(0x10_0000, 16) == 0x10_0000_0000;
    UpUp(1, 20, 16);
    UpUp(1, 36, 16);
    assert Up(0x10_0000_0000, 4) == 0x100_0000_0000;
    assert Up(0x10_0000_0000, 8) == 0x1000_0000_0000;
    assert Up(0x10_0000_0000, 12) == 0x1_0000_0000_0000;
  }

  lemma HiddenIsUp(s: nat)
    requires s <= 52
    ensures Up(1, 52) == HIDDEN && Up(Up(1, 52 - s), s) == HIDDEN
  {
    UpUp(1, 52 - s, s);
    Powers();
  }

  lemma WordIsUp(v: int)
    ensures Up(v, 32) == v * WORD
  {
    UpTimes(v, 32);
    Powers();
  }

  /** Clearing the `s` bits below the units of a significand leaves a whole number of units. */
  lemma ClearedSignificand(f: nat, b: nat, s: nat)
    requires f < HIDDEN && s <= 52 && b <= Up(1, s)
    ensures var q, low := Up(1, 52 - s) + Shift(f + b, s), Low(f + b, s);
            && q >= 0 && HIDDEN + f + b - low == Up(q, s)
            && 0 <= f + b - low <= HIDDEN && low < Up(1, s)
  {
    var k := Shift(f + b, s);
    HiddenIsUp(s);
    HighAndLow(f + b, s);
    UpOne(s);
    UpOne(52 - s);
    hide Up, Shift, Low, Pow2;
    var whole := Up(1, 52 - s);
    UpAdd(whole, k, s);
    UpAdd(whole, 1, s);
    UpOrder(k, whole + 1, s);
    UpOrder(whole, k, s);
    UpOrder(k, 0, s);
    UpOrder(0, 0, s);
  }

  /** Add `b` to the fraction and clear the `s` bits below the units: the result is a whole number of units. */
  lemma RoundFraction(f: nat, b: nat, s: nat, e: nat)
    requires f < HIDDEN && s <= 52 && s + e == UNIT && b <= Up(1, s)
    ensures var q, t := Up(1, 52 - s) + Shift(f + b, s), b - Low(f + b, s);
            && 0 <= f + t <= HIDDEN && q >= 0
            && Up(HIDDEN + f + t, e) == Up(q, UNIT)
            && Up(q, UNIT) <= Up(HIDDEN + f, e) + Up(b, e) < Up(q, UNIT) + Unity()
            && (Low(f + b, s) > 0 ==> Up(q, UNIT) < Up(HIDDEN + f, e) + Up(b, e))
  {
    hide Up, Shift, Low, Pow2;
    var q, low := Up(1, 52 - s) + Shift(f + b, s), Low(f + b, s);
    ClearedSignificand(f, b, s);
    UpUp(q, s, e);
    UpUp(1, s, e);
    UpAdd(HIDDEN + f, b, e);
    UpAdd(Up(q, s), low, e);
    UpOrder(low, Up(1, s), e);
    UpOrder(0, low, e);
    UpOrder(0, 0, e);
    UpOrder(low, 0, e);
    assert HIDDEN + f + (b - low) == Up(q, s) && HIDDEN + f + b == Up(q, s) + low;
  }

  /** The same on a number: `x` between one and 2^52, whose last `s` fraction bits are below the units. */
  lemma RoundNumber(x: Double, r: Double, b: nat, s: nat)
    requires 0x3ff <= Exponent(x) && Exponent(x) + s == 0x433 && b <= Up(1, s)
    requires Pattern(r) == Pattern(x) + b - Low(Fraction(x) + b, s)
    ensures Finite(r) && (Negative(r) <==> Negative(x)) && Integral(r)
    ensures var sum := Magnitude(x) + Up(b, Place(x));
            && Magnitude(r) <= sum < Magnitude(r) + Unity()
            && (Low(Fraction(x) + b, s) > 0 ==> Magnitude(r) < sum)
  {
    hide Up, Low, Shift;
    Fields(x);
    RoundFraction(Fraction(x), b, s, Place(x));
    Bump(x, r, b - Low(Fraction(x) + b, s));
    UpAdd(HIDDEN + Fraction(x), b, Place(x));
    assert Magnitude(r) == Up(Up(1, 52 - s) + Shift(Fraction(x) + b, s), UNIT);
  }

  /** Bits of the high word above the fraction play no part in its low bits. */
  lemma LowBitsOfHi(x: Double, a: nat, n: nat)
    requires n <= 20
    ensures Low(x.hi + a, n) == Low(x.hi % 0x10_0000 + a, n)
  {
    hide Up, Low, Pow2;
    var k := x.hi / 0x10_0000;
    UpUp(k, 20 - n, n);
    assert 20 - n + n == 20;
    UpTimes(k, 20);
    Powers();
    UpOrder(0, k, 20 - n);
    UpOrder(0, 0, 20 - n);
    UpOrder(k, 0, 20 - n);
    LowOfSum(Up(k, 20 - n), x.hi % 0x10_0000 + a, n);
  }

  /** The bits below the units, when they reach into the high word. */
  lemma HiWord(x: Double, a: nat, n: nat)
    requires n <= 20
    ensures Low(Fraction(x) + a * WORD, n + 32) == Low(x.hi + a, n) * WORD + x.lo
  {
    hide Up, Low, Pow2;
    var g := x.hi % 0x10_0000 + a;
    LowBitsOfHi(x, a, n);
    WordIsUp(g);
    WordIsUp(Low(g, n));
    WordIsUp(1);
    UpOne(32);
    LowAcross(g, x.lo, n, 32);
  }

  /** The bits below the units, when the low word holds them all. */
  lemma LoWord(x: Double, b: nat, s: nat)
    requires s <= 32
    ensures Low(Fraction(x) + b, s) == Low(x.lo + b, s)
  {
    hide Up, Low, Pow2;
    var g := x.hi % 0x10_0000;
    WordIsUp(g);
    UpUp(g, 32 - s, s);
    UpOrder(0, g, 32 - s);
    UpOrder(g, 0, 32 - s);
    UpOrder(0, 0, 32 - s);
    LowOfSum(Up(g, 32 - s), x.lo + b, s);
  }

  // ---------------------------------------------------------------- numbers that are small or already integral

  /** Below one: zero is the integral part. From one half on, one is the nearest integer. */
  lemma BelowOne(x: Double)
    requires Exponent(x) < 0x3ff
    ensures 0 <= Magnitude(x) < Unity()
    ensures Magnitude(x) == 0 <==> x.hi % 0x8000_0000 == 0 && x.lo == 0
    ensures 2 * Magnitude(x) >= Unity() <==> Exponent(x) == 0x3fe
  {
    hide Up;
    Fields(x);
    var e, m := Place(x), Significand(x);
    UpNext(m, 0);
    assert Magnitude(x) == Up(m, e);
    UpNext(m, e);
    OneInParts();
    UpOrder(m, 0, e);
    UpOrder(0, m, e);
    UpOrder(0, 0, e);
    SmallGrows(m, 2 * HIDDEN, e, UNIT - 53);
    if Exponent(x) < 0x3fe {
      SmallGrows(m, 2 * HIDDEN, e + 1, UNIT - 53);
    } else {
      UpOrder(m, HIDDEN, UNIT - 52);
    }
  }

  lemma UpNext(m: int, e: nat)
    ensures 2 * Up(m, e) == Up(m, e + 1) && Up(m, 0) == m
  {
  }

  lemma OneInParts()
    ensures Unity() == Up(HIDDEN, UNIT - 52) == Up(2 * HIDDEN, UNIT - 53)
  {
    HiddenIsUp(52);
    hide Up;
    UpUp(1, 52, UNIT - 52);
    UpIn(HIDDEN, UNIT - 53);
    UpNext(HIDDEN, UNIT - 53);
  }

  lemma {:induction false} SmallGrows(a: int, b: int, m: nat, n: nat)
    requires 0 <= a < b && m <= n
    ensures Up(a, m) < Up(b, n)
  {
    if m < n {
      SmallGrows(a, b, m, n - 1);
      UpOrder(b, 0, n - 1);
      UpOrder(0, 0, n - 1);
    } else {
      UpOrder(a, b, n);
    }
  }

  /** From 2^52 on every number is integral. */
  lemma LargeIsIntegral(x: Double)
    requires 0x433 <= Exponent(x)
    ensures Integral(x)
  {
    hide Up;
    var m := HIDDEN + Fraction(x);
    var n := Exponent(x) - 0x433;
    UpUp(m, n, UNIT);
    assert n + UNIT == Place(x);
    UpOrder(m, 0, n);
    UpOrder(0, 0, n);
    assert Magnitude(x) == Up(Up(m, n), UNIT);
  }

  /** A number without bits below the units is integral. */
  lemma NoBitsIsIntegral(x: Double, s: nat)
    requires 0x3ff <= Exponent(x) && Exponent(x) + s == 0x433 && Low(Fraction(x), s) == 0
    ensures Integral(x)
  {
    UpOrder(0, 1, s);
    UpOrder(0, 0, s);
    RoundNumber(x, x, 0, s);
  }

  lemma ZeroAndOne(x: Double)
    requires x.hi % 0x8000_0000 in {0, 0x3ff0_0000} && x.lo == 0
    ensures Integral(x) && Finite(x) && Magnitude(x) == if x.hi % 0x8000_0000 == 0 then 0 else Unity()
  {
    hide Up;
    OneInParts();
    UpOrder(0, 0, UNIT);
    UpOrder(0, 0, Place(x));
    assert x.hi % 0x8000_0000 == 0 ==> Magnitude(x) == Up(0, UNIT);
    assert x.hi % 0x8000_0000 != 0 ==> Magnitude(x) == Up(1, UNIT);
  }

  // ---------------------------------------------------------------- what each rounding promises

  predicate SameSign(x: Double, r: Double) {
    Negative(r) <==> Negative(x)
  }

  ghost predicate IsFloor(x: Double, r: Double) {
    Finite(r) && Integral(r) && SameSign(x, r) && Value(r) <= Value(x) < Value(r) + Unity()
  }

  ghost predicate IsCeil(x: Double, r: Double) {
    Finite(r) && Integral(r) && SameSign(x, r) && Value(r) - Unity() < Value(x) <= Value(r)
  }

  ghost predicate IsTrunc(x: Double, r: Double) {
    Finite(r) && Integral(r) && SameSign(x, r) && Magnitude(r) <= Magnitude(x) < Magnitude(r) + Unity()
  }

  /** Nearest, and of two equally near the one further from zero. */
  ghost predicate IsRound(x: Double, r: Double) {
    Finite(r) && Integral(r) && SameSign(x, r)
        && 2 * Magnitude(r) - Unity() <= 2 * Magnitude(x) < 2 * Magnitude(r) + Unity()
  }

  lemma IntegralIsRounded(x: Double)
    requires Finite(x) && Integral(x)
    ensures IsFloor(x, x) && IsCeil(x, x) && IsTrunc(x, x) && IsRound(x, x)
  {
    UpOrder(0, 1, UNIT);
    UpOrder(0, 0, UNIT);
  }

  /** The `s` bits below the units are cleared after adding `b` of them. */
  ghost predicate Cleared(x: Double, r: Double, b: nat, s: nat) {
    && 0x3ff <= Exponent(x) && Exponent(x) + s == 0x433
    && Pattern(r) == Pattern(x) + b - Low(Fraction(x) + b, s)
  }

  lemma ClearedIsTrunc(x: Double, r: Double, s: nat)
    requires Cleared(x, r, 0, s)
    ensures IsTrunc(x, r)
  {
    hide Up, Low;
    UpOrder(0, 1, s);
    UpOrder(0, 0, s);
    UpOrder(0, 0, Place(x));
    RoundNumber(x, r, 0, s);
  }

  /** Away from zero, when there is something below the units. */
  lemma ClearedIsAway(x: Double, r: Double, s: nat)
    requires Cleared(x, r, Pow2(s), s) && Low(Fraction(x), s) > 0
    ensures Finite(r) && Integral(r) && SameSign(x, r) && Magnitude(r) - Unity() < Magnitude(x) <= Magnitude(r)
  {
    UpOne(s);
    LowOfSum(1, Fraction(x), s);
    assert Up(1, s) + Fraction(x) == Fraction(x) + Pow2(s);
    hide Up, Low;
    RoundNumber(x, r, Pow2(s), s);
    UpUp(1, s, Place(x));
    assert s + Place(x) == UNIT;
  }

  lemma ClearedIsRound(x: Double, r: Double, s: nat)
    requires s >= 1 && Cleared(x, r, Pow2(s - 1), s)
    ensures IsRound(x, r)
  {
    UpOne(s - 1);
    UpOne(s);
    hide Up, Low;
    RoundNumber(x, r, Pow2(s - 1), s);
    UpUp(1, s - 1, Place(x));
    assert s - 1 + Place(x) == UNIT - 1;
    UpNext(1, UNIT - 1);
  }

  // ---------------------------------------------------------------- the word operations

  /** Clear the bits below the units when they reach into the high word, after adding `a` to that word. */
  lemma HiCleared(x: Double, a: nat, j0: int)
    requires j0 == Exponent(x) - 0x3ff && 0 <= j0 < 20 && x.hi + a < WORD
    ensures Low(x.hi + a, 20 - j0) <= x.hi + a
    ensures Cleared(x, Double(x.hi + a - Low(x.hi + a, 20 - j0), 0), a * WORD, 52 - j0)
    ensures a == 0 ==> Low(Fraction(x), 52 - j0) == Low(x.hi, 20 - j0) * WORD + x.lo
  {
    hide Low, Up, Pow2;
    LowAtMost(x.hi + a, 20 - j0);
    HiWord(x, a, 20 - j0);
    assert 20 - j0 + 32 == 52 - j0;
  }

  lemma LowAtMost(v: nat, n: nat)
    ensures Low(v, n) <= v
  {
    HighAndLow(v, n);
    UpOrder(Shift(v, n), 0, n);
    UpOrder(0, 0, n);
  }

  /** Clear the bits below the units of the low word, after adding `b` to it with a carry into the high word. */
  lemma LoCleared(x: Double, b: nat, j0: int, hi: Word, sum: Word)
    requires j0 == Exponent(x) - 0x3ff && 20 <= j0 <= 51
    requires hi * WORD + sum == Pattern(x) + b
    ensures Low(sum, 52 - j0) <= sum
    ensures Cleared(x, Double(hi, sum - Low(sum, 52 - j0)), b, 52 - j0)
    ensures b == 0 ==> Low(Fraction(x), 52 - j0) == Low(x.lo, 52 - j0)
  {
    hide Low, Up, Pow2;
    var s := 52 - j0;
    LoWord(x, b, s);
    LoWord(x, 0, s);
    LowAtMost(sum, s);
    LowOfWord(x.lo + b, sum, s, hi - x.hi);
  }

  lemma LowOfWord(v: nat, w: nat, s: nat, k: nat)
    requires s <= 32 && v == k * WORD + w
    ensures Low(v, s) == Low(w, s)
  {
    WordIsUp(k);
    UpUp(k, 32 - s, s);
    UpOrder(k, 0, 32 - s);
    UpOrder(0, 0, 32 - s);
    LowOfSum(Up(k, 32 - s), w, s);
  }

  /** `*lo + b` as an unsigned word, with the carry into the high word. */
  method AddToLow(hi: Word, lo: Word, b: nat) returns (hi': Word, lo': Word)
    requires b < WORD && hi < WORD - 1
    ensures hi' * WORD + lo' == hi * WORD + lo + b
  {
    lo' := (lo + b) % WORD;
    hi' := if lo' < lo then hi + 1 else hi;
  }

  lemma PowBelowWord(n: nat)
    requires n <= 31
    ensures Pow2(n) < WORD && (n <= 20 ==> Pow2(n) <= 0x10_0000)
  {
    UpOne(n);
    Powers();
    PowGrows(n, 31);
    UpOne(31);
    UpNext(1, 31);
    if n <= 20 {
      PowGrows(n, 20);
      UpOne(20);
    }
  }

  lemma {:induction false} PowGrows(m: nat, n: nat)
    requires m <= n
    ensures Pow2(m) <= Pow2(n)
  {
    if m < n {
      PowGrows(m, n - 1);
    }
  }

  /** The greatest integral value that is not above `x`. */
  method Floor(x: Double) returns (r: Double)
    ensures Finite(x) ==> IsFloor(x, r)
    ensures Infinite(x) ==> r == x
  {
    hide IsFloor, Integral, Low, Pow2, Cleared, Magnitude;
    var i0, i1, j0 := x.hi, x.lo, Exponent(x) - 0x3ff;
    if j0 == 0x400 {
      return x;
    }
    if j0 > 51 {
      LargeIsIntegral(x);
      IntegralIsRounded(x);
      return x;
    }
    if j0 < 0 {
      if i0 < 0x8000_0000 {
        r := Double(0, 0);
      } else if i0 % 0x8000_0000 != 0 || i1 != 0 {
        r := Double(0xbff0_0000, 0);
      } else {
        r := x;
      }
      SmallFloor(x, r);
      return;
    }
    if j0 < 20 {
      var i := 20 - j0;
      HiCleared(x, 0, j0);
      if Low(i0, i) == 0 && i1 == 0 {
        NoBitsIsIntegral(x, 52 - j0);
        IntegralIsRounded(x);
        return x;
      }
      PowBelowWord(i);
      if i0 >= 0x8000_0000 {
        HiCleared(x, Pow2(i), j0);
        PowerOfWord(i);
        i0 := i0 + Pow2(i);
      }
      i0 := i0 - Low(i0, i);
      r := Double(i0, 0);
    } else {
      var i := 52 - j0;
      LoCleared(x, 0, j0, x.hi, x.lo);
      if Low(i1, i) == 0 {
        NoBitsIsIntegral(x, i);
        IntegralIsRounded(x);
        return x;
      }
      if i0 >= 0x8000_0000 {
        if j0 == 20 {
          i0 := i0 + 1;
        } else {
          PowBelowWord(i);
          i0, i1 := AddToLow(i0, i1, Pow2(i));
        }
        PowerOfWord(i);
        LoCleared(x, Pow2(i), j0, i0, i1);
      }
      r := Double(i0, i1 - Low(i1, i));
    }
    ClearedFloor(x, r, 52 - j0);
  }

  lemma SmallFloor(x: Double, r: Double)
    requires Exponent(x) < 0x3ff
    requires r == if !Negative(x) then Double(0, 0)
             else if x.hi % 0x8000_0000 != 0 || x.lo != 0 then Double(0xbff0_0000, 0) else x
    ensures IsFloor(x, r)
  {
    hide Up, Integral;
    BelowOne(x);
    ZeroAndOne(r);
  }

  lemma PowerOfWord(i: nat)
    ensures i == 32 ==> Pow2(i) == WORD
    ensures Pow2(i) * WORD == Pow2(i + 32)
  {
    UpOne(32);
    UpOne(i);
    UpOne(i + 32);
    UpUp(1, i, 32);
    WordIsUp(Up(1, i));
    Powers();
  }

  lemma ClearedFloor(x: Double, r: Double, s: nat)
    requires Low(Fraction(x), s) > 0
    requires if Negative(x) then Cleared(x, r, Pow2(s), s) else Cleared(x, r, 0, s)
    ensures IsFloor(x, r)
  {
    hide Cleared, Integral, Low, Pow2;
    if Negative(x) {
      ClearedIsAway(x, r, s);
    } else {
      ClearedIsTrunc(x, r, s);
    }
  }

  /** The least integral value that is not below `x`. */
  method Ceil(x: Double) returns (r: Double)
    ensures Finite(x) ==> IsCeil(x, r)
    ensures Infinite(x) ==> r == x
  {
    hide IsCeil, Integral, Low, Pow2, Cleared, Magnitude;
    var i0, i1, j0 := x.hi, x.lo, Exponent(x) - 0x3ff;
    if j0 == 0x400 {
      return x;
    }
    if j0 > 51 {
      LargeIsIntegral(x);
      IntegralIsRounded(x);
      return x;
    }
    if j0 < 0 {
      if i0 >= 0x8000_0000 {
        r := Double(0x8000_0000, 0);
      } else if i0 != 0 || i1 != 0 {
        r := Double(0x3ff0_0000, 0);
      } else {
        r := x;
      }
      SmallCeil(x, r);
      return;
    }
    if j0 < 20 {
      var i := 20 - j0;
      HiCleared(x, 0, j0);
      if Low(i0, i) == 0 && i1 == 0 {
        NoBitsIsIntegral(x, 52 - j0);
        IntegralIsRounded(x);
        return x;
      }
      PowBelowWord(i);
      if 0 < i0 < 0x8000_0000 {
        HiCleared(x, Pow2(i), j0);
        PowerOfWord(i);
        i0 := i0 + Pow2(i);
      }
      i0 := i0 - Low(i0, i);
      r := Double(i0, 0);
    } else {
      var i := 52 - j0;
      LoCleared(x, 0, j0, x.hi, x.lo);
      if Low(i1, i) == 0 {
        NoBitsIsIntegral(x, i);
        IntegralIsRounded(x);
        return x;
      }
      if 0 < i0 < 0x8000_0000 {
        if j0 == 20 {
          i0 := i0 + 1;
        } else {
          PowBelowWord(i);
          i0, i1 := AddToLow(i0, i1, Pow2(i));
        }
        PowerOfWord(i);
        LoCleared(x, Pow2(i), j0, i0, i1);
      }
      r := Double(i0, i1 - Low(i1, i));
    }
    ClearedCeil(x, r, 52 - j0);
  }

  lemma SmallCeil(x: Double, r: Double)
    requires Exponent(x) < 0x3ff
    requires r == if Negative(x) then Double(0x8000_0000, 0) else if x.hi != 0 || x.lo != 0 then Double(0x3ff0_0000, 0)
             else x
    ensures IsCeil(x, r)
  {
    hide Up, Integral;
    BelowOne(x);
    ZeroAndOne(r);
  }

  lemma ClearedCeil(x: Double, r: Double, s: nat)
    requires Low(Fraction(x), s) > 0
    requires if Negative(x) then Cleared(x, r, 0, s) else Cleared(x, r, Pow2(s), s)
    ensures IsCeil(x, r)
  {
    hide Cleared, Integral, Low, Pow2;
    if Negative(x) {
      ClearedIsTrunc(x, r, s);
    } else {
      ClearedIsAway(x, r, s);
    }
  }

  /** The integral part of `x`. */
  method Trunc(x: Double) returns (r: Double)
    ensures Finite(x) ==> IsTrunc(x, r)
    ensures Infinite(x) ==> r == x
  {
    hide IsTrunc, Integral, Low, Pow2, Cleared, Magnitude;
    var i0, i1, j0 := x.hi, x.lo, Exponent(x) - 0x3ff;
    var sx := if i0 >= 0x8000_0000 then 0x8000_0000 else 0;
    if j0 < 20 {
      if j0 < 0 {
        r := Double(sx, 0);
        SmallTrunc(x, r);
      } else {
        // the sign bit is among the bits that are kept
        HiCleared(x, 0, j0);
        r := Double(i0 - Low(i0, 20 - j0), 0);
        ClearedIsTrunc(x, r, 52 - j0);
      }
    } else if j0 > 51 {
      r := x;
      if j0 != 0x400 {
        LargeIsIntegral(x);
        IntegralIsRounded(x);
      }
    } else {
      LoCleared(x, 0, j0, i0, i1);
      r := Double(i0, i1 - Low(i1, 52 - j0));
      ClearedIsTrunc(x, r, 52 - j0);
    }
  }

  lemma SmallTrunc(x: Double, r: Double)
    requires Exponent(x) < 0x3ff && r == Double(if Negative(x) then 0x8000_0000 else 0, 0)
    ensures IsTrunc(x, r)
  {
    hide Up, Integral;
    BelowOne(x);
    ZeroAndOne(r);
  }

  /** The integral value nearest to `x`; of two, the one further from zero. */
  method Round(x: Double) returns (r: Double)
    ensures Finite(x) ==> IsRound(x, r)
    ensures Infinite(x) ==> r == x
  {
    hide IsRound, Integral, Low, Pow2, Cleared, Magnitude;
    var i0, i1, j0 := x.hi, x.lo, Exponent(x) - 0x3ff;
    if j0 < 20 {
      if j0 < 0 {
        i0 := if i0 >= 0x8000_0000 then 0x8000_0000 else 0;
        if j0 == -1 {
          i0 := i0 + 0x3ff0_0000;
        }
        r := Double(i0, 0);
        SmallRound(x, r);
      } else {
        var i := 20 - j0;
        HiCleared(x, 0, j0);
        if Low(i0, i) == 0 && i1 == 0 {
          NoBitsIsIntegral(x, 52 - j0);
          IntegralIsRounded(x);
          return x;
        }
        PowBelowWord(i - 1);
        HiCleared(x, Pow2(i - 1), j0);
        PowerOfWord(i - 1);
        i0 := i0 + Pow2(i - 1);
        i0 := i0 - Low(i0, i);
        r := Double(i0, 0);
        ClearedIsRound(x, r, 52 - j0);
      }
    } else if j0 > 51 {
      r := x;
      if j0 != 0x400 {
        LargeIsIntegral(x);
        IntegralIsRounded(x);
      }
    } else {
      var i := 52 - j0;
      LoCleared(x, 0, j0, i0, i1);
      if Low(i1, i) == 0 {
        NoBitsIsIntegral(x, i);
        IntegralIsRounded(x);
        return x;
      }
      PowBelowWord(i - 1);
      i0, i1 := AddToLow(i0, i1, Pow2(i - 1));
      LoCleared(x, Pow2(i - 1), j0, i0, i1);
      r := Double(i0, i1 - Low(i1, i));
      ClearedIsRound(x, r, i);
    }
  }

  lemma SmallRound(x: Double, r: Double)
    requires Exponent(x) < 0x3ff
    requires r
             == Double((if Negative(x) then 0x8000_0000 else 0) + (if Exponent(x) == 0x3fe then 0x3ff0_0000 else 0), 0)
    ensures IsRound(x, r)
  {
    hide Up, Integral;
    BelowOne(x);
    ZeroAndOne(r);
  }

  // ---------------------------------------------------------------- the exponent of a number

  datatype LogB = OfZero | OfNotFinite | Power(n: int)

  /** Shift a positive word to the left until its top bit is set, counting down from `start`. */
  method CountDown(v: Word, start: int) returns (ix: int, ghost k: nat)
    requires v > 0
    ensures ix == start - k && 0x8000_0000 <= Up(v, k) < WORD
  {
    var w := v;
    ix, k := start, 0;
    while w < 0x8000_0000
      invariant 0 < w < WORD && w == Up(v, k) && ix == start - k
      decreases WORD - w
    {
      ix := ix - 1;
      w := w * 2;
      k := k + 1;
    }
  }

  lemma OneGrows(a: nat, b: nat)
    ensures a <= b ==> Up(1, a) <= Up(1, b)
  {
    UpOne(a);
    UpOne(b);
    if a <= b {
      PowGrows(a, b);
    }
  }

  /** A number that reaches the top bit of a word after `k` shifts. */
  lemma TopBit(v: nat, k: nat)
    requires 0x8000_0000 <= Up(v, k) < WORD
    ensures k <= 31 && Up(1, 31 - k) <= v < Up(1, 32 - k)
  {
    Powers();
    UpNext(1, 31);
    hide Up;
    UpOrder(v, 1, k);
    UpOrder(0, 0, k);
    OneGrows(32, k);
    UpUp(1, 31 - k, k);
    UpUp(1, 32 - k, k);
    UpOrder(v, Up(1, 31 - k), k);
    UpOrder(v, Up(1, 32 - k), k);
  }

  /** The exponent of the greatest power of two that is not above the magnitude of `x`. */
  method Ilogb(x: Double) returns (r: LogB)
    ensures !Finite(x) <==> r.OfNotFinite?
    ensures Finite(x) ==> (r.OfZero? <==> Magnitude(x) == 0)
    ensures r.Power? ==> r.n + FINEST >= 0 && Up(1, r.n + UNIT) <= Magnitude(x) < Up(1, r.n + UNIT + 1)
  {
    hide Up;
    var hx, lx := x.hi % 0x8000_0000, x.lo;
    if hx < 0x10_0000 {
      BelowOne(x);
      if hx == 0 && lx == 0 {
        return OfZero;
      }
      var ix;
      ghost var k;
      if hx == 0 {
        ix, k := CountDown(lx, -1043);
        TopBit(lx, k);
        SubnormalPower(x, 31 - k);
      } else {
        ShiftEleven(hx);
        ix, k := CountDown(hx * 0x800, -1022);
        TopBitOfHigh(hx, lx, k);
        SubnormalPower(x, 52 - k);
      }
      r := Power(ix);
    } else if hx < 0x7ff0_0000 {
      r := Power(hx / 0x10_0000 - 1023);
      NormalPower(x);
    } else {
      r := OfNotFinite;
    }
  }

  lemma ShiftEleven(h: nat)
    ensures Up(h, 11) == h * 0x800
  {
    UpTimes(h, 11);
    assert Up(1, 4) == 0x10 && Up(1, 8) == 0x100;
    UpUp(1, 8, 3);
    assert Up(0x100, 3) == 0x800;
  }

  /** A high word that reaches the top bit after eleven and `k` more shifts, and what comes below it. */
  lemma TopBitOfHigh(h: nat, lo: Word, k: nat)
    requires 0x8000_0000 <= Up(h * 0x800, k) < WORD
    ensures k + 11 <= 31 && Up(1, 52 - k) <= h * WORD + lo < Up(1, 53 - k)
  {
    ShiftEleven(h);
    UpUp(h, 11, k);
    TopBit(h, k + 11);
    var m := 31 - (k + 11);
    UpUp(1, m, 32);
    UpUp(1, m + 1, 32);
    WordIsUp(Up(1, m));
    WordIsUp(Up(1, m + 1));
  }

  lemma SubnormalPower(x: Double, n: nat)
    requires Exponent(x) == 0 && Up(1, n) <= Fraction(x) < Up(1, n + 1)
    ensures 0 < Up(1, n + (UNIT - FINEST)) <= Magnitude(x) < Up(1, n + (UNIT - FINEST) + 1)
  {
    hide Up;
    var e := UNIT - FINEST;
    UpUp(1, n, e);
    UpUp(1, n + 1, e);
    UpOne(n + e);
    UpOrder(Fraction(x), Up(1, n), e);
    UpOrder(Fraction(x), Up(1, n + 1), e);
  }

  lemma NormalPower(x: Double)
    requires 1 <= Exponent(x)
    ensures 0 < Up(1, Place(x) + 52) <= Magnitude(x) < Up(1, Place(x) + 53)
  {
    hide Up;
    UpOne(Place(x) + 52);
    Fields(x);
    var e := Place(x);
    HiddenIsUp(52);
    UpUp(1, 52, e);
    UpNext(1, e + 52);
    UpIn(HIDDEN, e);
    UpNext(HIDDEN, e);
    UpOrder(HIDDEN + Fraction(x), HIDDEN, e);
    UpOrder(HIDDEN + Fraction(x), 2 * HIDDEN, e);
  }
}
