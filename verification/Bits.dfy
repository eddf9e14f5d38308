/** Bit fields of natural numbers, in arithmetic. */
module Bits {

  function Pow2(n: nat): (p: nat)
    ensures p >= 1
  {
    if n == 0 then 1 else 2 * Pow2(n - 1)
  }

  /** A truth value as a bit. */
  function One(b: bool): nat {
    if b then 1 else 0
  }

  /** `value >> width`. */
  function Shift(value: nat, width: nat): nat {
    if width == 0 then value else Shift(value / 2, width - 1)
  }

  /** `value & (1 << width) - 1`: the low bits that a right shift drops. */
  function Low(value: nat, width: nat): (r: nat)
    ensures r < Pow2(width)
  {
    if width == 0 then 0 else value % 2 + 2 * Low(value / 2, width - 1)
  }

  /** `value << width`. */
  function Up(value: int, width: nat): int {
    if width == 0 then value else 2 * Up(value, width - 1)
  }

  lemma {:induction false} UpAdd(a: int, b: int, n: nat)
    ensures Up(a + b, n) == Up(a, n) + Up(b, n)
  {
    if n > 0 {
      UpAdd(a, b, n - 1);
    }
  }

  lemma {:induction false} UpUp(a: int, m: nat, n: nat)
    ensures Up(Up(a, m), n) == Up(a, m + n)
  {
    if n > 0 {
      UpUp(a, m, n - 1);
    }
  }

  lemma {:induction false} UpOrder(a: int, b: int, n: nat)
    ensures a < b <==> Up(a, n) < Up(b, n)
    ensures a == 0 ==> Up(a, n) == 0
  {
    if n > 0 {
      UpOrder(a, b, n - 1);
    }
  }

  lemma {:induction false} UpIn(a: int, n: nat)
    ensures Up(2 * a, n) == 2 * Up(a, n)
  {
    if n > 0 {
      UpIn(a, n - 1);
    }
  }

  lemma {:induction false} UpTimes(a: int, n: nat)
    ensures Up(a, n) == a * Up(1, n)
  {
    if n > 0 {
      UpTimes(a, n - 1);
      TimesTwo(a, Up(1, n - 1));
    }
  }

  lemma TimesTwo(a: int, b: int)
    ensures a * (2 * b) == 2 * (a * b)
  {
  }

  lemma {:induction false} UpOne(n: nat)
    ensures Up(1, n) == Pow2(n)
  {
    if n > 0 {
      UpOne(n - 1);
    }
  }

  /** A number is its high bits, moved up, and its low bits. */
  lemma {:induction false} HighAndLow(v: nat, n: nat)
    ensures v == Up(Shift(v, n), n) + Low(v, n)
  {
    if n > 0 {
      HighAndLow(v / 2, n - 1);
    }
  }

  /** A number that fits is its own low bits. */
  lemma {:induction false} LowOfSmall(value: nat, width: nat)
    requires value < Pow2(width)
    ensures Low(value, width) == value
  {
    if width > 0 {
      LowOfSmall(value / 2, width - 1);
    }
  }

  /** Adding a multiple of 2^n leaves the low n bits alone. */
  lemma {:induction false} LowOfSum(k: nat, v: nat, n: nat)
    ensures Up(k, n) >= 0 && Low(Up(k, n) + v, n) == Low(v, n)
  {
    if n > 0 {
      LowOfSum(k, v / 2, n - 1);
      assert (2 * Up(k, n - 1) + v) / 2 == Up(k, n - 1) + v / 2;
    }
  }

  /** The low bits of a number with `m` further places below. */
  lemma {:induction false} LowAcross(a: nat, b: nat, n: nat, m: nat)
    requires b < Pow2(m)
    ensures Up(a, m) >= 0 && Up(Low(a, n), m) >= 0 && Low(Up(a, m) + b, n + m) == Up(Low(a, n), m) + b
  {
    if m > 0 {
      LowAcross(a, b / 2, n, m - 1);
      assert (2 * Up(a, m - 1) + b) / 2 == Up(a, m - 1) + b / 2;
    }
  }
}
