/** The engine's `Decimal`: an int64 count of units of 10^-scale, with two's-complement wrap-around. */
module Decimals {
  import opened Digits

  const TWO_63 := 0x8000_0000_0000_0000
  const TWO_64 := 0x1_0000_0000_0000_0000

  type Int64 = x: int | -TWO_63 <= x < TWO_63

  datatype Decimal = Decimal(unscaled: Int64, scale: nat)

  const ZERO := Decimal(0, 0)

  predicate InRange(x: int) {
    -TWO_63 <= x < TWO_63
  }

  /** Reduction to the int64 that agrees with `x` modulo 2^64. */
  function Wrap64(x: int): (w: Int64)
    ensures InRange(x) ==> w == x
  {
    (x + TWO_63) % TWO_64 - TWO_63
  }

  // ----- the number a Decimal stands for -----

  /** n / 10^scale, by repeated division. */
  ghost function ValueOf(n: int, scale: nat): real {
    if scale == 0 then n as real else ValueOf(n, scale - 1) / 10.0
  }

  ghost function Val(d: Decimal): real {
    ValueOf(d.unscaled, d.scale)
  }

  lemma {:induction false} ValueOfShift(n: int, scale: nat, k: nat)
    ensures ValueOf(Shift(n, k), scale + k) == ValueOf(n, scale)
  {
    if k > 0 {
      ValueOfShift(n, scale, k - 1);
      ValueOfTimesTen(Shift(n, k - 1), scale + k - 1);
    }
  }

  lemma {:induction false} ValueOfTimesTen(n: int, scale: nat)
    ensures ValueOf(10 * n, scale) == 10.0 * ValueOf(n, scale)
  {
    if scale > 0 {
      ValueOfTimesTen(n, scale - 1);
    }
  }

  lemma {:induction false} ValueOfLinear(m: int, n: int, scale: nat)
    ensures ValueOf(m + n, scale) == ValueOf(m, scale) + ValueOf(n, scale)
    ensures ValueOf(-m, scale) == -ValueOf(m, scale)
    ensures m < n <==> ValueOf(m, scale) < ValueOf(n, scale)
    ensures m == n <==> ValueOf(m, scale) == ValueOf(n, scale)
  {
    if scale > 0 {
      ValueOfLinear(m, n, scale - 1);
    }
  }

  // ----- arithmetic -----

  /** 10^n in int64 arithmetic: a product that overflows wraps. */
  function IPow(n: nat): Int64 {
    Wrap64(Pow10(n))
  }

  /** The largest power of ten that is an int64, and the largest scale the engine's arithmetic is safe for. */
  const MAX_SCALE := 18

  type Scale = s: nat | s <= MAX_SCALE

  /** Every product of the loop that computes 10^k is an int64. */
  ghost predicate PowersInRange(k: nat) {
    forall i: nat | i <= k :: InRange(Pow10(i))
  }

  lemma Pow10At18()
    ensures Pow10(18) == 1_000_000_000_000_000_000
  {
    assert Pow10(6) == 1_000_000;
    assert Pow10(12) == 1_000_000 * Pow10(6);
    assert Pow10(18) == 1_000_000 * Pow10(12);
  }

  lemma {:induction false} Pow10Grows(i: nat, k: nat)
    requires i <= k
    ensures Pow10(i) <= Pow10(k)
    decreases k
  {
    if i < k {
      Pow10Grows(i, k - 1);
    }
  }

  /** Up to 10^18 the loop never leaves int64; the next product does. */
  lemma PowersFitIff(k: nat)
    ensures PowersInRange(k) <==> k <= MAX_SCALE
  {
    Pow10At18();
    if k <= MAX_SCALE {
      forall i: nat | i <= k
        ensures InRange(Pow10(i))
      {
        Pow10Grows(i, MAX_SCALE);
      }
    } else {
      assert !InRange(Pow10(19));
    }
  }

  /** The loop behind `IPow`; while no product overflows, it is the power itself. */
  method IPow10(n: nat) returns (r: Int64)
    ensures r == IPow(n)
    ensures n <= MAX_SCALE ==> r == Pow10(n)
  {
    r := 1;
    for i := 0 to n
      invariant r == IPow(i)
    {
      WrapTimes(10, Pow10(i));
      r := Wrap64(r * 10);
    }
    PowersFitIff(n);
  }

  /** Three-way comparison: the operand of smaller scale is scaled up first. */
  function Compare(a: Decimal, b: Decimal): int {
    if a.scale == b.scale then Sign(a.unscaled, b.unscaled)
    else if a.scale > b.scale then Sign(a.unscaled, Wrap64(b.unscaled * IPow(a.scale - b.scale)))
    else Sign(Wrap64(a.unscaled * IPow(b.scale - a.scale)), b.unscaled)
  }

  function Sign(m: int, n: int): int {
    if m < n then -1 else if m > n then 1 else 0
  }

  predicate Lt(a: Decimal, b: Decimal) { Compare(a, b) < 0 }
  predicate Le(a: Decimal, b: Decimal) { Compare(a, b) <= 0 }
  predicate Gt(a: Decimal, b: Decimal) { Compare(a, b) > 0 }
  predicate Ge(a: Decimal, b: Decimal) { Compare(a, b) >= 0 }

  /** `std::min`: the first argument unless the second is smaller. */
  function Min(a: Decimal, b: Decimal): Decimal {
    if Lt(b, a) then b else a
  }

  function Add(a: Decimal, b: Decimal): Decimal {
    if a.scale == b.scale then Decimal(Wrap64(a.unscaled + b.unscaled), a.scale)
    else if a.scale > b.scale then
      Decimal(Wrap64(a.unscaled + Wrap64(b.unscaled * IPow(a.scale - b.scale))), a.scale)
    else
      Decimal(Wrap64(Wrap64(a.unscaled * IPow(b.scale - a.scale)) + b.unscaled), b.scale)
  }

  function Sub(a: Decimal, b: Decimal): Decimal {
    if a.scale == b.scale then Decimal(Wrap64(a.unscaled - b.unscaled), a.scale)
    else if a.scale > b.scale then
      Decimal(Wrap64(a.unscaled - Wrap64(b.unscaled * IPow(a.scale - b.scale))), a.scale)
    else
      Decimal(Wrap64(Wrap64(a.unscaled * IPow(b.scale - a.scale)) - b.unscaled), b.scale)
  }

  function Mul(a: Decimal, b: Decimal): Decimal {
    Decimal(Wrap64(a.unscaled * b.unscaled), a.scale + b.scale)
  }

  // ----- wrap-around arithmetic is arithmetic modulo 2^64 -----

  lemma WrapPeriodic(x: int, k: int)
    ensures Wrap64(x + k * TWO_64) == Wrap64(x)
  {
    var y := x + TWO_63;
    assert (y + k * TWO_64) % TWO_64 == y % TWO_64 by {
      assert y == (y / TWO_64) * TWO_64 + y % TWO_64;
    }
  }

  lemma WrapQuotient(x: int) returns (k: int)
    ensures Wrap64(x) == x + k * TWO_64
  {
    k := -((x + TWO_63) / TWO_64);
  }

  lemma WrapPlus(x: int, y: int)
    ensures Wrap64(x + Wrap64(y)) == Wrap64(x + y)
    ensures Wrap64(x - Wrap64(y)) == Wrap64(x - y)
  {
    var k := WrapQuotient(y);
    WrapPeriodic(x + y, k);
    WrapPeriodic(x - y, -k);
  }

  lemma WrapTimes(x: int, y: int)
    ensures Wrap64(x * Wrap64(y)) == Wrap64(x * y)
    ensures Wrap64(Wrap64(y) * x) == Wrap64(x * y)
  {
    var k := WrapQuotient(y);
    assert x * (y + k * TWO_64) == x * y + (x * k) * TWO_64;
    WrapPeriodic(x * y, x * k);
    assert x * Wrap64(y) == Wrap64(y) * x;
  }

  /** The operand scaled up to a larger scale, in int64 arithmetic. */
  lemma WrapScaleUp(n: int, k: nat)
    ensures Wrap64(n * IPow(k)) == Wrap64(Shift(n, k))
  {
    WrapTimes(n, Pow10(k));
    ShiftIsPow10(n, k);
  }

  function Max(m: nat, n: nat): nat {
    if m > n then m else n
  }

  /** The unscaled number of `d` after moving it, exactly, to a larger scale. */
  function At(d: Decimal, scale: nat): int
    requires d.scale <= scale
  {
    Shift(d.unscaled, scale - d.scale)
  }

  lemma AtValue(d: Decimal, scale: nat)
    requires d.scale <= scale
    ensures ValueOf(At(d, scale), scale) == Val(d)
  {
    ValueOfShift(d.unscaled, d.scale, scale - d.scale);
  }

  lemma AddWraps(a: Decimal, b: Decimal)
    ensures var s := Max(a.scale, b.scale);
            && Add(a, b) == Decimal(Wrap64(At(a, s) + At(b, s)), s)
            && Sub(a, b) == Decimal(Wrap64(At(a, s) - At(b, s)), s)
  {
    if a.scale > b.scale {
      ScaleUpSecond(a.unscaled, b.unscaled, a.scale - b.scale);
    } else if a.scale < b.scale {
      ScaleUpFirst(a.unscaled, b.unscaled, b.scale - a.scale);
    }
  }

  lemma ScaleUpSecond(m: int, n: int, k: nat)
    ensures Wrap64(m + Wrap64(n * IPow(k))) == Wrap64(m + Shift(n, k))
    ensures Wrap64(m - Wrap64(n * IPow(k))) == Wrap64(m - Shift(n, k))
  {
    WrapScaleUp(n, k);
    WrapPlus(m, Shift(n, k));
  }

  lemma ScaleUpFirst(m: int, n: int, k: nat)
    ensures Wrap64(Wrap64(m * IPow(k)) + n) == Wrap64(Shift(m, k) + n)
    ensures Wrap64(Wrap64(m * IPow(k)) - n) == Wrap64(Shift(m, k) - n)
  {
    WrapScaleUp(m, k);
    WrapPlus(n, Shift(m, k));
    WrapPlus(-n, Shift(m, k));
  }

  /** A sum or difference is exact if and only if the aligned exact result is an int64. */
  lemma AddExactIff(a: Decimal, b: Decimal)
    ensures var s := Max(a.scale, b.scale);
            && (Val(Add(a, b)) == Val(a) + Val(b) <==> InRange(At(a, s) + At(b, s)))
            && (Val(Sub(a, b)) == Val(a) - Val(b) <==> InRange(At(a, s) - At(b, s)))
  {
    var s := Max(a.scale, b.scale);
    var x, y := At(a, s), At(b, s);
    AddWraps(a, b);
    AtValue(a, s);
    AtValue(b, s);
    ValueOfLinear(x, y, s);
    ValueOfLinear(y, x, s);
    ValueOfLinear(x, -y, s);
    ValueOfLinear(Wrap64(x + y), x + y, s);
    ValueOfLinear(Wrap64(x - y), x - y, s);
  }

  /** A product is exact if and only if the product of the unscaled numbers is an int64. */
  lemma MulExactIff(a: Decimal, b: Decimal)
    ensures Val(Mul(a, b)) == Val(a) * Val(b) <==> InRange(a.unscaled * b.unscaled)
  {
    ValueOfProduct(a.unscaled, a.scale, b.unscaled, b.scale);
    ValueOfLinear(Wrap64(a.unscaled * b.unscaled), a.unscaled * b.unscaled, a.scale + b.scale);
  }

  lemma {:induction false} ValueOfProduct(m: int, j: nat, n: int, k: nat)
    ensures ValueOf(m * n, j + k) == ValueOf(m, j) * ValueOf(n, k)
  {
    if k > 0 {
      ValueOfProduct(m, j, n, k - 1);
      var x, y := ValueOf(m, j), ValueOf(n, k - 1);
      assert (x * y) / 10.0 == x * (y / 10.0);
    } else if j > 0 {
      ValueOfProduct(m, j - 1, n, 0);
      var x, y := ValueOf(m, j - 1), ValueOf(n, 0);
      assert (x * y) / 10.0 == (x / 10.0) * y;
    } else {
      assert (m * n) as real == m as real * n as real;
    }
  }

  // ----- the same operations where no intermediate result overflows -----

  /** Scaling `n` up by 10^k: the power, on the way to it and itself, and the product are int64s. */
  ghost predicate ScalesInRange(n: int, k: nat) {
    PowersInRange(k) && InRange(Shift(n, k))
  }

  /** Both operands at the larger scale. */
  ghost predicate CompareInRange(a: Decimal, b: Decimal) {
    var t := Max(a.scale, b.scale);
    ScalesInRange(a.unscaled, t - a.scale) && ScalesInRange(b.unscaled, t - b.scale)
  }

  ghost predicate AddInRange(a: Decimal, b: Decimal) {
    var t := Max(a.scale, b.scale);
    CompareInRange(a, b) && InRange(At(a, t) + At(b, t))
  }

  ghost predicate SubInRange(a: Decimal, b: Decimal) {
    var t := Max(a.scale, b.scale);
    CompareInRange(a, b) && InRange(At(a, t) - At(b, t))
  }

  // The matcher uses these: a call is allowed only where nothing overflows.

  function SafeAdd(a: Decimal, b: Decimal): (r: Decimal)
    requires AddInRange(a, b)
  {
    Add(a, b)
  }

  function SafeSub(a: Decimal, b: Decimal): (r: Decimal)
    requires SubInRange(a, b)
  {
    Sub(a, b)
  }

  predicate Below(a: Decimal, b: Decimal)
    requires CompareInRange(a, b)
  {
    Lt(a, b)
  }

  predicate AtMost(a: Decimal, b: Decimal)
    requires CompareInRange(a, b)
  {
    Le(a, b)
  }

  predicate Above(a: Decimal, b: Decimal)
    requires CompareInRange(a, b)
  {
    Gt(a, b)
  }

  predicate AtLeast(a: Decimal, b: Decimal)
    requires CompareInRange(a, b)
  {
    Ge(a, b)
  }

  function Smaller(a: Decimal, b: Decimal): Decimal
    requires CompareInRange(b, a)
  {
    Min(a, b)
  }

  // ----- the bound under which every operation of the matcher is exact -----

  /** 2^63 units of 10^-scale: the first value that no longer fits. */
  ghost function Cap(scale: nat): real {
    ValueOf(TWO_63, scale)
  }

  /** `d` has scale at most `s`, itself at most 18, and its magnitude stays below 2^63 when moved to scale `s`. */
  ghost predicate Fits(d: Decimal, s: nat) {
    d.scale <= s <= MAX_SCALE && -Cap(s) < Val(d) < Cap(s)
  }

  lemma FitsAt(d: Decimal, s: nat, t: nat)
    requires Fits(d, s) && d.scale <= t <= s
    ensures -TWO_63 < At(d, t) < TWO_63
  {
    var x := At(d, t);
    AtValue(d, t);
    ValueOfShift(x, t, s - t);
    var y := Shift(x, s - t);
    ValueOfLinear(y, TWO_63, s);
    ValueOfLinear(-TWO_63, y, s);
    ValueOfLinear(TWO_63, 0, s);
    ShiftMonotone(x, 0, s - t);
    ShiftMonotone(0, x, s - t);
    ShiftAdd(x, 0, s - t);
    ShiftMonotone(-x, 0, s - t);
  }

  /** Comparison orders decimals as their numbers are ordered. */
  lemma CompareExact(a: Decimal, b: Decimal, s: nat)
    requires Fits(a, s) && Fits(b, s)
    ensures Lt(a, b) <==> Val(a) < Val(b)
    ensures Le(a, b) <==> Val(a) <= Val(b)
    ensures Gt(a, b) <==> Val(a) > Val(b)
    ensures Ge(a, b) <==> Val(a) >= Val(b)
    ensures CompareInRange(a, b) && CompareInRange(b, a)
  {
    PowersFitIff(a.scale);
    PowersFitIff(b.scale);
    var t := Max(a.scale, b.scale);
    var x, y := At(a, t), At(b, t);
    FitsAt(a, s, t);
    FitsAt(b, s, t);
    WrapScaleUp(a.unscaled, t - a.scale);
    WrapScaleUp(b.unscaled, t - b.scale);
    AtValue(a, t);
    AtValue(b, t);
    ValueOfLinear(x, y, t);
    ValueOfLinear(y, x, t);
    assert Compare(a, b) == Sign(x, y);
  }

  lemma AddExact(a: Decimal, b: Decimal, s: nat)
    requires Fits(a, s) && Fits(b, s) && -Cap(s) < Val(a) + Val(b) < Cap(s)
    ensures Fits(Add(a, b), s) && Val(Add(a, b)) == Val(a) + Val(b) && AddInRange(a, b)
  {
    CompareExact(a, b, s);
    var t := Max(a.scale, b.scale);
    AddWraps(a, b);
    AlignedSum(a, b, t, At(a, t) + At(b, t), s);
    AddExactIff(a, b);
  }

  lemma SubExact(a: Decimal, b: Decimal, s: nat)
    requires Fits(a, s) && Fits(b, s) && -Cap(s) < Val(a) - Val(b) < Cap(s)
    ensures Fits(Sub(a, b), s) && Val(Sub(a, b)) == Val(a) - Val(b) && SubInRange(a, b)
  {
    CompareExact(a, b, s);
    var t := Max(a.scale, b.scale);
    AddWraps(a, b);
    AtValue(a, t);
    AtValue(b, t);
    var x, y := At(a, t), At(b, t);
    ValueOfLinear(x, -y, t);
    ValueOfLinear(y, x, t);
    SmallFits(x - y, t, s);
    AddExactIff(a, b);
  }

  lemma AlignedSum(a: Decimal, b: Decimal, t: nat, n: int, s: nat)
    requires t == Max(a.scale, b.scale) <= s && n == At(a, t) + At(b, t)
    requires -Cap(s) < Val(a) + Val(b) < Cap(s)
    ensures InRange(n)
  {
    AtValue(a, t);
    AtValue(b, t);
    ValueOfLinear(At(a, t), At(b, t), t);
    SmallFits(n, t, s);
  }

  /** A number of scale `t` below the cap of a larger scale `s` is an int64. */
  lemma SmallFits(n: int, t: nat, s: nat)
    requires t <= s && -Cap(s) < ValueOf(n, t) < Cap(s)
    ensures InRange(n)
  {
    ValueOfShift(n, t, s - t);
    var y := Shift(n, s - t);
    ValueOfLinear(y, TWO_63, s);
    ValueOfLinear(-TWO_63, y, s);
    ValueOfLinear(TWO_63, 0, s);
    ShiftMonotone(n, 0, s - t);
    ShiftMonotone(0, n, s - t);
    ShiftAdd(n, 0, s - t);
    ShiftMonotone(-n, 0, s - t);
  }

  lemma ZeroFits(s: Scale)
    ensures Val(ZERO) == 0.0 && Fits(ZERO, s) && Cap(s) > 0.0
  {
    ValueOfLinear(0, TWO_63, s);
    ValueOfZero(s);
  }

  lemma {:induction false} ValueOfZero(s: nat)
    ensures ValueOf(0, s) == 0.0
  {
    if s > 0 {
      ValueOfZero(s - 1);
    }
  }

  /** Outside the bound the operations are wrong: 2^63 - 1 units plus one unit is negative. */
  lemma OverflowBreaksAdd()
    ensures var a, b := Decimal(TWO_63 - 1, 18), Decimal(1, 18);
            Val(Add(a, b)) < 0.0 < Val(a) && 0.0 < Val(b)
  {
    ValueOfZero(18);
    ValueOfLinear(-TWO_63, 0, 18);
    ValueOfLinear(0, TWO_63 - 1, 18);
    ValueOfLinear(0, 1, 18);
  }
}
