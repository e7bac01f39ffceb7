/** Division as the server does it: truncated 18 decimals past those of the dividend. When it is exact, and how far off it can be. */
module Margins {
  import opened Digits
  import opened Decimals
  import opened DecimalText
  import opened Bigs

  /** One unit of the last decimal that every quotient keeps. */
  ghost const DUST: real := ValueOf(1, DIV_SCALE)

  lemma DustPositive()
    ensures DUST > 0.0
  {
    ValueOfZero(DIV_SCALE);
    ValueOfLinear(0, 1, DIV_SCALE);
  }

  // ----- numbers with finitely many decimals -----

  /** `x` has at most `k` decimals. */
  ghost predicate WholeAt(x: real, k: nat) {
    exists n: int :: x == ValueOf(n, k)
  }

  ghost predicate IsDecimal(x: real) {
    exists k: nat :: WholeAt(x, k)
  }

  lemma WholeLater(x: real, k: nat)
    requires WholeAt(x, k)
    ensures WholeAt(x, k + 1)
  {
    var n: int :| x == ValueOf(n, k);
    ValueOfShift(n, k, 1);
    assert Shift(n, 1) == 10 * Shift(n, 0) == 10 * n;
    assert x == ValueOf(10 * n, k + 1);
  }

  ghost function LeastFrom(x: real, k: nat): (d: nat)
    requires WholeAt(x, k)
    ensures d <= k && WholeAt(x, d) && (d > 0 ==> !WholeAt(x, d - 1))
  {
    if k > 0 && WholeAt(x, k - 1) then LeastFrom(x, k - 1) else k
  }

  /** How many decimals a number has, trailing zeros not counted. */
  ghost function DecimalsOf(x: real): (d: nat)
    requires IsDecimal(x)
    ensures WholeAt(x, d) && (d > 0 ==> !WholeAt(x, d - 1))
  {
    var k: nat :| WholeAt(x, k);
    LeastFrom(x, k)
  }

  lemma {:induction false} WholeUpTo(x: real, d: nat, k: nat)
    requires WholeAt(x, d) && d <= k
    ensures WholeAt(x, k)
    decreases k
  {
    if d < k {
      WholeUpTo(x, d, k - 1);
      WholeLater(x, k - 1);
    }
  }

  lemma DecimalsUnique(x: real, d: nat)
    requires WholeAt(x, d) && (d > 0 ==> !WholeAt(x, d - 1))
    ensures IsDecimal(x) && DecimalsOf(x) == d
  {
    var e := DecimalsOf(x);
    if e < d {
      WholeUpTo(x, e, d - 1);
    } else if d < e {
      WholeUpTo(x, d, e - 1);
    }
  }

  lemma LastDecimalCounts(n: int, d: nat, m: int)
    requires d > 0 && n % 10 != 0
    ensures ValueOf(n, d) != ValueOf(m, d - 1)
  {
    ValueOfShift(m, d - 1, 1);
    assert Shift(m, 1) == 10 * Shift(m, 0) == 10 * m;
    ValueOfLinear(10 * m, n, d);
  }

  /** The decimals of a `Big` in normal form are those of its number. */
  lemma DecimalsOfBig(b: Big)
    requires b.decimals == 0 || b.value % 10 != 0
    ensures IsDecimal(BVal(b)) && DecimalsOf(BVal(b)) == b.decimals
  {
    var n, d := SignedValue(b), b.decimals;
    assert WholeAt(BVal(b), d);
    if d > 0 {
      var e := d - 1;
      forall m: int
        ensures BVal(b) != ValueOf(m, e)
      {
        LastDecimalCounts(n, d, m);
      }
    }
    DecimalsUnique(BVal(b), d);
  }

  // ----- truncation -----

  /** x * 10^k. */
  ghost function Scaled(x: real, k: nat): real
    decreases k
  {
    if k == 0 then x else 10.0 * Scaled(x, k - 1)
  }

  lemma {:induction false} ScaledValue(x: real, n: int, k: nat)
    ensures Scaled(x, k) == n as real <==> x == ValueOf(n, k)
    ensures Scaled(x, k) < n as real <==> x < ValueOf(n, k)
    decreases k
  {
    if k > 0 {
      ScaledTenth(x, k);
      ScaledValue(10.0 * x, n, k - 1);
    }
  }

  lemma {:induction false} ScaledTenth(x: real, k: nat)
    requires k > 0
    ensures Scaled(x, k) == Scaled(10.0 * x, k - 1)
    decreases k
  {
    if k > 1 {
      ScaledTenth(x, k - 1);
    }
  }

  /** `x` cut off after `k` decimals. */
  ghost function Truncated(x: real, k: nat): real
    requires x >= 0.0
  {
    ValueOf(Scaled(x, k).Floor, k)
  }

  lemma TruncatedBounds(x: real, k: nat)
    requires x >= 0.0
    ensures 0.0 <= Truncated(x, k) <= x < Truncated(x, k) + ValueOf(1, k)
    ensures Truncated(x, k) == x <==> WholeAt(x, k)
  {
    var n := Scaled(x, k).Floor;
    ScaledValue(x, n, k);
    ScaledValue(x, n + 1, k);
    ScaledValue(x, 0, k);
    ValueOfLinear(n, 1, k);
    ValueOfLinear(n, 0, k);
    ValueOfZero(k);
    if WholeAt(x, k) {
      var m: int :| x == ValueOf(m, k);
      ScaledValue(x, m, k);
    }
  }

  lemma TruncatedIs(x: real, q: nat, k: nat)
    requires ValueOf(q, k) <= x < ValueOf(q + 1, k)
    ensures x >= 0.0 && Truncated(x, k) == ValueOf(q, k)
  {
    ValueOfZero(k);
    ValueOfLinear(q, 0, k);
    ScaledValue(x, q, k);
    ScaledValue(x, q + 1, k);
  }

  lemma {:induction false} UnitShrinks(j: nat, k: nat)
    requires j <= k
    ensures 0.0 < ValueOf(1, k) <= ValueOf(1, j)
    decreases k
  {
    if j < k {
      UnitShrinks(j, k - 1);
    } else {
      ValueOfZero(k);
      ValueOfLinear(0, 1, k);
    }
  }

  // ----- the server's quotient -----

  /** Only decimals and positive leverage occur; elsewhere the exact quotient stands in. */
  ghost function Quotient(cost: real, leverage: real): real {
    if leverage == 0.0 then 0.0
    else if cost < 0.0 || leverage < 0.0 || !IsDecimal(cost) then cost / leverage
    else QuotientNonneg(cost, leverage); Truncated(cost / leverage, DecimalsOf(cost) + DIV_SCALE)
  }

  lemma QuotientNonneg(n: real, d: real)
    requires n >= 0.0 && d > 0.0
    ensures n / d >= 0.0
  {
  }

  /** The quotient is at most the exact one, and less than one unit of the 18th decimal below it. */
  lemma QuotientBounds(cost: real, leverage: real)
    requires cost >= 0.0 && leverage > 0.0
    ensures 0.0 <= Quotient(cost, leverage) <= cost / leverage < Quotient(cost, leverage) + DUST
  {
    QuotientNonneg(cost, leverage);
    DustPositive();
    if IsDecimal(cost) {
      var k := DecimalsOf(cost) + DIV_SCALE;
      TruncatedBounds(cost / leverage, k);
      UnitShrinks(DIV_SCALE, k);
    }
  }

  /** It is exact if and only if the exact quotient has at most 18 decimals more than the cost. */
  lemma QuotientExactIff(cost: real, leverage: real)
    requires cost >= 0.0 && leverage > 0.0 && IsDecimal(cost)
    ensures Quotient(cost, leverage) == cost / leverage <==> WholeAt(cost / leverage, DecimalsOf(cost) + DIV_SCALE)
  {
    QuotientNonneg(cost, leverage);
    TruncatedBounds(cost / leverage, DecimalsOf(cost) + DIV_SCALE);
  }

  /** Leverage whose reciprocal has at most 18 decimals: 1, 2, 4, 5, 8, 10, 20, 25, 50 and so on, but not 3. */
  ghost predicate ExactLeverage(leverage: real) {
    leverage > 0.0 && WholeAt(1.0 / leverage, DIV_SCALE)
  }

  lemma TimesReciprocal(cost: real, leverage: real)
    requires leverage != 0.0
    ensures cost / leverage == cost * (1.0 / leverage)
  {
    var r := 1.0 / leverage;
    assert r * leverage == 1.0;
    assert cost * r * leverage == cost;
  }

  lemma WholeTimes(x: real, j: nat, y: real, k: nat)
    requires WholeAt(x, j) && WholeAt(y, k)
    ensures WholeAt(x * y, j + k)
  {
    var m: int :| x == ValueOf(m, j);
    var n: int :| y == ValueOf(n, k);
    ValueOfProduct(m, j, n, k);
    assert x * y == ValueOf(m * n, j + k);
  }

  /** With such a leverage, known before any order is placed, every margin is exact. */
  lemma ExactLeverageSuffices(cost: real, leverage: real)
    requires cost >= 0.0 && ExactLeverage(leverage)
    ensures Quotient(cost, leverage) == cost / leverage
  {
    if IsDecimal(cost) {
      TimesReciprocal(cost, leverage);
      WholeTimes(cost, DecimalsOf(cost), 1.0 / leverage, DIV_SCALE);
      QuotientExactIff(cost, leverage);
    }
  }

  lemma WholeIntegers(n: int, k: nat)
    ensures WholeAt(n as real, k)
  {
    assert n as real == ValueOf(n, 0);
    WholeUpTo(n as real, 0, k);
  }

  /** And no other leverage makes every margin exact. */
  lemma ExactLeverageIff(leverage: real)
    requires leverage > 0.0
    ensures ExactLeverage(leverage) <==> forall cost: real | cost >= 0.0 && IsDecimal(cost) :: Quotient(cost, leverage) == cost / leverage
  {
    if ExactLeverage(leverage) {
      forall cost: real | cost >= 0.0 && IsDecimal(cost)
        ensures Quotient(cost, leverage) == cost / leverage
      {
        ExactLeverageSuffices(cost, leverage);
      }
    } else {
      WholeIntegers(1, 0);
      DecimalsUnique(1.0, 0);
      QuotientExactIff(1.0, leverage);
    }
  }

  lemma LeverageOne()
    ensures ExactLeverage(1.0)
  {
    WholeIntegers(1, DIV_SCALE);
  }

  /** A third of one is cut off after 18 decimals. */
  lemma LeverageThree()
    ensures !ExactLeverage(3.0)
    ensures Quotient(1.0, 3.0) == ValueOf(333_333_333_333_333_333, 18)
    ensures Quotient(0.5, 3.0) == ValueOf(1_666_666_666_666_666_666, 19)
  {
    DigitsOfThird();
    WholeIntegers(1, 0);
    DecimalsUnique(1.0, 0);
    TruncatedIs(1.0 / 3.0, 333_333_333_333_333_333, 18);
    TruncatedBounds(1.0 / 3.0, 18);
    HalfDecimals();
    TruncatedIs(0.5 / 3.0, 1_666_666_666_666_666_666, 19);
  }

  lemma {:induction false} ScaledIsPow10(x: real, k: nat)
    ensures Scaled(x, k) == Pow10(k) as real * x
    decreases k
  {
    if k > 0 {
      ScaledIsPow10(x, k - 1);
    }
  }

  lemma Scaled18(x: real)
    ensures Scaled(x, 18) == 1_000_000_000_000_000_000.0 * x
    ensures Scaled(x, 19) == 10_000_000_000_000_000_000.0 * x
  {
    Pow10At18();
    ScaledIsPow10(x, 18);
  }

  lemma DigitsOfThird()
    ensures ValueOf(333_333_333_333_333_333, 18) < 1.0 / 3.0 < ValueOf(333_333_333_333_333_334, 18)
    ensures ValueOf(1_666_666_666_666_666_666, 19) < 0.5 / 3.0 < ValueOf(1_666_666_666_666_666_667, 19)
  {
    Scaled18(1.0 / 3.0);
    Scaled18(0.5 / 3.0);
    ScaledValue(1.0 / 3.0, 333_333_333_333_333_333, 18);
    ScaledValue(1.0 / 3.0, 333_333_333_333_333_334, 18);
    ScaledValue(0.5 / 3.0, 1_666_666_666_666_666_666, 19);
    ScaledValue(0.5 / 3.0, 1_666_666_666_666_666_667, 19);
  }

  lemma HalfDecimals()
    ensures IsDecimal(0.5) && DecimalsOf(0.5) == 1
  {
    assert 0.5 == ValueOf(5, 1);
    forall n: int
      ensures 0.5 != ValueOf(n, 0)
    {
      LastDecimalCounts(5, 1, n);
    }
    DecimalsUnique(0.5, 1);
  }

  // ----- it is what the server computes -----

  /** `D(mul(price, quantity)).div(leverage)`, read as a number, is the quotient of the cost by the leverage. */
  lemma QuotientIsDiv(price: Big, quantity: Big, leverage: Big)
    requires !price.negative && !quantity.negative && !leverage.negative && leverage.value != 0
    ensures Div(Times(price, quantity), leverage).Some?
    ensures BVal(Div(Times(price, quantity), leverage).value) == Quotient(BVal(price) * BVal(quantity), BVal(leverage))
  {
    hide Div, Times, BVal, ValueOf, DecimalsOf, Truncated, IsDecimal;
    var x, y := Times(price, quantity), leverage;
    TimesExact(price, quantity);
    TimesNormal(price, quantity);
    DecimalsOfBig(x);
    DivTruncates(x, y);
    BValSigned(x);
    BValSigned(y);
    var q: nat :| TruncatedQuotient(q, x, y) && BVal(Div(x, y).value) == QuotientValue(q, x);
    DivideBounds(QuotientValue(q, x), QuotientValue(q + 1, x), BVal(x), BVal(y));
    TruncatedIs(BVal(x) / BVal(y), q, x.decimals + DIV_SCALE);
    QuotientOf(BVal(x), BVal(y));
  }

  lemma QuotientOf(cost: real, leverage: real)
    requires cost >= 0.0 && leverage > 0.0 && IsDecimal(cost) && cost / leverage >= 0.0
    ensures Quotient(cost, leverage) == Truncated(cost / leverage, DecimalsOf(cost) + DIV_SCALE)
  {
  }

  lemma TimesNormal(x: Big, y: Big)
    requires !x.negative && !y.negative
    ensures var r := Times(x, y); !r.negative && (r.decimals == 0 || r.value % 10 != 0)
  {
    hide FromScaled;
    FromScaledNorm(Product(x, y), x.decimals + y.decimals);
    NormIsNormal(Product(x, y), x.decimals + y.decimals);
  }

  lemma DivideBounds(low: real, high: real, x: real, y: real)
    requires y > 0.0 && low * y <= x < high * y
    ensures low <= x / y < high
  {
    var z := x / y;
    assert z * y == x;
    ProductReflects(low, z, y);
    ProductReflects(z, high, y);
  }
}
