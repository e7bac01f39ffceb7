/** The server's arbitrary-precision decimal: sign, digits, and a count of decimals. */
module Bigs {
  import opened Digits
  import opened Decimals
  import opened DecimalText
  import opened Orders

  datatype Big = Big(value: nat, decimals: nat, negative: bool)

  const DIV_SCALE := 18

  /** The number a `Big` stands for; its sign is irrelevant when it is zero. */
  ghost function BVal(b: Big): real {
    ValueOf(SignedValue(b), b.decimals)
  }

  function SignedValue(b: Big): int {
    if b.negative then 0 - b.value else b.value
  }

  // ----- text -----

  /** Plain decimal text: neither scientific notation nor blanks. */
  predicate Readable(s: string) {
    forall c | c in s :: c !in "eE \t\n\r"
  }

  /** Whatever is not a digit is dropped. */
  function OnlyDigits(s: string): (d: string)
    ensures AllDigits(d) && (AllDigits(s) ==> d == s)
  {
    if s == [] then [] else if IsDigit(s[0]) then [s[0]] + OnlyDigits(s[1..]) else OnlyDigits(s[1..])
  }

  /** Sign, the text before the first point, and the text between the first and a second. */
  function FromText(s: string): Big
    requires Readable(s)
  {
    var t := if s == "" then "0" else s;
    var u := Unsigned(t);
    var rest := if Dot(u) < |u| then u[Dot(u) + 1..] else "";
    var i, f := OnlyDigits(u[..Dot(u)]), OnlyDigits(rest[..Dot(rest)]);
    var value := FromDigits((if i == "" then "0" else i) + f);
    Big(value, |f|, t[0] == '-' && value != 0)
  }

  function ToText(b: Big): string {
    var p := PadTo(ToDigits(b.value), b.decimals);
    Signed(b.negative, Join(p[..|p| - b.decimals], p[|p| - b.decimals..]))
  }

  lemma DigitsReadable(neg: bool, i: string, f: string)
    requires AllDigits(i) && AllDigits(f)
    ensures Readable(Signed(neg, Join(i, f)))
  {
  }

  lemma FromTextParts(neg: bool, i: string, f: string)
    requires i != [] && AllDigits(i) && AllDigits(f)
    ensures AllDigits(i + f) && Readable(Signed(neg, Join(i, f)))
    ensures FromText(Signed(neg, Join(i, f))) == Big(FromDigits(i + f), |f|, neg && FromDigits(i + f) != 0)
  {
    DigitsReadable(neg, i, f);
    hide FromDigits, Readable;
    var body := Join(i, f);
    var s := Signed(neg, body);
    assert Unsigned(s) == body && (s[0] == '-' <==> neg) by {
      assert body[0] == i[0] && IsDigit(i[0]);
    }
    DotOfJoin(i, f);
    DotOfJoin(f, []);
  }

  /** Reading back what is printed gives the same `Big`, except that zero loses its sign. */
  lemma TextRoundTrip(b: Big)
    ensures Readable(ToText(b)) && FromText(ToText(b)) == b.(negative := b.negative && b.value != 0)
    ensures BVal(FromText(ToText(b))) == BVal(b)
  {
    var p := PadTo(ToDigits(b.value), b.decimals);
    var i, f := p[..|p| - b.decimals], p[|p| - b.decimals..];
    PaddedDenotes(b.value, b.decimals);
    assert p == i + f;
    PartsOfDigits(i, f);
    FromTextParts(b.negative, i, f);
  }

  // ----- arithmetic -----

  /** Both values at the larger number of decimals. */
  function SameScale(x: Big, y: Big): (nat, nat, nat) {
    var scale := Max(x.decimals, y.decimals);
    (x.value * Pow10(scale - x.decimals), y.value * Pow10(scale - y.decimals), scale)
  }

  /** A scaled integer, by way of its text without trailing zeros. */
  function FromScaled(v: int, scale: nat): Big {
    var body := Body(Magnitude(v), scale);
    BodyReadable(Magnitude(v), scale);
    FromText(body).(negative := v < 0)
  }

  lemma BodyReadable(n: nat, scale: nat)
    ensures Readable(Body(n, scale))
  {
    var i, f := BodyDenotes(n, scale);
    PartsOfDigits(i, f);
    DigitsReadable(false, i, f);
  }

  function Plus(x: Big, y: Big): Big {
    var (a, b, scale) := SameScale(x, y);
    FromScaled((if x.negative then 0 - a else a) + (if y.negative then 0 - b else b), scale)
  }

  function Minus(x: Big, y: Big): Big {
    var (a, b, scale) := SameScale(x, y);
    FromScaled((if x.negative then 0 - a else a) - (if y.negative then 0 - b else b), scale)
  }

  function Product(x: Big, y: Big): nat {
    x.value * y.value
  }

  function Times(x: Big, y: Big): Big {
    var out := FromScaled(Product(x, y), x.decimals + y.decimals);
    if x.negative != y.negative then out.(negative := true) else out
  }

  function Quotient(x: Big, y: Big): nat
    requires y.value != 0
  {
    var numerator := x.value * Pow10(DIV_SCALE + y.decimals);
    numerator / y.value
  }

  /** Nothing for a zero divisor, where the original throws. */
  function Div(x: Big, y: Big): Option<Big> {
    if y.value == 0 then None
    else
      var out := FromScaled(Quotient(x, y), x.decimals + DIV_SCALE);
      Some(if x.negative != y.negative then out.(negative := true) else out)
  }

  predicate Eq(x: Big, y: Big) {
    var (a, b, _) := SameScale(x, y);
    a == b && x.negative == y.negative
  }

  predicate Gt(x: Big, y: Big) {
    var (a, b, _) := SameScale(x, y);
    (if x.negative then 0 - a else a) > (if y.negative then 0 - b else b)
  }

  predicate Gte(x: Big, y: Big) { Eq(x, y) || Gt(x, y) }
  predicate Lt(x: Big, y: Big) { !Gte(x, y) }
  predicate Lte(x: Big, y: Big) { !Gt(x, y) }

  // ----- exactness -----

  /** Going through text changes no digit that matters: the result is the normal form of the scaled integer. */
  lemma FromScaledNorm(v: int, scale: nat)
    ensures var (m, k) := Norm(Magnitude(v), scale);
            m >= 0 && k <= scale && FromScaled(v, scale) == Big(m, k, v < 0)
  {
    var n := Magnitude(v);
    var i, f := BodyDenotes(n, scale);
    PartsOfDigits(i, f);
    hide Body, Norm, FromText, FromDigits, Join;
    assert Signed(false, Join(i, f)) == Join(i, f);
    FromTextParts(false, i, f);
  }

  lemma FromScaledValue(v: int, scale: nat)
    ensures BVal(FromScaled(v, scale)) == ValueOf(v, scale)
    ensures BVal(FromScaled(v, scale).(negative := true)) == 0.0 - ValueOf(Magnitude(v), scale)
    ensures FromScaled(v, scale).decimals <= scale && FromScaled(v, scale).negative == (v < 0)
  {
    var n := Magnitude(v);
    FromScaledNorm(v, scale);
    NormIsNormal(n, scale);
    var (m, k) := Norm(n, scale);
    hide FromScaled, Norm, ValueOf, Shift;
    ValueOfLinear(m, 0, k);
    ValueOfLinear(n, 0, scale);
  }

  lemma ScaledUp(x: Big, scale: nat)
    requires x.decimals <= scale
    ensures ValueOf(if x.negative then 0 - x.value * Pow10(scale - x.decimals) else x.value * Pow10(scale - x.decimals), scale)
         == BVal(x)
  {
    var k := scale - x.decimals;
    ShiftIsPow10(x.value, k);
    ShiftAdd(x.value, 0, k);
    ValueOfShift(SignedValue(x), x.decimals, k);
  }

  lemma SumsExact(x: Big, y: Big)
    ensures BVal(Plus(x, y)) == BVal(x) + BVal(y)
    ensures BVal(Minus(x, y)) == BVal(x) - BVal(y)
  {
    hide FromScaled, ValueOf, Pow10, BVal;
    var (a, b, scale) := SameScale(x, y);
    var m, n := if x.negative then 0 - a else a, if y.negative then 0 - b else b;
    ScaledUp(x, scale);
    ScaledUp(y, scale);
    FromScaledValue(m + n, scale);
    FromScaledValue(m - n, scale);
    ValueOfLinear(m, n, scale);
    ValueOfLinear(n, 0, scale);
    ValueOfLinear(m, 0 - n, scale);
  }

  lemma BValSigned(b: Big)
    ensures BVal(b) == if b.negative then 0.0 - ValueOf(b.value, b.decimals) else ValueOf(b.value, b.decimals)
    ensures ValueOf(b.value, b.decimals) >= 0.0 && (ValueOf(b.value, b.decimals) == 0.0 <==> b.value == 0)
  {
    ValueOfZero(b.decimals);
    ValueOfLinear(b.value, 0, b.decimals);
    ValueOfLinear(0, b.value, b.decimals);
  }

  lemma SignedProduct(x: real, y: real, v: real, w: real, nv: bool, nw: bool)
    requires x == (if nv then 0.0 - v else v) && y == (if nw then 0.0 - w else w)
    ensures x * y == if nv != nw then 0.0 - v * w else v * w
  {
    assert (0.0 - v) * w == 0.0 - v * w && v * (0.0 - w) == 0.0 - v * w;
    assert (0.0 - v) * (0.0 - w) == v * w;
  }

  lemma TimesValue(x: Big, y: Big)
    ensures BVal(Times(x, y)) == if x.negative != y.negative then 0.0 - ValueOf(Product(x, y), x.decimals + y.decimals)
                                 else ValueOf(Product(x, y), x.decimals + y.decimals)
  {
    hide FromScaled, ValueOf, BVal, Product, Norm, Shift, Pow10;
    FromScaledValue(Product(x, y), x.decimals + y.decimals);
  }

  lemma ProductValue(x: Big, y: Big)
    ensures ValueOf(Product(x, y), x.decimals + y.decimals) == ValueOf(x.value, x.decimals) * ValueOf(y.value, y.decimals)
  {
    ValueOfProduct(x.value, x.decimals, y.value, y.decimals);
  }

  lemma TimesExact(x: Big, y: Big)
    ensures BVal(Times(x, y)) == BVal(x) * BVal(y)
  {
    hide *;
    ProductValue(x, y);
    TimesValue(x, y);
    BValSigned(x);
    BValSigned(y);
    SignedProduct(BVal(x), BVal(y), ValueOf(x.value, x.decimals), ValueOf(y.value, y.decimals), x.negative, y.negative);
  }

  /** `q` is the largest multiple of 10^-(18 + the decimals of x) that is at most |x| / |y|. */
  ghost predicate TruncatedQuotient(q: nat, x: Big, y: Big) {
    QuotientValue(q, x) * ValueOf(y.value, y.decimals) <= ValueOf(x.value, x.decimals)
      < QuotientValue(q + 1, x) * ValueOf(y.value, y.decimals)
  }

  ghost function QuotientValue(q: nat, x: Big): real {
    ValueOf(q, x.decimals + DIV_SCALE)
  }

  /** Division truncates the exact quotient toward zero, 18 decimals past those of the dividend. */
  lemma DivTruncates(x: Big, y: Big)
    ensures Div(x, y).None? <==> BVal(y) == 0.0
    ensures Div(x, y).Some? ==>
              exists q: nat :: TruncatedQuotient(q, x, y)
                && BVal(Div(x, y).value) == if x.negative != y.negative then 0.0 - QuotientValue(q, x) else QuotientValue(q, x)
  {
    BValSigned(y);
    hide FromScaled, ValueOf, BVal, TruncatedQuotient, Quotient;
    if y.value != 0 {
      QuotientTruncates(x, y);
      FromScaledValue(Quotient(x, y), x.decimals + DIV_SCALE);
      assert TruncatedQuotient(Quotient(x, y), x, y);
    }
  }

  lemma QuotientTruncates(x: Big, y: Big)
    requires y.value != 0
    ensures TruncatedQuotient(Quotient(x, y), x, y)
  {
    hide ValueOf, Pow10, Shift, Quotient;
    var k, q := DIV_SCALE + y.decimals, Quotient(x, y);
    QuotientBounds(x, y);
    ValueOfShift(x.value, x.decimals, k);
    ValueOfProduct(q, x.decimals + DIV_SCALE, y.value, y.decimals);
    ValueOfProduct(q + 1, x.decimals + DIV_SCALE, y.value, y.decimals);
    BoundsCarry(Shift(x.value, k), q * y.value, (q + 1) * y.value, x.decimals + k);
  }

  lemma QuotientBounds(x: Big, y: Big)
    requires y.value != 0
    ensures Quotient(x, y) * y.value <= Shift(x.value, DIV_SCALE + y.decimals) < (Quotient(x, y) + 1) * y.value
  {
    hide Pow10, Shift;
    ShiftIsPow10(x.value, DIV_SCALE + y.decimals);
    FloorBounds(x.value * Pow10(DIV_SCALE + y.decimals), y.value, Quotient(x, y));
  }

  lemma BoundsCarry(n: int, low: int, high: int, scale: nat)
    requires low <= n < high
    ensures ValueOf(low, scale) <= ValueOf(n, scale) < ValueOf(high, scale)
  {
    ValueOfLinear(n, low, scale);
    ValueOfLinear(n, high, scale);
  }

  lemma ProductReflects(a: real, b: real, n: real)
    requires n > 0.0
    ensures a * n <= b * n ==> a <= b
    ensures a * n < b * n ==> a < b
  {
    if a > b {
      assert (a - b) * n > 0.0;
    }
  }

  lemma FloorBounds(n: nat, d: nat, q: nat)
    requires d > 0 && q == n / d
    ensures q * d <= n < (q + 1) * d
  {
    assert n == q * d + n % d;
  }

  // ----- comparisons -----

  /**
   * `gt` and `lte` compare the numbers. `eq`, and with it `gte` and `lt`, do so exactly when the operands are not
   * zeros of different sign, which a product or quotient of zero can produce.
   */
  lemma ComparisonsExactIff(x: Big, y: Big)
    ensures Gt(x, y) <==> BVal(x) > BVal(y)
    ensures Lte(x, y) <==> BVal(x) <= BVal(y)
    ensures Gte(x, y) <==> BVal(x) >= BVal(y) && !(x.value == 0 && y.value == 0 && x.negative != y.negative)
    ensures Lt(x, y) <==> BVal(x) < BVal(y) || (x.value == 0 && y.value == 0 && x.negative != y.negative)
  {
    var (a, b, scale) := SameScale(x, y);
    var m, n := if x.negative then 0 - a else a, if y.negative then 0 - b else b;
    ScaledUp(x, scale);
    ScaledUp(y, scale);
    ValueOfLinear(m, n, scale);
    ValueOfLinear(n, m, scale);
    ProductZero(x.value, Pow10(scale - x.decimals));
    ProductZero(y.value, Pow10(scale - y.decimals));
    hide Pow10, BVal;
  }

  lemma ProductZero(n: nat, p: nat)
    requires p > 0
    ensures n * p >= 0 && (n * p == 0 <==> n == 0)
  {
  }

  // ----- the two sides read each other's numbers -----

  lemma ValueOfMagnitude(n: int, scale: nat)
    ensures ValueOf(n, scale) == if n < 0 then 0.0 - ValueOf(Magnitude(n), scale) else ValueOf(Magnitude(n), scale)
  {
    hide ValueOf;
    ValueOfLinear(Magnitude(n), 0, scale);
  }

  /** What the engine prints in an event, the server reads as the same number. */
  lemma EventNumbersAgree(d: Decimal)
    requires Printable(d)
    ensures Readable(ToString(d)) && BVal(FromText(ToString(d))) == Val(d)
  {
    hide Body, ToString, FromText, FromDigits, ValueOf, Norm, Readable;
    var n, neg := Magnitude(d.unscaled), d.unscaled < 0;
    ToStringBody(d);
    var i, f := BodyDenotes(n, d.scale);
    PartsOfDigits(i, f);
    FromTextParts(neg, i, f);
    NormIsNormal(n, d.scale);
    ValueOfMagnitude(d.unscaled, d.scale);
    var b := FromText(ToString(d));
    BValSigned(b);
    ValueOfZero(|f|);
  }

  /** What a client writes in a request, plain digits with or without decimals, both sides read as the same number. */
  lemma RequestNumbersAgree(i: string, f: string)
    requires i != [] && AllDigits(i + f) && FromDigits(i + f) < TWO_63
    ensures Readable(Join(i, f)) && Val(Parse(Join(i, f))) == BVal(FromText(Join(i, f))) == ValueOf(FromDigits(i + f), |f|)
  {
    hide Parse, FromText, FromDigits, ValueOf, Readable;
    PartsOfDigits(i, f);
    FromTextParts(false, i, f);
    assert Signed(false, Join(i, f)) == Join(i, f);
    JoinParts(i, f);
    ParseExact(Join(i, f), i, f);
    BValSigned(FromText(Join(i, f)));
  }

  lemma JoinParts(i: string, f: string)
    requires i != [] && AllDigits(i)
    ensures var s := Join(i, f); Unsigned(s) == s && s[0] != '-' && IntPart(s) == i && DecPart(s) == f && Dot(s) > 0
  {
    assert Join(i, f)[0] == i[0] && IsDigit(i[0]);
    DotOfJoin(i, f);
  }
}
