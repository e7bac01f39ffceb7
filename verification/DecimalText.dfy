/** Printing and parsing of `Decimal`, and why printed prices can serve as map keys. */
module DecimalText {
  import opened Digits
  import opened Decimals

  /** How the stream and `std::to_string` print an integer. */
  function IntText(n: int): string {
    if n < 0 then "-" + ToDigits(-n) else ToDigits(n)
  }

  function PadTo(s: string, scale: nat): (p: string)
    ensures |p| > scale
  {
    if |s| <= scale then Zeros(scale - |s| + 1) + s else s
  }

  function ToString(d: Decimal): string {
    if d.scale == 0 then IntText(d.unscaled)
    else Signed(d.unscaled < 0,
                Body(if d.unscaled < 0 then Wrap64(0 - d.unscaled) else d.unscaled, d.scale))
  }

  function Signed(neg: bool, body: string): string {
    if neg then "-" + body else body
  }

  /** The printed magnitude: the digits, padded, with a point before the last `scale` of them. */
  function Body(n: int, scale: nat): string {
    var s := PadTo(IntText(n), scale);
    Join(s[..|s| - scale], TrimZeros(s[|s| - scale..]))
  }

  function Join(intPart: string, decPart: string): string {
    if decPart == [] then intPart else intPart + "." + decPart
  }

  /** The position of the first decimal point, or the length when there is none. */
  function Dot(s: string): (k: nat)
    ensures k <= |s| && '.' !in s[..k] && (k < |s| ==> s[k] == '.')
  {
    if s == [] || s[0] == '.' then 0 else 1 + Dot(s[1..])
  }

  /** The parser's accumulator: anything that is not a digit is skipped, and the product wraps. */
  function Accumulate(acc: Int64, s: string): Int64
    decreases |s|
  {
    if s == [] then acc
    else Accumulate(if IsDigit(s[0]) then Wrap64(acc * 10 + DigitOf(s[0])) else acc, s[1..])
  }

  function Unsigned(s: string): string {
    if s != [] && (s[0] == '-' || s[0] == '+') then s[1..] else s
  }

  function IntPart(u: string): string {
    if Dot(u) == 0 then "0" else u[..Dot(u)]
  }

  function DecPart(u: string): string {
    if Dot(u) < |u| then u[Dot(u) + 1..] else ""
  }

  function Assemble(neg: bool, intPart: string, decPart: string): Decimal {
    var magnitude := Accumulate(0, intPart + decPart);
    Decimal(if neg then Wrap64(0 - magnitude) else magnitude, |decPart|)
  }

  function Parse(s: string): Decimal {
    var u := Unsigned(s);
    Assemble(s != [] && s[0] == '-', IntPart(u), TrimZeros(DecPart(u)))
  }

  /** The parser as the program runs it, character by character. */
  method ParseDecimal(s: string) returns (d: Decimal)
    ensures d == Parse(s)
  {
    var str, neg := s, false;
    if s != [] && s[0] == '-' {
      neg, str := true, s[1..];
    } else if s != [] && s[0] == '+' {
      str := s[1..];
    }
    assert str == Unsigned(s);
    hide Unsigned, TrimZeros, Accumulate, Dot;
    var dot := Dot(str);
    var intPart := str[..dot];
    var decPart := if dot < |str| then str[dot + 1..] else "";
    if intPart == [] {
      intPart := "0";
    }
    decPart := DropTrailingZeros(decPart);
    var unscaled: int := ReadDigits(intPart + decPart);
    if neg {
      unscaled := Wrap64(0 - unscaled);
    }
    d := Decimal(unscaled, |decPart|);
  }

  method ReadDigits(combined: string) returns (unscaled: Int64)
    ensures unscaled == Accumulate(0, combined)
  {
    unscaled := 0;
    for i := 0 to |combined|
      invariant Accumulate(0, combined) == Accumulate(unscaled, combined[i..])
    {
      var c := combined[i];
      assert combined[i..][1..] == combined[i + 1..];
      if IsDigit(c) {
        unscaled := Wrap64(unscaled * 10 + DigitOf(c));
      }
    }
  }

  method DropTrailingZeros(s: string) returns (t: string)
    ensures t == TrimZeros(s)
  {
    t := s;
    while t != [] && t[|t| - 1] == '0'
      invariant TrimZeros(t) == TrimZeros(s)
    {
      t := t[..|t| - 1];
    }
  }

  // ----- normal forms -----

  /** The same number without trailing zeros after the decimal point. */
  function Norm(n: int, scale: nat): (int, nat)
    decreases scale
  {
    if scale > 0 && n % 10 == 0 then Norm(n / 10, scale - 1) else (n, scale)
  }

  ghost predicate IsNormal(d: Decimal) {
    d.scale == 0 || d.unscaled % 10 != 0
  }

  /** INT64_MIN has no positive counterpart; every other int64 has. */
  ghost predicate Printable(d: Decimal) {
    -TWO_63 < d.unscaled
  }

  lemma {:induction false} NormIsNormal(n: int, scale: nat)
    ensures var (m, k) := Norm(n, scale);
            && k <= scale && n == Shift(m, scale - k)
            && ValueOf(m, k) == ValueOf(n, scale)
            && (k == 0 || m % 10 != 0)
            && (-TWO_63 < n < TWO_63 ==> -TWO_63 < m < TWO_63)
    decreases scale
  {
    var (m, k) := Norm(n, scale);
    if scale > 0 && n % 10 == 0 {
      NormIsNormal(n / 10, scale - 1);
      ValueOfTimesTen(n / 10, scale);
    }
  }

  /** Normal forms are unique: one per number. */
  lemma NormalUnique(a: Decimal, b: Decimal)
    requires IsNormal(a) && IsNormal(b) && Val(a) == Val(b)
    ensures a == b
  {
    if a.scale < b.scale {
      ScaledUpNotNormal(a, b);
    } else if b.scale < a.scale {
      ScaledUpNotNormal(b, a);
    } else {
      ValueOfLinear(a.unscaled, b.unscaled, a.scale);
    }
  }

  lemma ScaledUpNotNormal(a: Decimal, b: Decimal)
    requires a.scale < b.scale && Val(a) == Val(b)
    ensures !IsNormal(b)
  {
    AtValue(a, b.scale);
    ValueOfLinear(At(a, b.scale), b.unscaled, b.scale);
  }

  lemma {:induction false} NormNeg(n: int, scale: nat)
    ensures Norm(-n, scale).0 == -Norm(n, scale).0 && Norm(-n, scale).1 == Norm(n, scale).1
    decreases scale
  {
    if scale > 0 && n % 10 == 0 {
      NormNeg(n / 10, scale - 1);
      assert (-n) / 10 == -(n / 10);
    }
  }

  lemma {:induction false} NormOfShift(n: int, k: nat, scale: nat)
    ensures Norm(Shift(n, k), scale + k) == Norm(n, scale)
  {
    if k > 0 {
      NormOfShift(n, k - 1, scale);
      assert Shift(n, k) / 10 == Shift(n, k - 1);
    }
  }

  // ----- print, then parse -----

  lemma BodyUnscaled(n: nat)
    ensures Body(n, 0) == ToDigits(n)
  {
    var p := ToDigits(n);
    assert PadTo(p, 0) == p && p[..|p|] == p && p[|p|..] == [];
  }

  lemma ToStringBody(d: Decimal)
    requires Printable(d)
    ensures ToString(d) == Signed(d.unscaled < 0, Body(Magnitude(d.unscaled), d.scale))
  {
    if d.scale == 0 {
      BodyUnscaled(Magnitude(d.unscaled));
    }
  }

  function Magnitude(n: int): nat {
    if n < 0 then -n else n
  }

  lemma PaddedDenotes(n: nat, scale: nat)
    ensures var p := PadTo(ToDigits(n), scale);
            AllDigits(p) && FromDigits(p) == n
  {
    hide ToDigits, FromDigits;
    var d := ToDigits(n);
    FromToDigits(n);
    if |d| <= scale {
      FromDigitsPadded(scale - |d| + 1, d);
    }
  }

  lemma PartsOfDigits(s: string, t: string)
    requires AllDigits(s + t)
    ensures AllDigits(s) && AllDigits(t)
  {
    assert forall i | 0 <= i < |s| :: (s + t)[i] == s[i];
    assert forall i | 0 <= i < |t| :: (s + t)[|s| + i] == t[i];
  }

  /** Cutting a digit string before its last `scale` digits and trimming those divides by a power of ten. */
  lemma SplitDenotes(p: string, scale: nat)
    requires AllDigits(p) && scale < |p|
    ensures var (i, f) := (p[..|p| - scale], TrimZeros(p[|p| - scale..]));
            && |f| <= scale && AllDigits(i + f)
            && FromDigits(p) == Shift(FromDigits(i + f), scale - |f|)
  {
    var i, tail := p[..|p| - scale], p[|p| - scale..];
    var f := TrimZeros(tail);
    TrimZerosSplit(tail);
    var j := scale - |f|;
    assert p == (i + f) + Zeros(j) by {
      assert p == i + tail;
    }
    PartsOfDigits(i + f, Zeros(j));
    FromDigitsZeros(i + f, j);
  }

  /** The printed digits denote the number's normal form. */
  lemma BodyDenotes(n: nat, scale: nat) returns (i: string, f: string)
    ensures Body(n, scale) == Join(i, f)
    ensures i != [] && AllDigits(i) && AllDigits(i + f) && |f| <= scale && TrimZeros(f) == f
    ensures FromDigits(i + f) <= n
    ensures Norm(n, scale) == (FromDigits(i + f), |f|)
  {
    var p := PadTo(ToDigits(n), scale);
    var tail := p[|p| - scale..];
    i, f := p[..|p| - scale], TrimZeros(tail);
    assert Body(n, scale) == Join(i, f) by {
      assert IntText(n) == ToDigits(n);
    }
    assert AllDigits(p) && FromDigits(p) == n by {
      PaddedDenotes(n, scale);
    }
    SplitDenotes(p, scale);
    TrimTwice(tail);
    SplitNormal(n, i, f, scale);
  }

  lemma SplitNormal(n: nat, i: string, f: string, scale: nat)
    requires AllDigits(i + f) && |f| <= scale && TrimZeros(f) == f
    requires n == Shift(FromDigits(i + f), scale - |f|)
    ensures AllDigits(i) && FromDigits(i + f) <= n
    ensures Norm(n, scale) == (FromDigits(i + f), |f|)
  {
    PartsOfDigits(i, f);
    var m := FromDigits(i + f);
    ShiftMonotone(m, 0, scale - |f|);
    NormOfShift(m, scale - |f|, |f|);
    if f != [] {
      TrimZerosSplit(f);
      LastDigit(i + f);
    }
  }

  lemma LastDigit(s: string)
    requires s != [] && AllDigits(s) && s[|s| - 1] != '0'
    ensures FromDigits(s) % 10 != 0
  {
  }

  lemma {:induction false} AccumulateDigits(acc: Int64, done: string, s: string)
    requires AllDigits(done + s) && AllDigits(done) && acc == FromDigits(done)
    requires FromDigits(done + s) < TWO_63
    ensures Accumulate(acc, s) == FromDigits(done + s)
    decreases |s|
  {
    if s == [] {
      assert done + s == done;
    } else {
      var d := done + [s[0]];
      assert d + s[1..] == done + s;
      assert IsDigit((done + s)[|done|]) && (done + s)[|done|] == s[0];
      assert d[..|d| - 1] == done;
      FromDigitsPrefix(d, s[1..]);
      AccumulateDigits(Wrap64(acc * 10 + DigitOf(s[0])), d, s[1..]);
    }
  }

  /** Reading a character never leaves int64. */
  ghost predicate ReadsInRange(acc: int, s: string)
    decreases |s|
  {
    s == []
    || (if IsDigit(s[0]) then InRange(acc * 10 + DigitOf(s[0])) && ReadsInRange(acc * 10 + DigitOf(s[0]), s[1..])
        else ReadsInRange(acc, s[1..]))
  }

  /** The parser's accumulator stays within int64 if and only if the whole number does. */
  lemma {:induction false} ReadsInRangeIff(acc: int, done: string, s: string)
    requires AllDigits(done + s) && AllDigits(done) && acc == FromDigits(done) && InRange(acc)
    ensures ReadsInRange(acc, s) <==> FromDigits(done + s) < TWO_63
    decreases |s|
  {
    if s == [] {
      assert done + s == done;
    } else {
      var d := done + [s[0]];
      assert d + s[1..] == done + s;
      assert IsDigit((done + s)[|done|]) && (done + s)[|done|] == s[0];
      assert d[..|d| - 1] == done;
      FromDigitsPrefix(d, s[1..]);
      if InRange(acc * 10 + DigitOf(s[0])) {
        ReadsInRangeIff(acc * 10 + DigitOf(s[0]), d, s[1..]);
      }
    }
  }

  lemma DigitsInRangeIff(s: string)
    requires AllDigits(s)
    ensures ReadsInRange(0, s) <==> FromDigits(s) < TWO_63
  {
    assert [] + s == s;
    ReadsInRangeIff(0, [], s);
  }

  lemma FromDigitsPrefix(s: string, t: string)
    requires AllDigits(s + t)
    ensures AllDigits(s) && AllDigits(t) && FromDigits(s) <= FromDigits(s + t)
  {
    PartsOfDigits(s, t);
    FromDigitsMonotone(s, t);
  }

  lemma {:induction false} DotAfterDigits(i: string, rest: string)
    requires AllDigits(i) && (rest == [] || rest[0] == '.')
    ensures Dot(i + rest) == |i|
  {
    if i != [] {
      assert (i + rest)[1..] == i[1..] + rest;
      DotAfterDigits(i[1..], rest);
    }
  }

  lemma AssembleDigits(neg: bool, i: string, f: string)
    requires AllDigits(i + f) && FromDigits(i + f) < TWO_63
    ensures Assemble(neg, i, f) == Decimal(if neg then 0 - FromDigits(i + f) else FromDigits(i + f), |f|)
  {
    assert [] + (i + f) == i + f;
    AccumulateDigits(0, [], i + f);
  }

  /** Parsing a sign, digits and decimals reads back exactly those digits. */
  lemma ParseParts(neg: bool, i: string, f: string)
    requires i != [] && AllDigits(i) && AllDigits(i + f) && TrimZeros(f) == f
    requires FromDigits(i + f) < TWO_63
    ensures Parse(Signed(neg, Join(i, f))) == Decimal(if neg then 0 - FromDigits(i + f) else FromDigits(i + f), |f|)
  {
    hide Assemble, TrimZeros, FromDigits;
    var body := Join(i, f);
    var s := Signed(neg, body);
    assert Unsigned(s) == body && (s[0] == '-' <==> neg) by {
      assert body[0] == i[0] && IsDigit(i[0]);
    }
    assert IntPart(body) == i && DecPart(body) == f by {
      DotOfJoin(i, f);
    }
    AssembleDigits(neg, i, f);
  }

  lemma DotOfJoin(i: string, f: string)
    requires AllDigits(i)
    ensures Dot(Join(i, f)) == |i|
    ensures Join(i, f)[..|i|] == i
    ensures f == (if |i| < |Join(i, f)| then Join(i, f)[|i| + 1..] else "")
  {
    var rest := if f == [] then [] else "." + f;
    assert Join(i, f) == i + rest;
    DotAfterDigits(i, rest);
  }

  lemma {:induction false} TrimTwice(s: string)
    ensures TrimZeros(TrimZeros(s)) == TrimZeros(s)
  {
    if s != [] && s[|s| - 1] == '0' {
      TrimTwice(s[..|s| - 1]);
    }
  }

  /** Parsing what is printed gives the normal form of the decimal: same number, minimal scale. */
  lemma ParseToString(d: Decimal)
    requires Printable(d)
    ensures var (m, k) := Norm(d.unscaled, d.scale);
            && InRange(m) && Parse(ToString(d)) == Decimal(m, k)
            && Val(Parse(ToString(d))) == Val(d) && IsNormal(Parse(ToString(d)))
  {
    var n := Magnitude(d.unscaled);
    var i, f := BodyDenotes(n, d.scale);
    ToStringBody(d);
    NormNeg(n, d.scale);
    NormIsNormal(d.unscaled, d.scale);
    ParseParts(d.unscaled < 0, i, f);
  }

  // ----- equal numbers print identically -----

  lemma ToDigitsTimesTen(n: nat)
    requires n > 0
    ensures ToDigits(10 * n) == ToDigits(n) + "0"
  {
    assert 10 * n / 10 == n;
  }

  lemma PadTimesTen(n: nat, scale: nat)
    ensures PadTo(ToDigits(10 * n), scale + 1) == PadTo(ToDigits(n), scale) + "0"
  {
    if n > 0 {
      ToDigitsTimesTen(n);
    } else {
      assert ToDigits(10 * n) == ToDigits(n) == "0";
    }
  }

  lemma TrimOneMore(t: string)
    ensures TrimZeros(t + "0") == TrimZeros(t)
  {
    assert (t + "0")[..|t|] == t;
  }

  /** One more zero after the decimal point does not change what is printed. */
  lemma BodyTimesTen(n: nat, scale: nat)
    ensures Body(10 * n, scale + 1) == Body(n, scale)
  {
    hide ToDigits, PadTo, TrimZeros, Join, IntText;
    var p, q := PadTo(ToDigits(n), scale), PadTo(ToDigits(10 * n), scale + 1);
    PadTimesTen(n, scale);
    IntTextNat(n);
    IntTextNat(10 * n);
    SplitOneMore(p, scale);
  }

  lemma IntTextNat(n: nat)
    ensures IntText(n) == ToDigits(n)
  {
  }

  lemma SplitOneMore(p: string, scale: nat)
    requires scale < |p|
    ensures var q := p + "0";
            && q[..|q| - (scale + 1)] == p[..|p| - scale]
            && TrimZeros(q[|q| - (scale + 1)..]) == TrimZeros(p[|p| - scale..])
  {
    var q := p + "0";
    var t := p[|p| - scale..];
    assert q[|q| - (scale + 1)..] == t + "0";
    TrimOneMore(t);
  }

  lemma ToStringStep(n: int, scale: nat)
    requires -TWO_63 < 10 * n < TWO_63
    ensures ToString(Decimal(10 * n, scale + 1)) == ToString(Decimal(n, scale))
  {
    var a, b := Decimal(10 * n, scale + 1), Decimal(n, scale);
    var x, y := Body(Magnitude(10 * n), scale + 1), Body(Magnitude(n), scale);
    assert x == y by {
      BodyTimesTen(Magnitude(n), scale);
      assert Magnitude(10 * n) == 10 * Magnitude(n);
    }
    assert ToString(a) == Signed(n < 0, x) by {
      ToStringBody(a);
    }
    assert ToString(b) == Signed(n < 0, y) by {
      ToStringBody(b);
    }
  }

  lemma {:induction false} ToStringNorm(n: int, scale: nat)
    requires -TWO_63 < n < TWO_63
    ensures var (m, k) := Norm(n, scale);
            InRange(m) && ToString(Decimal(m, k)) == ToString(Decimal(n, scale))
    decreases scale
  {
    if scale > 0 && n % 10 == 0 {
      var h := n / 10;
      assert 10 * h == n;
      ToStringNorm(h, scale - 1);
      assert ToString(Decimal(n, scale)) == ToString(Decimal(h, scale - 1)) by {
        ToStringStep(h, scale - 1);
      }
    }
  }

  /** Two decimals print the same string if and only if they are the same number. */
  lemma PrintCanonical(a: Decimal, b: Decimal)
    requires Printable(a) && Printable(b)
    ensures ToString(a) == ToString(b) <==> Val(a) == Val(b)
  {
    ParseToString(a);
    ParseToString(b);
    if Val(a) == Val(b) {
      ToStringNorm(a.unscaled, a.scale);
      ToStringNorm(b.unscaled, b.scale);
      NormalUnique(Parse(ToString(a)), Parse(ToString(b)));
    }
  }

  /** Plain decimal text: an optional sign, digits, and optionally a point followed by digits. */
  ghost predicate WellFormed(s: string) {
    var u := Unsigned(s);
    Dot(u) > 0 && AllDigits(IntPart(u)) && AllDigits(DecPart(u))
  }

  /** Parsing plain text whose digits fit is exact and leaves no trailing decimal zero. */
  lemma ParseExact(s: string, i: string, f: string)
    requires WellFormed(s) && i == IntPart(Unsigned(s)) && f == DecPart(Unsigned(s))
    requires AllDigits(i + f) && FromDigits(i + f) < TWO_63
    ensures IsNormal(Parse(s)) && ReadsInRange(0, i + TrimZeros(f))
    ensures Val(Parse(s)) == if s[0] == '-' then -ValueOf(FromDigits(i + f), |f|) else ValueOf(FromDigits(i + f), |f|)
  {
    var t := TrimZeros(f);
    hide Assemble, TrimZeros, FromDigits;
    TrimmedDigits(i, f);
    var m := FromDigits(i + t);
    AssembleDigits(s[0] == '-', i, t);
    ValueOfLinear(m, 0, |t|);
    DigitsInRangeIff(i + t);
  }

  /** Trimming the decimals of a digit string changes neither its number nor, if it is normal, its digits. */
  lemma TrimmedDigits(i: string, f: string)
    requires AllDigits(i + f)
    ensures var t := TrimZeros(f);
            && AllDigits(i + t) && FromDigits(i + t) <= FromDigits(i + f)
            && ValueOf(FromDigits(i + t), |t|) == ValueOf(FromDigits(i + f), |f|)
            && (|t| == 0 || FromDigits(i + t) % 10 != 0)
  {
    var t := TrimZeros(f);
    var j := |f| - |t|;
    TrimZerosSplit(f);
    assert i + f == (i + t) + Zeros(j);
    PartsOfDigits(i + t, Zeros(j));
    FromDigitsZeros(i + t, j);
    FromDigitsMonotone(i + t, Zeros(j));
    ValueOfShift(FromDigits(i + t), |t|, j);
    if t != [] {
      LastDigit(i + t);
    }
  }

  /** A decimal within the matcher's bound is printable, and survives printing and parsing. */
  lemma FitsRoundTrip(d: Decimal, s: nat)
    requires Fits(d, s)
    ensures Printable(d) && Fits(Parse(ToString(d)), s) && Val(Parse(ToString(d))) == Val(d)
  {
    FitsAt(d, s, d.scale);
    ParseToString(d);
    NormIsNormal(d.unscaled, d.scale);
  }
}
