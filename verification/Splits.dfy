/** When the margin locked for a buy covers the margins of its parts, whichever way fills and a release split it. */
module Splits {
  import opened Digits
  import opened Decimals
  import opened Bigs
  import opened Ledgers
  import opened Coverage
  import opened Margins

  /** One fill of a buy; or what a cancellation releases, at the buy's own price. */
  datatype Part = Part(price: real, quantity: real)

  ghost predicate PartOk(limit: real, p: Part) {
    0.0 < p.price <= limit && IsDecimal(p.price) && 0.0 < p.quantity && IsDecimal(p.quantity)
  }

  ghost predicate Split(limit: real, parts: seq<Part>) {
    limit > 0.0 && IsDecimal(limit) && forall i | 0 <= i < |parts| :: PartOk(limit, parts[i])
  }

  ghost function Quantity(parts: seq<Part>): real {
    if parts == [] then 0.0 else parts[0].quantity + Quantity(parts[1..])
  }

  ghost function Spent(parts: seq<Part>, leverage: real): real {
    if parts == [] then 0.0 else MarginOf(parts[0].price, parts[0].quantity, leverage) + Spent(parts[1..], leverage)
  }

  /** Every part finds its whole margin locked when its turn comes. */
  ghost predicate InFull(b: Balances, a: Account, parts: seq<Part>, leverage: real)
    decreases |parts|
  {
    parts == []
    || (var m := MarginOf(parts[0].price, parts[0].quantity, leverage);
        Taken(b, a, m) == m && InFull(LockedDebited(b, a, m), a, parts[1..], leverage))
  }

  /** In an account with nothing else locked, what is reserved for a buy is enough for every way to split it. */
  ghost predicate CoversSplits(leverage: real) {
    forall limit: real, parts: seq<Part>, b: Balances, a: Account ::
      Split(limit, parts) && LockedOf(b, a) == 0.0 && Locked(b, a, MarginOf(limit, Quantity(parts), leverage)).Ok? ==>
        InFull(Locked(b, a, MarginOf(limit, Quantity(parts), leverage)).value, a, parts, leverage)
  }

  lemma {:induction false} InFullIff(limit: real, b: Balances, a: Account, parts: seq<Part>, leverage: real)
    requires Split(limit, parts) && leverage > 0.0 && LockedOf(b, a) >= 0.0
    ensures Spent(parts, leverage) >= 0.0
    ensures InFull(b, a, parts, leverage) <==> Spent(parts, leverage) <= LockedOf(b, a)
    decreases |parts|
  {
    hide MarginOf, Taken, LockedOf, LockedDebited;
    if parts != [] {
      var p, rest := parts[0], parts[1..];
      var m := MarginOf(p.price, p.quantity, leverage);
      MarginRounds(p.price, p.quantity, leverage);
      TakenIs(b, a, m);
      DebitTakes(b, a, m);
      assert forall i | 0 <= i < |rest| :: rest[i] == parts[i + 1];
      InFullIff(limit, LockedDebited(b, a, m), a, rest, leverage);
    }
  }

  lemma {:induction false} QuantityNonneg(limit: real, parts: seq<Part>)
    requires Split(limit, parts)
    ensures Quantity(parts) >= 0.0
    decreases |parts|
  {
    if parts != [] {
      assert forall i | 0 <= i < |parts[1..]| :: parts[1..][i] == parts[i + 1];
      QuantityNonneg(limit, parts[1..]);
    }
  }

  // ----- even leverage suffices -----

  lemma {:induction false} ExactSpent(limit: real, parts: seq<Part>, leverage: real)
    requires Split(limit, parts) && ExactLeverage(leverage)
    ensures Spent(parts, leverage) <= ExactMargin(limit, Quantity(parts), leverage)
    decreases |parts|
  {
    hide MarginOf, ExactLeverage;
    if parts == [] {
      NoMargin(limit, leverage);
    } else {
      var p, rest := parts[0], parts[1..];
      assert forall i | 0 <= i < |rest| :: rest[i] == parts[i + 1];
      ExactSpent(limit, rest, leverage);
      EvenMargin(p.price, p.quantity, leverage);
      MarginMonotone(p.price, limit, p.quantity, leverage);
      MarginMinus(limit, Quantity(parts), p.quantity, leverage);
    }
  }

  lemma NoMargin(price: real, leverage: real)
    ensures ExactMargin(price, 0.0, leverage) == 0.0
  {
    assert price * 0.0 == 0.0;
  }

  lemma EvenMargin(price: real, quantity: real, leverage: real)
    requires price >= 0.0 && quantity >= 0.0 && ExactLeverage(leverage)
    ensures leverage > 0.0 && MarginOf(price, quantity, leverage) == ExactMargin(price, quantity, leverage)
  {
    var cost := price * quantity;
    assert cost >= 0.0;
    ExactLeverageSuffices(cost, leverage);
  }

  // ----- and is necessary -----

  /** Powers of ten outgrow every bound. */
  lemma {:induction false} UnitIsSmall(k: nat)
    ensures k as real * ValueOf(1, k) <= 1.0 && ValueOf(1, k) > 0.0
    decreases k
  {
    if k > 0 {
      var j, u := k - 1, ValueOf(1, k - 1);
      UnitIsSmall(j);
      if j > 0 {
        UnitShrinks(0, j);
        TenthIsLess(j as real, u);
      }
    }
  }

  lemma TenthIsLess(j: real, u: real)
    requires j >= 1.0 && u > 0.0 && j * u <= 1.0
    ensures (j + 1.0) * (u / 10.0) <= 1.0
  {
    assert (j + 1.0) * (u / 10.0) == (j * u + u) / 10.0;
    assert u <= j * u;
  }

  /** Some unit is as small as one likes. */
  lemma SmallUnit(e: real) returns (k: nat)
    requires e > 0.0
    ensures k > 0 && 2.0 * ValueOf(1, k) <= e
  {
    k := (2.0 / e).Floor + 1;
    var u := ValueOf(1, k);
    UnitIsSmall(k);
    Archimedean(e, k as real, u);
  }

  lemma Archimedean(e: real, k: real, u: real)
    requires e > 0.0 && k >= 2.0 / e && u > 0.0 && k * u <= 1.0
    ensures 2.0 * u <= e
  {
    var q := 2.0 / e;
    assert q * e == 2.0;
    assert (k - q) * u >= 0.0;
    var r := q * u;
    assert r <= k * u <= 1.0;
    assert (1.0 - r) * e >= 0.0;
    assert r * e == (q * e) * u;
  }

  /** A unit and its complement to one have the same number of decimals. */
  lemma UnitDecimals(d: nat)
    requires d > 0
    ensures var q := ValueOf(1, d);
            && 0.0 < q < 1.0 && IsDecimal(q) && DecimalsOf(q) == d && IsDecimal(1.0 - q) && DecimalsOf(1.0 - q) == d
  {
    var n := Pow10(d) - 1;
    OneInUnits(d);
    ValueOfLinear(1, n, d);
    ValueOfLinear(0, n, d);
    ValueOfLinear(0, 1, d);
    ValueOfZero(d);
    assert Pow10(d) == 10 * Pow10(d - 1);
    assert 1.0 - ValueOf(1, d) == ValueOf(n, d);
    LastDecimal(1, d);
    LastDecimal(n, d);
  }

  lemma LastDecimal(n: int, d: nat)
    requires d > 0 && n % 10 != 0
    ensures IsDecimal(ValueOf(n, d)) && DecimalsOf(ValueOf(n, d)) == d
  {
    var e := d - 1;
    assert WholeAt(ValueOf(n, d), d);
    forall m: int
      ensures ValueOf(n, d) != ValueOf(m, e)
    {
      LastDecimalCounts(n, d, m);
    }
    DecimalsUnique(ValueOf(n, d), d);
  }

  lemma OneInUnits(d: nat)
    ensures ValueOf(Pow10(d), d) == 1.0
  {
    ShiftIsPow10(1, d);
    ValueOfShift(1, 0, d);
  }

  /** The margin of a cost with `d` decimals misses at most one unit of decimal `d + 18`. */
  lemma MarginFromBelow(q: real, leverage: real)
    requires q > 0.0 && IsDecimal(q) && leverage > 0.0
    ensures MarginOf(1.0, q, leverage) > q / leverage - ValueOf(1, DecimalsOf(q) + DIV_SCALE)
  {
    assert 1.0 * q == q;
    QuotientNonneg(q, leverage);
    TruncatedBounds(q / leverage, DecimalsOf(q) + DIV_SCALE);
  }

  /** At any uneven leverage one unit at price 1 can be split so that the two parts take more than was locked. */
  lemma UnevenSplit(leverage: real) returns (q: real)
    requires leverage > 0.0 && !ExactLeverage(leverage)
    ensures 0.0 < q < 1.0 && IsDecimal(q) && IsDecimal(1.0 - q)
    ensures MarginOf(1.0, q, leverage) + MarginOf(1.0, 1.0 - q, leverage) > MarginOf(1.0, 1.0, leverage)
  {
    var x, whole := 1.0 / leverage, MarginOf(1.0, 1.0, leverage);
    WholeIntegers(1, 0);
    DecimalsUnique(1.0, 0);
    assert 1.0 * 1.0 == 1.0;
    QuotientNonneg(1.0, leverage);
    TruncatedBounds(x, DIV_SCALE);
    assert whole == Truncated(x, DIV_SCALE) < x;
    hide MarginOf, Truncated, ValueOf;
    var d := SmallUnit(x - whole);
    q := ValueOf(1, d);
    UnitDecimals(d);
    MarginFromBelow(q, leverage);
    MarginFromBelow(1.0 - q, leverage);
    UnitShrinks(d, d + DIV_SCALE);
    SumOfParts(q, leverage);
  }

  lemma SumOfParts(q: real, leverage: real)
    requires leverage > 0.0
    ensures q / leverage + (1.0 - q) / leverage == 1.0 / leverage
  {
  }

  // ----- both directions -----

  /**
   * What is locked for a priced buy covers its fills and its release, however they split it, if and only if the leverage
   * divides evenly: if 1 / leverage has at most 18 decimals.
   */
  lemma SplitsCoveredIff(leverage: real)
    requires leverage > 0.0
    ensures CoversSplits(leverage) <==> ExactLeverage(leverage)
  {
    hide *;
    if ExactLeverage(leverage) {
      EvenCovers(leverage);
    } else {
      UnevenFails(leverage);
    }
  }

  lemma LockIs(b: Balances, a: Account, limit: real, quantity: real, leverage: real)
    requires limit > 0.0 && quantity >= 0.0 && leverage > 0.0 && LockedOf(b, a) == 0.0
    requires Locked(b, a, MarginOf(limit, quantity, leverage)).Ok?
    ensures LockedOf(Locked(b, a, MarginOf(limit, quantity, leverage)).value, a) == MarginOf(limit, quantity, leverage) >= 0.0
  {
    MarginRounds(limit, quantity, leverage);
    LockAdds(b, a, MarginOf(limit, quantity, leverage));
    hide MarginOf;
  }

  lemma EvenCovers(leverage: real)
    requires ExactLeverage(leverage)
    ensures CoversSplits(leverage)
  {
    hide MarginOf, Locked, LockedOf, InFull, Spent, ExactLeverage;
    forall limit: real, parts: seq<Part>, b: Balances, a: Account
      ensures Split(limit, parts) && LockedOf(b, a) == 0.0 && Locked(b, a, MarginOf(limit, Quantity(parts), leverage)).Ok? ==>
                InFull(Locked(b, a, MarginOf(limit, Quantity(parts), leverage)).value, a, parts, leverage)
    {
      if Split(limit, parts) && LockedOf(b, a) == 0.0 && Locked(b, a, MarginOf(limit, Quantity(parts), leverage)).Ok? {
        QuantityNonneg(limit, parts);
        EvenMargin(limit, Quantity(parts), leverage);
        LockIs(b, a, limit, Quantity(parts), leverage);
        InFullIff(limit, Locked(b, a, MarginOf(limit, Quantity(parts), leverage)).value, a, parts, leverage);
        ExactSpent(limit, parts, leverage);
      }
    }
  }

  lemma UnevenFails(leverage: real)
    requires leverage > 0.0 && !ExactLeverage(leverage)
    ensures !CoversSplits(leverage)
  {
    var q := UnevenSplit(leverage);
    var parts := [Part(1.0, q), Part(1.0, 1.0 - q)];
    var a := Account("", "");
    var lock := MarginOf(1.0, 1.0, leverage);
    var b: Balances := map[a := Balance(lock, 0.0)];
    WholeIntegers(1, 0);
    assert IsDecimal(1.0) && Split(1.0, parts);
    hide MarginOf, IsDecimal, InFull, Split;
    assert parts[1..] == [Part(1.0, 1.0 - q)] && parts[1..][1..] == [];
    assert Quantity(parts[1..]) == 1.0 - q && Quantity(parts) == 1.0;
    assert Spent(parts[1..], leverage) == MarginOf(1.0, 1.0 - q, leverage);
    assert Spent(parts, leverage) > lock;
    assert Locked(b, a, lock).Ok? && LockedOf(b, a) == 0.0;
    LockIs(b, a, 1.0, 1.0, leverage);
    InFullIff(1.0, Locked(b, a, lock).value, a, parts, leverage);
  }
}
