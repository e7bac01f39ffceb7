/** What a position row stores: the weighted average of its fills, as close as the division allows, and the margin it opened with. */
module Averages {
  import opened Digits
  import opened Decimals
  import opened DecimalText
  import opened Orders
  import opened Bigs
  import opened Positions
  import opened Margins

  /** Dividing positive numbers misses the quotient by less than one unit of the 18th decimal, and never exceeds it. */
  lemma DivideWithin(x: Big, y: Big)
    requires BVal(x) > 0.0 && BVal(y) > 0.0
    ensures Div(x, y).Some?
    ensures var r := BVal(Div(x, y).value); 0.0 <= r && r * BVal(y) <= BVal(x) < (r + DUST) * BVal(y)
  {
    hide BVal, Div, ValueOf, DUST, TruncatedQuotient;
    BValSigned(x);
    BValSigned(y);
    DivTruncates(x, y);
    var q: nat :| TruncatedQuotient(q, x, y) && BVal(Div(x, y).value) == QuotientValue(q, x);
    var k := x.decimals + DIV_SCALE;
    QuotientUnits(q, x, y);
    DustIs();
    UnitShrinks(DIV_SCALE, k);
    ProductGrows(QuotientValue(q, x) + ValueOf(1, k), QuotientValue(q, x) + DUST, BVal(y));
  }

  lemma DustIs()
    ensures DUST == ValueOf(1, DIV_SCALE)
  {
  }

  lemma QuotientUnits(q: nat, x: Big, y: Big)
    requires TruncatedQuotient(q, x, y)
    ensures var k, v := x.decimals + DIV_SCALE, QuotientValue(q, x);
            && 0.0 <= v && v * ValueOf(y.value, y.decimals) <= ValueOf(x.value, x.decimals)
            && ValueOf(x.value, x.decimals) < (v + ValueOf(1, k)) * ValueOf(y.value, y.decimals)
  {
    hide ValueOf;
    ValueOfLinear(q, 1, x.decimals + DIV_SCALE);
    ValueOfLinear(0, q, x.decimals + DIV_SCALE);
    ValueOfZero(x.decimals + DIV_SCALE);
  }

  lemma ProductGrows(a: real, b: real, y: real)
    requires a <= b && y > 0.0
    ensures a * y <= b * y
  {
    assert (b - a) * y >= 0.0;
  }

  /**
   * A fill of the same side: the quantities add up, the new entry price times the new quantity is what both together cost,
   * short by less than one unit of the 18th decimal times that quantity, and nothing else changes but the mark price.
   */
  lemma AddedAverages(p: Position, price: string, quantity: string)
    requires ReadableRow(p) && Readable(price) && Readable(quantity)
    requires TextVal(p.entryPrice) >= 0.0 && TextVal(p.quantity) > 0.0 && TextVal(price) > 0.0 && TextVal(quantity) > 0.0
    ensures Added(p, price, quantity).Some?
    ensures var r := Added(p, price, quantity).value;
            && ReadableRow(r) && r.side == p.side && r.margin == p.margin && r.realizedPnl == p.realizedPnl && r.markPrice == price
            && TextVal(r.quantity) == TextVal(p.quantity) + TextVal(quantity)
            && var cost := TextVal(p.entryPrice) * TextVal(p.quantity) + TextVal(price) * TextVal(quantity);
               && 0.0 <= TextVal(r.entryPrice)
               && TextVal(r.entryPrice) * TextVal(r.quantity) <= cost < (TextVal(r.entryPrice) + DUST) * TextVal(r.quantity)
  {
    hide FromText, ToText, BVal, Div, Times, Plus, Readable, DUST;
    var e, n, a, q := FromText(p.entryPrice), FromText(p.quantity), FromText(price), FromText(quantity);
    var x, y := WeightedSum(p, price, quantity), Plus(n, q);
    SumsExact(n, q);
    WeightedExact(e, n, a, q);
    CostPositive(BVal(e), BVal(n), BVal(a), BVal(q));
    DivideWithin(x, y);
    TextRoundTrip(y);
    TextRoundTrip(Div(x, y).value);
  }

  lemma CostPositive(e: real, n: real, a: real, q: real)
    requires e >= 0.0 && n > 0.0 && a > 0.0 && q > 0.0
    ensures e * n + a * q > 0.0
  {
    assert e * n >= 0.0 && a * q > 0.0;
  }

  /** The first fill: price and quantity as they are, and a margin that is the cost by the leverage, truncated. */
  lemma OpenedIs(side: Side, price: string, quantity: string, leverage: string)
    requires Readable(price) && Readable(quantity) && Readable(leverage)
    ensures Opened(side, price, quantity, leverage).Some? <==> TextVal(leverage) != 0.0
    ensures Opened(side, price, quantity, leverage).Some? ==>
              var p := Opened(side, price, quantity, leverage).value;
              && p.side == side && p.quantity == quantity && p.entryPrice == price && p.markPrice == price
              && Readable(p.realizedPnl) && TextVal(p.realizedPnl) == 0.0 && Readable(p.margin)
              && (TextVal(price) > 0.0 && TextVal(quantity) > 0.0 && TextVal(leverage) > 0.0 ==>
                    TextVal(p.margin) * TextVal(leverage) <= TextVal(price) * TextVal(quantity)
                      < (TextVal(p.margin) + DUST) * TextVal(leverage))
  {
    hide FromText, ToText, BVal, Div, Times, Readable, DUST;
    var x, y := Times(FromText(price), FromText(quantity)), FromText(leverage);
    TimesExact(FromText(price), FromText(quantity));
    DivTruncates(x, y);
    ZeroText();
    if Div(x, y).Some? {
      TextRoundTrip(Div(x, y).value);
      if TextVal(price) > 0.0 && TextVal(quantity) > 0.0 && TextVal(leverage) > 0.0 {
        ProductPositive(TextVal(price), TextVal(quantity));
        DivideWithin(x, y);
      }
    }
  }

  /** What a reduction and a closing leave alone. */
  lemma OthersStay(p: Position, price: string, quantity: string)
    requires ReadableRow(p) && Readable(price) && Readable(quantity)
    ensures var r := Reduced(p, price, quantity);
            r.side == p.side && r.entryPrice == p.entryPrice && r.margin == p.margin && r.realizedPnl == p.realizedPnl && r.markPrice == price
    ensures var c := Closed(p, price);
            c.side == p.side && c.entryPrice == p.entryPrice && c.margin == p.margin && c.markPrice == price
  {
  }

  // ----- many fills -----

  ghost function TotalCost(fills: seq<PricedFill>): real
    requires AllReadable(fills)
  {
    if fills == [] then 0.0
    else TotalCost(fills[..|fills| - 1]) + TextVal(fills[|fills| - 1].price) * TextVal(fills[|fills| - 1].quantity)
  }

  /** Entry price and quantity against what the fills cost, with so many roundings. */
  ghost predicate Averages(p: Position, side: Side, cost: real, quantity: real, roundings: nat) {
    && ReadableRow(p) && p.side == side && TextVal(p.quantity) == quantity && quantity > 0.0 && TextVal(p.entryPrice) >= 0.0
    && TextVal(p.entryPrice) * quantity <= cost <= (TextVal(p.entryPrice) + roundings as real * DUST) * quantity
  }

  /** One more average of an average. */
  lemma AveragesAdd(e: real, n: real, cost: real, k: nat, a: real, q: real, f: real)
    requires n > 0.0 && q > 0.0 && e * n <= cost <= (e + k as real * DUST) * n
    requires f * (n + q) <= e * n + a * q < (f + DUST) * (n + q)
    ensures f * (n + q) <= cost + a * q <= (f + (k + 1) as real * DUST) * (n + q)
  {
    DustPositive();
    var d := k as real * DUST;
    assert d >= 0.0;
    Spread(e, d, n);
    Spread(f + DUST, d, n + q);
    DustAgain(k, f);
    assert d * q >= 0.0;
    assert d * (n + q) == d * n + d * q;
  }

  lemma Spread(e: real, d: real, n: real)
    ensures (e + d) * n == e * n + d * n
  {
  }

  lemma DustAgain(k: nat, f: real)
    ensures f + (k + 1) as real * DUST == (f + DUST) + k as real * DUST
  {
    var d := DUST;
    assert (k + 1) as real * d == k as real * d + d;
  }

  /**
   * Over any sequence of fills of one side with positive prices and quantities, the stored quantity is their sum, and the
   * stored entry price times it is their total cost, short by at most one unit of the 18th decimal per fill after the first.
   */
  lemma {:induction false} AverageIsCost(side: Side, leverage: string, fills: seq<PricedFill>)
    requires Readable(leverage) && TextVal(leverage) != 0.0 && fills != [] && AllReadable(fills)
    requires forall i | 0 <= i < |fills| :: TextVal(fills[i].price) > 0.0 && TextVal(fills[i].quantity) > 0.0
    ensures AfterFills(side, leverage, fills).Some?
    ensures Averages(AfterFills(side, leverage, fills).value, side, TotalCost(fills), TotalQuantity(fills), |fills| - 1)
    decreases |fills|
  {
    hide FromText, BVal, Readable, Added, Opened, DUST;
    var last, init := fills[|fills| - 1], fills[..|fills| - 1];
    if |fills| == 1 {
      assert init == [];
      OpenedIs(side, last.price, last.quantity, leverage);
      ZeroReadable();
    } else {
      assert forall i | 0 <= i < |init| :: init[i] == fills[i];
      AverageIsCost(side, leverage, init);
      var before := AfterFills(side, leverage, init).value;
      AddedAverages(before, last.price, last.quantity);
      var after := Added(before, last.price, last.quantity).value;
      AveragesAdd(TextVal(before.entryPrice), TotalQuantity(init), TotalCost(init), |init| - 1,
                  TextVal(last.price), TextVal(last.quantity), TextVal(after.entryPrice));
    }
  }
}
