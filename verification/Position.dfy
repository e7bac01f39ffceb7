/** Positions: opened by the first fill, averaged by fills of the same side, reduced and closed by the other side. */
module Positions {
  import opened Digits
  import opened Decimals
  import opened DecimalText
  import opened Orders
  import opened Bigs

  /** A position row; its numbers are stored as text. A long position has the side of the buyer. */
  datatype Position = Position(
    side: Side, quantity: string, entryPrice: string, markPrice: string, margin: string, realizedPnl: string)

  predicate ReadableRow(p: Position) {
    Readable(p.quantity) && Readable(p.entryPrice) && Readable(p.realizedPnl)
  }

  ghost function TextVal(s: string): real
    requires Readable(s)
  {
    BVal(FromText(s))
  }

  const ZERO_BIG := Big(0, 0, false)

  // ----- what each branch writes -----

  function Opened(side: Side, price: string, quantity: string, leverage: string): Option<Position>
    requires Readable(price) && Readable(quantity) && Readable(leverage)
  {
    match Div(Times(FromText(price), FromText(quantity)), FromText(leverage))
    case None => None
    case Some(margin) => Some(Position(side, quantity, price, price, ToText(margin), "0"))
  }

  function WeightedSum(p: Position, price: string, quantity: string): Big
    requires ReadableRow(p) && Readable(price) && Readable(quantity)
  {
    Plus(Times(FromText(p.entryPrice), FromText(p.quantity)), Times(FromText(price), FromText(quantity)))
  }

  /** The quantity-weighted average, by truncating division. */
  function Added(p: Position, price: string, quantity: string): Option<Position>
    requires ReadableRow(p) && Readable(price) && Readable(quantity)
  {
    var newQty := Plus(FromText(p.quantity), FromText(quantity));
    match Div(WeightedSum(p, price, quantity), newQty)
    case None => None
    case Some(entry) => Some(p.(quantity := ToText(newQty), entryPrice := ToText(entry), markPrice := price))
  }

  /** Whether a fill of the other side uses the position up; what it exceeds it by is dropped. */
  predicate UsesUp(p: Position, quantity: string)
    requires ReadableRow(p) && Readable(quantity)
  {
    Lte(Minus(FromText(p.quantity), FromText(quantity)), ZERO_BIG)
  }

  function Reduced(p: Position, price: string, quantity: string): Position
    requires ReadableRow(p) && Readable(price) && Readable(quantity)
  {
    p.(quantity := ToText(Minus(FromText(p.quantity), FromText(quantity))), markPrice := price)
  }

  function Closed(p: Position, price: string): Position
    requires ReadableRow(p) && Readable(price)
  {
    var pnl := Times(Times(Minus(FromText(price), FromText(p.entryPrice)), FromText(p.quantity)), Big(1, 0, p.side.Sell?));
    p.(quantity := "0", realizedPnl := ToText(Plus(FromText(p.realizedPnl), pnl)), markPrice := price)
  }

  /** The open positions by user and market, and the closed ones in the order they were closed. */
  class PositionTable {
    var open: map<(string, string), Position>
    var closed: seq<Position>

    ghost predicate Valid()
      reads this
    {
      forall k | k in open :: ReadableRow(open[k])
    }

    constructor ()
      ensures Valid() && open == map[] && closed == []
    {
      open, closed := map[], [];
    }

    /** One side of a trade. A division by zero fails it and changes nothing. */
    method UpsertPosition(userId: string, market: string, side: Side, price: string, quantity: string, leverage: string)
      returns (ok: bool)
      requires Valid() && Readable(price) && Readable(quantity) && Readable(leverage)
      modifies this
      ensures Valid()
      ensures
        var key := (userId, market);
        if key !in old(open) then
          match Opened(side, price, quantity, leverage)
          case None => !ok && open == old(open) && closed == old(closed)
          case Some(p) => ok && open == old(open)[key := p] && closed == old(closed)
        else if old(open)[key].side == side then
          match Added(old(open)[key], price, quantity)
          case None => !ok && open == old(open) && closed == old(closed)
          case Some(p) => ok && open == old(open)[key := p] && closed == old(closed)
        else if UsesUp(old(open)[key], quantity) then
          ok && open == old(open) - {key} && closed == old(closed) + [Closed(old(open)[key], price)]
        else
          ok && open == old(open)[key := Reduced(old(open)[key], price, quantity)] && closed == old(closed)
    {
      hide FromText, ToText, Div, Times, Plus, Minus, Lte, Readable;
      var key := (userId, market);
      if key !in open {
        var margin := Div(Times(FromText(price), FromText(quantity)), FromText(leverage));
        if margin.None? {
          return false;
        }
        ZeroReadable();
        open := open[key := Position(side, quantity, price, price, ToText(margin.value), "0")];
        return true;
      }
      var existing := open[key];
      if existing.side == side {
        var newQty := Plus(FromText(existing.quantity), FromText(quantity));
        var sum := Plus(Times(FromText(existing.entryPrice), FromText(existing.quantity)),
                        Times(FromText(price), FromText(quantity)));
        var newEntry := Div(sum, newQty);
        if newEntry.None? {
          return false;
        }
        TextRoundTrip(newQty);
        TextRoundTrip(newEntry.value);
        open := open[key := existing.(quantity := ToText(newQty), entryPrice := ToText(newEntry.value), markPrice := price)];
        return true;
      }
      var newQty := Minus(FromText(existing.quantity), FromText(quantity));
      if Lte(newQty, ZERO_BIG) {
        closed := closed + [Closed(existing, price)];
        open := open - {key};
      } else {
        TextRoundTrip(newQty);
        open := open[key := existing.(quantity := ToText(newQty), markPrice := price)];
      }
      return true;
    }
  }

  lemma ZeroReadable()
    ensures Readable("0")
  {
  }

  // ----- the average entry price -----

  /** If `lo` is a multiple of 10^-scale below the next one after `k`, it is at most the `k`-th. */
  lemma TruncationKeepsFloor(lo: Big, k: nat, scale: nat)
    requires lo.decimals <= scale && BVal(lo) < ValueOf(k + 1, scale)
    ensures BVal(lo) <= ValueOf(k, scale)
  {
    var l := Shift(SignedValue(lo), scale - lo.decimals);
    ValueOfShift(SignedValue(lo), lo.decimals, scale - lo.decimals);
    ValueOfLinear(l, k + 1, scale);
    ValueOfLinear(k, l, scale);
  }

  lemma WeightedWithin(e: real, p: real, n: real, q: real, lo: real, hi: real)
    requires lo <= e <= hi && lo <= p <= hi && n > 0.0 && q > 0.0
    ensures lo * (n + q) <= e * n + p * q <= hi * (n + q)
  {
    WeightedMonotone(lo, lo, e, p, n, q);
    WeightedMonotone(e, p, hi, hi, n, q);
    Distributes(lo, n, q);
    Distributes(hi, n, q);
  }

  lemma WeightedMonotone(a: real, b: real, c: real, d: real, n: real, q: real)
    requires a <= c && b <= d && n >= 0.0 && q >= 0.0
    ensures a * n + b * q <= c * n + d * q
  {
    ProductMonotone(a, c, n);
    ProductMonotone(b, d, q);
  }

  lemma Distributes(a: real, n: real, q: real)
    ensures a * (n + q) == a * n + a * q
  {
  }

  lemma ProductMonotone(a: real, b: real, n: real)
    requires a <= b && n >= 0.0
    ensures a * n <= b * n
  {
    var d := (b - a) * n;
    assert d >= 0.0 && d == b * n - a * n;
  }

  lemma ProductPositive(a: real, n: real)
    requires a > 0.0 && n > 0.0
    ensures a * n > 0.0
  {
  }

  /** Truncating division of a sum that lies within `lo` and `hi` times the divisor stays within `lo` and `hi`. */
  lemma QuotientWithin(x: Big, y: Big, lo: Big, hi: Big)
    requires BVal(y) > 0.0 && BVal(x) > 0.0 && lo.decimals <= DIV_SCALE
    requires BVal(lo) * BVal(y) <= BVal(x) <= BVal(hi) * BVal(y)
    ensures Div(x, y).Some? && BVal(lo) <= BVal(Div(x, y).value) <= BVal(hi)
  {
    BValSigned(x);
    BValSigned(y);
    DivTruncates(x, y);
    hide BVal, Div, ValueOf;
    var q: nat :| TruncatedQuotient(q, x, y) && BVal(Div(x, y).value) == QuotientValue(q, x);
    ProductReflects(QuotientValue(q, x), BVal(hi), BVal(y));
    ProductReflects(BVal(lo), QuotientValue(q + 1, x), BVal(y));
    TruncationKeepsFloor(lo, q, x.decimals + DIV_SCALE);
  }

  /** A readable position of this side and quantity with its entry price within bounds. */
  ghost predicate Holds(p: Position, side: Side, lo: real, hi: real, quantity: real) {
    && ReadableRow(p) && p.side == side
    && lo <= TextVal(p.entryPrice) <= hi
    && TextVal(p.quantity) == quantity && quantity > 0.0
  }

  /** One more fill of the same side: quantities add up, and the average stays within any bounds on the prices. */
  lemma AddedWithin(p: Position, price: string, quantity: string, lo: Big, hi: Big, held: real)
    requires Readable(price) && Readable(quantity) && lo.decimals <= DIV_SCALE && BVal(lo) > 0.0
    requires Holds(p, p.side, BVal(lo), BVal(hi), held) && BVal(lo) <= TextVal(price) <= BVal(hi)
    requires TextVal(quantity) > 0.0
    ensures Added(p, price, quantity).Some?
    ensures Holds(Added(p, price, quantity).value, p.side, BVal(lo), BVal(hi), held + TextVal(quantity))
  {
    hide FromText, ToText, BVal, Div, Times, Plus, Readable;
    var n, q := FromText(p.quantity), FromText(quantity);
    var y, x := Plus(n, q), WeightedSum(p, price, quantity);
    SumsExact(n, q);
    SumWithin(p, price, quantity, lo, hi, held);
    QuotientWithin(x, y, lo, hi);
    TextRoundTrip(y);
    TextRoundTrip(Div(x, y).value);
  }

  lemma SumWithin(p: Position, price: string, quantity: string, lo: Big, hi: Big, held: real)
    requires Readable(price) && Readable(quantity) && BVal(lo) > 0.0
    requires Holds(p, p.side, BVal(lo), BVal(hi), held) && BVal(lo) <= TextVal(price) <= BVal(hi)
    requires TextVal(quantity) > 0.0
    ensures var all := held + TextVal(quantity);
            BVal(lo) * all <= BVal(WeightedSum(p, price, quantity)) <= BVal(hi) * all
    ensures BVal(WeightedSum(p, price, quantity)) > 0.0
  {
    hide FromText, BVal, Times, Plus, Readable;
    var e, n, a, q := FromText(p.entryPrice), FromText(p.quantity), FromText(price), FromText(quantity);
    SumsExact(Times(e, n), Times(a, q));
    WeightedExact(e, n, a, q);
    WeightedWithin(BVal(e), BVal(a), BVal(n), BVal(q), BVal(lo), BVal(hi));
    ProductPositive(BVal(lo), BVal(n) + BVal(q));
  }

  lemma WeightedExact(e: Big, n: Big, a: Big, q: Big)
    ensures BVal(Plus(Times(e, n), Times(a, q))) == BVal(e) * BVal(n) + BVal(a) * BVal(q)
  {
    hide *;
    SumsExact(Times(e, n), Times(a, q));
    TimesExact(e, n);
    TimesExact(a, q);
  }

  /** A fill as the events report it. */
  datatype PricedFill = PricedFill(price: string, quantity: string)

  ghost predicate GoodFill(f: PricedFill) {
    && Readable(f.price) && Readable(f.quantity)
    && TextVal(f.price) > 0.0 && TextVal(f.quantity) > 0.0 && FromText(f.price).decimals <= DIV_SCALE
  }

  /** The position after fills of one side; None once a step has failed. */
  function AfterFills(side: Side, leverage: string, fills: seq<PricedFill>): (p: Option<Position>)
    requires Readable(leverage) && AllReadable(fills)
    ensures p.Some? ==> ReadableRow(p.value)
  {
    if fills == [] then None
    else
      var last := fills[|fills| - 1];
      if |fills| == 1 then
        ZeroReadable();
        Opened(side, last.price, last.quantity, leverage)
      else
        var before := AfterFills(side, leverage, fills[..|fills| - 1]);
        if before.None? then None else AddedReadable(before.value, last.price, last.quantity); Added(before.value, last.price, last.quantity)
  }

  lemma AddedReadable(p: Position, price: string, quantity: string)
    requires ReadableRow(p) && Readable(price) && Readable(quantity)
    ensures Added(p, price, quantity).Some? ==> ReadableRow(Added(p, price, quantity).value)
  {
    hide FromText, ToText, Div, Times, Plus, Readable;
    var newQty := Plus(FromText(p.quantity), FromText(quantity));
    var entry := Div(WeightedSum(p, price, quantity), newQty);
    TextRoundTrip(newQty);
    if entry.Some? {
      TextRoundTrip(entry.value);
    }
  }

  ghost function TotalQuantity(fills: seq<PricedFill>): real
    requires AllReadable(fills)
  {
    if fills == [] then 0.0 else TotalQuantity(fills[..|fills| - 1]) + TextVal(fills[|fills| - 1].quantity)
  }

  /** Fills of positive quantities and prices, with at most 18 decimals, within bounds. */
  ghost predicate FillsBetween(fills: seq<PricedFill>, lo: real, hi: real) {
    forall i | 0 <= i < |fills| :: GoodFill(fills[i]) && lo <= TextVal(fills[i].price) <= hi
  }

  predicate AllReadable(fills: seq<PricedFill>) {
    forall i | 0 <= i < |fills| :: Readable(fills[i].price) && Readable(fills[i].quantity)
  }

  lemma {:induction false} FillsWithin(side: Side, leverage: string, fills: seq<PricedFill>, lo: Big, hi: Big)
    requires Readable(leverage) && TextVal(leverage) != 0.0 && fills != [] && AllReadable(fills)
    requires FillsBetween(fills, BVal(lo), BVal(hi)) && lo.decimals <= DIV_SCALE && BVal(lo) > 0.0
    ensures AfterFills(side, leverage, fills).Some?
    ensures Holds(AfterFills(side, leverage, fills).value, side, BVal(lo), BVal(hi), TotalQuantity(fills))
    decreases |fills|
  {
    hide FromText, ToText, BVal, Div, Times, Plus, Readable, Added;
    var last, init := fills[|fills| - 1], fills[..|fills| - 1];
    assert GoodFill(last) && BVal(lo) <= TextVal(last.price) <= BVal(hi);
    if |fills| == 1 {
      assert init == [];
      ZeroReadable();
      DivTruncates(Times(FromText(last.price), FromText(last.quantity)), FromText(leverage));
    } else {
      assert forall i | 0 <= i < |init| :: init[i] == fills[i];
      FillsWithin(side, leverage, init, lo, hi);
      AddedWithin(AfterFills(side, leverage, init).value, last.price, last.quantity, lo, hi, TotalQuantity(init));
    }
  }

  /**
   * Over any sequence of fills of one side with prices of at most 18 decimals, the stored average entry price lies
   * between the lowest and the highest fill price, despite truncation; and the stored quantity is their exact sum.
   */
  lemma AverageInRange(side: Side, leverage: string, fills: seq<PricedFill>, lowest: PricedFill, highest: PricedFill)
    requires Readable(leverage) && TextVal(leverage) != 0.0 && AllReadable(fills)
    requires lowest in fills && highest in fills && Readable(lowest.price) && Readable(highest.price)
    requires FillsBetween(fills, TextVal(lowest.price), TextVal(highest.price))
    ensures AfterFills(side, leverage, fills).Some?
    ensures Holds(AfterFills(side, leverage, fills).value, side, TextVal(lowest.price), TextVal(highest.price), TotalQuantity(fills))
  {
    hide FromText, BVal, Readable, AfterFills, TotalQuantity, Holds;
    assert GoodFill(lowest);
    FillsWithin(side, leverage, fills, FromText(lowest.price), FromText(highest.price));
  }

  // ----- the other side -----

  /** A fill of the other side closes the position exactly when it is at least as large; otherwise it takes its quantity off. */
  lemma ReducesExactly(p: Position, price: string, quantity: string)
    requires ReadableRow(p) && Readable(price) && Readable(quantity)
    ensures UsesUp(p, quantity) <==> TextVal(quantity) >= TextVal(p.quantity)
    ensures ReadableRow(Reduced(p, price, quantity))
    ensures TextVal(Reduced(p, price, quantity).quantity) == TextVal(p.quantity) - TextVal(quantity)
  {
    var d := Minus(FromText(p.quantity), FromText(quantity));
    ValueOfZero(0);
    hide FromText, ToText, Minus, Readable, Lte;
    SumsExact(FromText(p.quantity), FromText(quantity));
    ComparisonsExactIff(d, ZERO_BIG);
    TextRoundTrip(d);
  }

  /** A long position gains when the price rises, a short one when it falls. */
  ghost function SideSign(side: Side): real {
    if side.Sell? then 0.0 - 1.0 else 1.0
  }

  lemma SignText(side: Side)
    ensures BVal(Big(1, 0, side.Sell?)) == SideSign(side)
  {
  }

  lemma GainExact(a: Big, e: Big, n: Big, sign: Big)
    ensures BVal(Times(Times(Minus(a, e), n), sign)) == (BVal(a) - BVal(e)) * BVal(n) * BVal(sign)
  {
    hide *;
    SumsExact(a, e);
    TimesExact(Minus(a, e), n);
    TimesExact(Times(Minus(a, e), n), sign);
  }

  /** Closing realizes the price difference on the whole quantity, with the sign of the side, exactly. */
  lemma CloseRealizes(p: Position, price: string)
    requires ReadableRow(p) && Readable(price)
    ensures ReadableRow(Closed(p, price)) && TextVal(Closed(p, price).quantity) == 0.0
    ensures TextVal(Closed(p, price).realizedPnl)
         == TextVal(p.realizedPnl) + (TextVal(price) - TextVal(p.entryPrice)) * TextVal(p.quantity) * SideSign(p.side)
  {
    hide FromText, ToText, BVal, Times, Plus, Minus, Readable, SideSign;
    var a, e, n, sign := FromText(price), FromText(p.entryPrice), FromText(p.quantity), Big(1, 0, p.side.Sell?);
    var pnl := Times(Times(Minus(a, e), n), sign);
    ZeroText();
    SignText(p.side);
    GainExact(a, e, n, sign);
    SumsExact(FromText(p.realizedPnl), pnl);
    TextRoundTrip(Plus(FromText(p.realizedPnl), pnl));
  }

  lemma ZeroText()
    ensures Readable("0") && TextVal("0") == 0.0
  {
    FromTextParts(false, "0", "");
    assert "0" + "" == "0" && "0"[..0] == "";
    assert Signed(false, Join("0", "")) == "0";
  }
}
