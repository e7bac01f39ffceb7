/** Where reservations and fills stop being exact, and precisely when. */
module Uncovered {
  import opened Digits
  import opened Decimals
  import opened Orders
  import opened Exchange
  import opened Discipline
  import opened Ledgers
  import opened Coverage
  import opened Providers
  import opened Margins

  // ----- price improvement -----

  lemma MarginStrict(p: real, q: real, x: real, leverage: real)
    requires x > 0.0 && leverage > 0.0
    ensures ExactMargin(p, x, leverage) == ExactMargin(q, x, leverage) <==> p == q
    ensures ExactMargin(p, x, leverage) <= ExactMargin(q, x, leverage) <==> p <= q
  {
    if p < q {
      MarginIncreases(p, q, x, leverage);
    } else if q < p {
      MarginIncreases(q, p, x, leverage);
    }
  }

  lemma MarginIncreases(p: real, q: real, x: real, leverage: real)
    requires p < q && x > 0.0 && leverage > 0.0
    ensures ExactMargin(p, x, leverage) < ExactMargin(q, x, leverage)
  {
    var n := (q - p) * x;
    assert n > 0.0;
    QuotientPositive(n, leverage);
    var a, b := p * x / leverage, q * x / leverage;
    assert (b - a) * leverage == n;
    assert b - a == n / leverage;
  }

  /**
   * A trade strands something of a user exactly when that user's limit order buys as taker at a better price, whoever the
   * maker is. How long it stays is said by `SystemRuns.StrandedStays` and `SystemRuns.EventSparesStrandedIff`.
   */
  lemma StrandsIffImproved(markets: Markets, t: Track, db: Db, quoted: Infos, tr: TradeView)
    requires QuotesOk(markets, t, db.orders, quoted) && RowsOk(markets, t, UserOrders(db.orders))
    requires EventOk(OrderedIn(db, quoted), t, Traded(tr)) && BuyerId(tr) in UserOrders(db.orders)
    ensures var o := UserOrders(db.orders)[BuyerId(tr)];
            && o.price.Some? && Improvement(o, tr.quantity, tr.price) >= 0.0
            && (Improvement(o, tr.quantity, tr.price) > 0.0
                <==> tr.takerSide.Buy? && o.kind.Limit? && tr.price < o.price.value)
  {
    TradeSides(markets, t, db, quoted, tr);
    OrderedUser(markets, t, db, quoted, BuyerId(tr));
    hide QuotesOk, OrderedIn, UserOrders;
    var o := UserOrders(db.orders)[BuyerId(tr)];
    assert RowOk(markets, t, BuyerId(tr), o);
    MarginStrict(tr.price, o.price.value, tr.quantity, o.leverage);
    hide ExactMargin;
  }

  // ----- truncated margins -----

  /**
   * Leverage three, one lock and two fills: 1 at price 1 locks 0.333333333333333333, and each half asks for
   * 0.1666666666666666666. The second half finds 2e-19 too little and is clamped.
   */
  lemma UnevenLeverageFallsShort(a: Account)
    ensures var start := map[a := Balance(1.0, 0.0)];
            var half := MarginOf(1.0, 0.5, 3.0);
            Locked(start, a, MarginOf(1.0, 1.0, 3.0)).Ok?
            && var b := LockedDebited(Locked(start, a, MarginOf(1.0, 1.0, 3.0)).value, a, half);
            Taken(b, a, half) == half - ValueOf(2, 19) && LockedOf(LockedDebited(b, a, half), a) == 0.0
  {
    LeverageThree();
    var whole, half := MarginOf(1.0, 1.0, 3.0), MarginOf(1.0, 0.5, 3.0);
    assert whole == Quotient(1.0, 3.0) by {
      assert 1.0 * 1.0 == 1.0;
    }
    assert half == Quotient(0.5, 3.0) by {
      assert 1.0 * 0.5 == 0.5;
    }
    hide Quotient;
    ThirdInUnits();
  }

  lemma ThirdInUnits()
    ensures var whole, half, unit := ValueOf(333_333_333_333_333_333, 18), ValueOf(1_666_666_666_666_666_666, 19), ValueOf(2, 19);
            0.0 < unit < half < whole < 1.0 && whole == half + half - unit
  {
    var third := 333_333_333_333_333_333;
    ValueOfShift(third, 18, 1);
    assert Shift(third, 1) == 3_333_333_333_333_333_330;
    var n, m := 1_666_666_666_666_666_666, 3_333_333_333_333_333_330;
    hide ValueOf;
    ValueOfLinear(n, n, 19);
    ValueOfLinear(m, 2, 19);
    ValueOfLinear(2, n, 19);
    ValueOfLinear(n, m, 19);
    ValueOfLinear(0, 2, 19);
    ValueOfZero(19);
    OneIs();
    ValueOfLinear(m, 10_000_000_000_000_000_000, 19);
  }

  lemma OneIs()
    ensures ValueOf(10_000_000_000_000_000_000, 19) == 1.0
  {
    Scaled18(1.0);
    ScaledValue(1.0, 10_000_000_000_000_000_000, 19);
  }

  // ----- market buys -----

  lemma DebitInFullIff(b: Balances, a: Account, amount: real)
    requires amount > 0.0 && LockedOf(b, a) >= 0.0
    ensures LockedOf(LockedDebited(b, a, amount), a) == LockedOf(b, a) - amount <==> amount <= LockedOf(b, a)
  {
  }

  /**
   * A market buy reserves at the price its sender names, which does not bound execution. At leverage that divides evenly,
   * settling it at price `q` is in full if and only if what `q` costs beyond the named price is locked in the account by
   * other orders; with nothing else locked, if and only if `q` is no worse than the named price.
   */
  lemma MarketBuyCoveredIff(markets: Markets, b: Balances, i: PlaceInput, q: real)
    requires i.market in markets && i.kind.Market? && i.side.Buy? && i.price.Some?
    requires i.price.value > 0.0 && i.quantity > 0.0 && ExactLeverage(LeverageOf(i)) && q > 0.0
    requires Ledgers.Reserved(markets, b, i).Ok?
    requires LockedOf(b, Account(i.userId, markets[i.market].quoteAsset)) >= 0.0
    ensures var a := Account(i.userId, markets[i.market].quoteAsset);
            var reserved := Ledgers.Reserved(markets, b, i).value;
            var due := MarginOf(q, i.quantity, LeverageOf(i));
            var beyond := ExactMargin(q, i.quantity, LeverageOf(i)) - ExactMargin(i.price.value, i.quantity, LeverageOf(i));
            && (LockedOf(LockedDebited(reserved, a, due), a) == LockedOf(reserved, a) - due <==> beyond <= LockedOf(b, a))
            && (LockedOf(b, a) == 0.0 ==> (beyond <= LockedOf(b, a) <==> q <= i.price.value))
  {
    var a, lev := Account(i.userId, markets[i.market].quoteAsset), LeverageOf(i);
    MarginRounds(q, i.quantity, lev);
    MarginRounds(i.price.value, i.quantity, lev);
    MarginPositive(q, i.quantity, lev);
    MarginPositive(i.price.value, i.quantity, lev);
    MarginStrict(q, i.price.value, i.quantity, lev);
    hide MarginOf, ExactMargin;
    LockAdds(b, a, MarginOf(i.price.value, i.quantity, lev));
    DebitInFullIff(Ledgers.Reserved(markets, b, i).value, a, MarginOf(q, i.quantity, lev));
  }

  // ----- the liquidity provider -----

  /** The synthetic rows: existing rows stay, and what is added belongs to the provider and is born filled. */
  lemma ExternalRowsOnlyAdd(orders: map<string, OrderRow>, t: TradeView)
    ensures var rows := WithExternalRows(orders, t);
            && (forall id | id in orders :: id in rows && rows[id] == orders[id])
            && (forall id | id in rows && id !in orders ::
                  && (id == t.makerOrderId || id == t.takerOrderId)
                  && rows[id].userId == EXTERNAL_USER_ID && rows[id].status.Filled?
                  && rows[id].filled == rows[id].quantity == t.quantity)
  {
  }

  /** A trade of the provider's order `id` with a known order of a user. */
  ghost predicate ProviderTrade(markets: Markets, orders: map<string, OrderRow>, id: string, t: TradeView) {
    && t.market in markets && t.makerUserId == EXTERNAL_USER_ID && t.makerOrderId == id && IsUuid(id)
    && t.takerUserId != EXTERNAL_USER_ID && t.takerOrderId in orders && t.takerOrderId != id && t.quantity > 0.0
  }

  ghost function TradesHandled(markets: Markets, db: Db, ts: seq<TradeView>): Db {
    if ts == [] then db
    else TradeHandled(markets, TradesHandled(markets, db, ts[..|ts| - 1]), ts[|ts| - 1])
  }

  ghost function QuantityOf(ts: seq<TradeView>): real {
    if ts == [] then 0.0 else QuantityOf(ts[..|ts| - 1]) + ts[|ts| - 1].quantity
  }

  /**
   * The provider's order has no row before its first trade. That trade leaves a row of exactly its quantity, filled; the
   * quantity stays that of the first trade while every later trade adds to the fill. So the fill stays within the
   * quantity if and only if there is one trade.
   */
  lemma {:induction false} ProviderRowFollowsTrades(markets: Markets, db: Db, ts: seq<TradeView>, id: string)
    requires id !in db.orders && ts != []
    requires forall i | 0 <= i < |ts| :: ProviderTrade(markets, db.orders, id, ts[i])
    ensures var orders := TradesHandled(markets, db, ts).orders;
            && id in orders && orders[id].quantity == ts[0].quantity && orders[id].filled == QuantityOf(ts)
            && (orders[id].filled <= orders[id].quantity <==> |ts| == 1)
            && db.orders.Keys <= orders.Keys
    decreases |ts|
  {
    var init, last := ts[..|ts| - 1], ts[|ts| - 1];
    assert ProviderTrade(markets, db.orders, id, last);
    assert forall i | 0 <= i < |init| :: init[i] == ts[i];
    if init == [] {
      FirstProviderTrade(markets, db, last, id);
    } else {
      ProviderRowFollowsTrades(markets, db, init, id);
      LaterProviderTrade(markets, TradesHandled(markets, db, init), last, id);
      assert ProviderTrade(markets, db.orders, id, init[0]);
      QuantityGrows(markets, db.orders, id, init);
    }
  }

  lemma {:induction false} QuantityGrows(markets: Markets, orders: map<string, OrderRow>, id: string, ts: seq<TradeView>)
    requires ts != [] && forall i | 0 <= i < |ts| :: ProviderTrade(markets, orders, id, ts[i])
    ensures QuantityOf(ts) >= ts[0].quantity
    decreases |ts|
  {
    var init := ts[..|ts| - 1];
    assert ProviderTrade(markets, orders, id, ts[|ts| - 1]);
    if init != [] {
      assert forall i | 0 <= i < |init| :: init[i] == ts[i];
      QuantityGrows(markets, orders, id, init);
    } else {
      assert QuantityOf(init) == 0.0;
    }
  }

  lemma FirstProviderTrade(markets: Markets, db: Db, t: TradeView, id: string)
    requires ProviderTrade(markets, db.orders, id, t) && id !in db.orders
    ensures var orders := TradeHandled(markets, db, t).orders;
            && id in orders && orders[id].filled == orders[id].quantity == t.quantity && db.orders.Keys <= orders.Keys
  {
    hide Settled, IsUuid;
  }

  lemma LaterProviderTrade(markets: Markets, db: Db, t: TradeView, id: string)
    requires ProviderTrade(markets, db.orders, id, t) && id in db.orders
    ensures var orders := TradeHandled(markets, db, t).orders;
            && id in orders && orders[id].filled == db.orders[id].filled + t.quantity
            && orders[id].quantity == db.orders[id].quantity && db.orders.Keys <= orders.Keys
  {
    hide Settled, IsUuid;
  }

  /**
   * The fallback's maker id is not one an id column holds, so its trade is dropped: the engine reports the order filled,
   * the row is marked filled without a fill, and what it reserved stays locked.
   */
  lemma FallbackTradeIsDropped(markets: Markets, db: Db, o: OrderView, remaining: real, price: real, filled: real, shown: Option<real>)
    requires o.id in db.orders
    ensures var t := MarkTrade(o, remaining, price);
            && TradeHandled(markets, db, t) == db
            && var after := Handled(markets, Handled(markets, db, Traded(t)), Completed(o.id, o.terms.market, o.userId, filled, shown));
               && after.balances == db.balances && after.orders[o.id].status.Filled?
               && after.orders[o.id].filled == db.orders[o.id].filled
  {
    var t := MarkTrade(o, remaining, price);
    assert t.makerOrderId[1] == 'i';
    assert !IsUuid(t.makerOrderId);
  }
}
