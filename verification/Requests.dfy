/** What requests are granted, what becomes of them, and what is written down: each said of the request and the rows alone. */
module Requests {
  import opened Orders
  import opened Greedy
  import opened BookSpec
  import opened Exchange
  import opened Ledgers
  import opened Coverage
  import opened Servers
  import opened Outcomes
  import opened Funds

  // ----- placing -----

  ghost function WithLeverage(i: PlaceInput): real {
    if i.leverage.Some? then i.leverage.value else 1.0
  }

  /** The market takes such an order. */
  ghost predicate Admissible(markets: Markets, i: PlaceInput) {
    && i.market in markets
    && var m := markets[i.market];
       && m.active
       && 0.0 < i.quantity && m.minOrderSize <= i.quantity <= m.maxOrderSize
       && (i.kind.Limit? ==> i.price.Some?) && (i.price.Some? ==> i.price.value > 0.0)
       && WithLeverage(i) <= m.maxLeverage
  }

  /** The user has already sent an order under this client id. */
  ghost predicate Repeated(orders: map<string, OrderRow>, i: PlaceInput) {
    i.clientOrderId.Some?
    && exists x :: x in orders && orders[x].userId == i.userId && orders[x].clientOrderId == Some(i.clientOrderId.value)
  }

  /** The user has what the order reserves: the margin in quote for a buy, which has to name a price, the quantity in base for a sell. */
  ghost predicate Affordable(markets: Markets, b: Balances, i: PlaceInput)
    requires i.market in markets
  {
    var quote, base := Account(i.userId, markets[i.market].quoteAsset), Account(i.userId, markets[i.market].baseAsset);
    if i.side.Buy? then
      && i.price.Some? && WithLeverage(i) != 0.0
      && var margin := MarginOf(i.price.value, i.quantity, WithLeverage(i));
         margin <= 0.0 || (quote in b && margin <= b[quote].available)
    else base in b && i.quantity <= b[base].available
  }

  lemma AdmissibleIs(markets: Markets, i: PlaceInput)
    ensures Admissible(markets, i) <==> Invalid(markets, i).None?
  {
  }

  lemma RepeatedIs(orders: map<string, OrderRow>, i: PlaceInput)
    ensures Repeated(orders, i) <==> exists x | x in orders :: SameClient(orders[x], i)
  {
    if x :| x in orders && SameClient(orders[x], i) {
      assert orders[x].clientOrderId == Some(i.clientOrderId.value);
    }
    if Repeated(orders, i) {
      var x :| x in orders && orders[x].userId == i.userId && orders[x].clientOrderId == Some(i.clientOrderId.value);
      assert SameClient(orders[x], i);
    }
  }

  lemma AffordableIs(markets: Markets, b: Balances, i: PlaceInput)
    requires i.market in markets && i.quantity > 0.0
    ensures Affordable(markets, b, i) <==> Ledgers.Reserved(markets, b, i).Ok?
  {
    hide MarginOf;
  }

  /**
   * A request places an order if and only if the market takes it, its client id is new to this user, and the user can
   * afford it; it returns the earlier order if and only if the market takes it and the client id is not new. What is
   * written is one open row with the request's own numbers.
   */
  lemma PlacedIff(markets: Markets, db: Db, i: PlaceInput, id: string)
    ensures var r := Placement(markets, db, i, id);
            && (r.Created? <==> Admissible(markets, i) && !Repeated(db.orders, i) && Affordable(markets, db.balances, i))
            && (r.Existing? <==> Admissible(markets, i) && Repeated(db.orders, i))
            && (r.Created? ==>
                  r.db.orders == db.orders[id := OrderRow(i.userId, i.market, i.kind, i.side, i.price, i.quantity, 0.0,
                                                          OrderStatus.Open, WithLeverage(i), i.clientOrderId)])
  {
    AdmissibleIs(markets, i);
    RepeatedIs(db.orders, i);
    if Admissible(markets, i) {
      AffordableIs(markets, db.balances, i);
    }
    hide Invalid, Ledgers.Reserved, SameClient, Affordable, Repeated;
  }

  /** The checks in the service's order, each with the error it reports. */
  ghost function Checks(m: MarketRow, i: PlaceInput): seq<(bool, ApiError)> {
    [(m.active, MarketNotActive), (i.quantity > 0.0, QuantityMustBePositive), (i.quantity >= m.minOrderSize, QuantityBelowMin),
     (i.quantity <= m.maxOrderSize, QuantityAboveMax), (i.kind.Limit? ==> i.price.Some?, LimitOrderRequiresPrice),
     (i.price.Some? ==> i.price.value > 0.0, PriceMustBePositive), (WithLeverage(i) <= m.maxLeverage, LeverageExceedsMax)]
  }

  /** The error reported is that of the first check that fails. */
  lemma FirstFailureReported(markets: Markets, db: Db, i: PlaceInput, id: string, k: nat)
    requires i.market in markets && k < |Checks(markets[i.market], i)|
    requires !Checks(markets[i.market], i)[k].0 && forall j | 0 <= j < k :: Checks(markets[i.market], i)[j].0
    ensures Placement(markets, db, i, id) == Refused(Checks(markets[i.market], i)[k].1)
  {
    var cs := Checks(markets[i.market], i);
    assert k > 0 ==> cs[0].0;
    assert k > 1 ==> cs[1].0;
    assert k > 2 ==> cs[2].0;
    assert k > 3 ==> cs[3].0;
    assert k > 4 ==> cs[4].0;
    assert k > 5 ==> cs[5].0;
    hide Ledgers.Reserved, SameClient;
  }

  /** And what is reported of an order that the market takes but the user cannot have. */
  lemma RefusalReported(markets: Markets, db: Db, i: PlaceInput, id: string)
    requires Admissible(markets, i) && !Repeated(db.orders, i) && !Affordable(markets, db.balances, i)
    ensures var m := markets[i.market];
            var a := Account(i.userId, if i.side.Buy? then m.quoteAsset else m.baseAsset);
            Placement(markets, db, i, id)
            == Refused(if i.side.Buy? && i.price.None? then MarketBuyRequiresPrice
                       else if i.side.Buy? && WithLeverage(i) == 0.0 then DivisionByZero
                       else if a !in db.balances then BalanceNotFound
                       else InsufficientBalance)
  {
    AdmissibleIs(markets, i);
    RepeatedIs(db.orders, i);
    hide MarginOf, Invalid, SameClient;
  }

  lemma UnknownMarket(markets: Markets, db: Db, i: PlaceInput, id: string)
    requires i.market !in markets
    ensures Placement(markets, db, i, id) == Refused(MarketNotFound)
  {
  }

  /**
   * What the user asked for is what the engine does with the order the request sends: it is the user's, for this side,
   * price and quantity; post-only limit orders never take, fill-or-kill limit orders trade all or nothing, only
   * good-till-canceled limit orders rest, and no limit order trades beyond its price.
   */
  lemma AskedIsDone(b: Book, i: PlaceInput, id: string)
    requires Inv(b) && i.market == b.market && i.quantity > 0.0 && !b.Has(id) && (i.kind.Limit? ==> i.price.Some?)
    ensures var o := OrderSent(id, i); var p := Place(b, o);
            && o.id == id && o.userId == i.userId && o.side == i.side && o.quantity == i.quantity && o.leverage == WithLeverage(i)
            && Placeable(b, o)
            && (i.kind.Limit? && i.postOnly ==> p.trades == [])
            && (i.kind.Limit? && i.tif.FOK? ==> p.filled == 0.0 || p.filled == i.quantity)
            && (!(i.kind.Limit? && i.tif.GTC?) ==> !p.book.Has(id))
            && (i.kind.Limit? ==>
                  forall k | 0 <= k < |p.trades| ::
                    if i.side.Buy? then p.trades[k].price <= i.price.value else p.trades[k].price >= i.price.value)
            && (forall k | 0 <= k < |p.trades| ::
                  p.trades[k].takerOrderId == id && p.trades[k].takerUserId == i.userId && p.trades[k].takerSide == i.side)
  {
    var o := OrderSent(id, i);
    var p := Place(b, o);
    AskedOutcome(b, i, id);
    hide Place, Inv;
    forall k | 0 <= k < |p.trades|
      ensures i.kind.Limit? ==> if i.side.Buy? then p.trades[k].price <= i.price.value else p.trades[k].price >= i.price.value
      ensures p.trades[k].takerOrderId == id && p.trades[k].takerUserId == i.userId && p.trades[k].takerSide == i.side
    {
      TradeIs(b, o, k);
    }
  }

  lemma AskedOutcome(b: Book, i: PlaceInput, id: string)
    requires Inv(b) && i.market == b.market && i.quantity > 0.0 && !b.Has(id) && (i.kind.Limit? ==> i.price.Some?)
    ensures var o := OrderSent(id, i); var p := Place(b, o);
            && Placeable(b, o)
            && (i.kind.Limit? && i.postOnly ==> p.trades == [])
            && (i.kind.Limit? && i.tif.FOK? ==> p.filled == 0.0 || p.filled == i.quantity)
            && (!(i.kind.Limit? && i.tif.GTC?) ==> !p.book.Has(id))
  {
    var o := OrderSent(id, i);
    OutcomeIs(b, o);
    if i.kind.Limit? && i.postOnly {
      PostOnlyNeverTakes(b, o);
    }
    if !Place(b, o).status.Rejected? {
      RestsOnBook(b, o);
    }
    hide Place, Inv, AcceptedVolume, WouldTake;
  }

  /** The rest of what the request says travels with the order unread. */
  lemma AskedIsSent(i: PlaceInput, id: string)
    ensures var t := OrderSent(id, i).terms;
            && t.market == i.market && t.kind == i.kind && t.tif == i.tif && t.postOnly == i.postOnly
            && t.reduceOnly == i.reduceOnly && t.marginMode == i.marginMode && t.timestamp == i.timestamp
            && (i.clientOrderId.Some? ==> t.clientOrderId == i.clientOrderId.value)
            && (i.clientOrderId.None? ==> t.clientOrderId == "")
  {
  }

  // ----- canceling -----

  ghost predicate StillOpen(o: OrderRow) {
    o.status.Pending? || o.status.Open? || o.status.PartiallyFilled?
  }

  /** A cancel request is granted if and only if the order is the user's and still open; it marks that row and nothing else. */
  lemma CancelGrantedIff(db: Db, id: string, userId: string)
    ensures var r := CancelRequested(db, id, userId);
            && (r.Ok? <==> id in db.orders && db.orders[id].userId == userId && StillOpen(db.orders[id]))
            && (r.Ok? ==> r.value == Db(db.balances, db.orders[id := db.orders[id].(status := OrderStatus.Canceled)]))
            && (r.Err? ==> r.error == if id in db.orders && db.orders[id].userId == userId then OrderNotCancellable else OrderNotFound)
  {
  }

  /** The order is one that a withdrawal of all the user's orders, in one market or in all, is about. */
  ghost predicate Withdrawable(markets: Markets, o: OrderRow, userId: string, market: Option<string>) {
    o.userId == userId && StillOpen(o) && (market.Some? ==> market.value in markets && o.market == market.value)
  }

  /** Withdrawing all of a user's orders marks exactly those rows, and sends one cancel for each. */
  lemma CancelAllIs(markets: Markets, orders: map<string, OrderRow>, userId: string, market: Option<string>, order: seq<string>)
    requires Enumerates(order, OpenIds(markets, orders, userId, market))
    ensures var after := AllCanceled(orders, OpenIds(markets, orders, userId, market));
            && after.Keys == orders.Keys
            && forall id | id in orders ::
                 after[id] == if Withdrawable(markets, orders[id], userId, market) then orders[id].(status := OrderStatus.Canceled)
                              else orders[id]
    ensures var cs := CancelCommands(orders, order, userId);
            && |cs| == |order|
            && (forall k | 0 <= k < |order| ::
                  && order[k] in orders && Withdrawable(markets, orders[order[k]], userId, market)
                  && cs[k] == CancelCommand(orders[order[k]].market, order[k], userId))
            && (forall id | id in orders && Withdrawable(markets, orders[id], userId, market) :: id in order)
            && (forall j, k | 0 <= j < k < |order| :: order[j] != order[k])
  {
    var ids := OpenIds(markets, orders, userId, market);
    assert forall id :: id in ids <==> id in orders && Withdrawable(markets, orders[id], userId, market);
    hide OpenIds, Withdrawable;
    EnumeratesMeans(order, ids);
  }

  lemma EnumeratesMeans(order: seq<string>, ids: set<string>)
    requires Enumerates(order, ids)
    ensures forall k | 0 <= k < |order| :: order[k] in ids
    ensures forall id | id in ids :: id in order
    ensures forall j, k | 0 <= j < k < |order| :: order[j] != order[k]
  {
    forall k | 0 <= k < |order|
      ensures order[k] in ids
    {
      assert order[k] in multiset(order);
    }
    forall id | id in ids
      ensures id in order
    {
      assert id in multiset(ids) && id in multiset(order);
    }
    forall j, k | 0 <= j < k < |order|
      ensures order[j] != order[k]
    {
      assert multiset(ids)[order[j]] <= 1;
      if order[j] == order[k] {
        TwiceCounted(order, j, k);
      }
    }
  }

  lemma TwiceCounted(order: seq<string>, j: nat, k: nat)
    requires j < k < |order| && order[j] == order[k]
    ensures multiset(order)[order[j]] >= 2
  {
    var p, q := order[..k], order[k..];
    assert order == p + q;
    assert p[j] == order[j] && q[0] == order[k];
    assert order[j] in multiset(p) && order[j] in multiset(q);
  }

  // ----- recording a trade -----

  /** A fill on a row adds to what is filled, fixes a missing price, and says whether the order is done; all else stays. */
  lemma FillIs(orders: map<string, OrderRow>, id: string, quantity: real, price: real)
    ensures id !in orders ==> TradeApplied(orders, id, quantity, price) == orders
    ensures id in orders ==>
              var o := orders[id];
              TradeApplied(orders, id, quantity, price)
              == orders[id := OrderRow(o.userId, o.market, o.kind, o.side, Some(if o.price.Some? then o.price.value else price),
                                       o.quantity, o.filled + quantity,
                                       if o.filled + quantity >= o.quantity then OrderStatus.Filled
                                       else if o.filled + quantity > 0.0 then OrderStatus.PartiallyFilled else o.status,
                                       o.leverage, o.clientOrderId)]
  {
  }

  /** The recorded fill: the trade, the maker's fee at the maker's rate, the taker's at the taker's. */
  lemma FeesRecorded(m: MarketRow, t: TradeView)
    ensures FillOf(m, t).trade == t
    ensures FillOf(m, t).makerFee == t.price * t.quantity * m.makerFeeBps as real / 10000.0
    ensures FillOf(m, t).takerFee == t.price * t.quantity * m.takerFeeBps as real / 10000.0
  {
    FeeIs(t, m.makerFeeBps);
    FeeIs(t, m.takerFeeBps);
  }

  /** A row made up for the provider: filled, at the trade's price and quantity, on its own side of the trade. */
  lemma SyntheticRowIs(orders: map<string, OrderRow>, t: TradeView, id: string)
    requires id !in orders && id in WithExternalRows(orders, t)
    ensures id == t.makerOrderId || id == t.takerOrderId
    ensures var o := WithExternalRows(orders, t)[id];
            && o.userId == EXTERNAL_USER_ID && o.market == t.market && o.kind.Limit? && o.price == Some(t.price)
            && o.quantity == o.filled == t.quantity && o.status.Filled? && o.leverage == 1.0
            && (o.side == t.takerSide <==> !(id == t.makerOrderId && t.makerUserId == EXTERNAL_USER_ID))
  {
  }

  /** A trade whose provider has an order id that no id column holds changes nothing, on whichever side the provider is. */
  lemma UnreadableIsDropped(markets: Markets, db: Db, t: TradeView)
    requires (t.makerUserId == EXTERNAL_USER_ID && |t.makerOrderId| != 36) || (t.takerUserId == EXTERNAL_USER_ID && |t.takerOrderId| != 36)
    ensures TradeHandled(markets, db, t) == db
  {
  }

  /** An id as the column holds it: 36 characters, hyphens between groups of 8, 4, 4, 4 and 12, hexadecimal digits elsewhere. */
  lemma UuidIs(id: string)
    ensures IsUuid(id) <==>
              |id| == 36
              && forall i | 0 <= i < |id| ::
                   if i in {8, 13, 18, 23} then id[i] == '-' else id[i] in "0123456789abcdefABCDEF"
  {
    forall c: char
      ensures IsHex(c) <==> c in "0123456789abcdefABCDEF"
    {
      HexIs(c);
    }
    hide IsHex;
  }

  lemma HexIs(c: char)
    ensures IsHex(c) <==> c in "0123456789abcdefABCDEF"
  {
    var digits, lower, upper := "0123456789", "abcdef", "ABCDEF";
    assert digits + lower + upper == "0123456789abcdefABCDEF";
    if '0' <= c <= '9' {
      assert digits[c as int - '0' as int] == c;
    } else if 'a' <= c <= 'f' {
      assert lower[c as int - 'a' as int] == c;
    } else if 'A' <= c <= 'F' {
      assert upper[c as int - 'A' as int] == c;
    }
  }
}
