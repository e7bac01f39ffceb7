/**
 * The server's side in its own form: requests and event handlers that read and rewrite balance and order rows step by
 * step, each proved against the function of the old rows that the accounting argument is about.
 */
module Servers {
  import opened Orders
  import opened Exchange
  import opened Ledgers
  import Margins

  /** A recorded trade, with both fees. */
  datatype Fill = Fill(trade: TradeView, makerFee: real, takerFee: real)

  datatype PlaceReply = Placed(order: OrderRow) | Idempotent(order: OrderRow) | Failed(error: ApiError)

  ghost function HandledAll(markets: Markets, db: Db, evs: seq<EventView>): Db
    decreases |evs|
  {
    if evs == [] then db else HandledAll(markets, Handled(markets, db, evs[0]), evs[1..])
  }

  lemma {:induction false} HandledOneMore(markets: Markets, db: Db, evs: seq<EventView>, k: nat)
    requires k < |evs|
    ensures HandledAll(markets, db, evs[..k + 1]) == Handled(markets, HandledAll(markets, db, evs[..k]), evs[k])
    decreases k
  {
    hide Handled;
    if k > 0 {
      assert evs[..k + 1][1..] == evs[1..][..k] && evs[..k][1..] == evs[1..][..k - 1];
      HandledOneMore(markets, Handled(markets, db, evs[0]), evs[1..], k - 1);
    } else {
      assert evs[..1][1..] == [] && evs[..0] == [];
    }
  }

  /** A fill needs its market and, for its foreign keys, both order rows. */
  ghost predicate Recorded(markets: Markets, db: Db, t: TradeView) {
    && t.market in markets && ExternalIdsReadable(t)
    && t.takerOrderId in WithExternalRows(db.orders, t) && t.makerOrderId in WithExternalRows(db.orders, t)
  }

  ghost function FillOf(m: MarketRow, t: TradeView): Fill {
    Fill(t, Fee(t, m.makerFeeBps), Fee(t, m.takerFeeBps))
  }

  /** What one event adds to the recorded fills. */
  ghost function NewFills(markets: Markets, db: Db, ev: EventView): seq<Fill> {
    if ev.Traded? && Recorded(markets, db, ev.trade) then [FillOf(markets[ev.trade.market], ev.trade)] else []
  }

  ghost function FillsOf(markets: Markets, db: Db, evs: seq<EventView>): seq<Fill>
    decreases |evs|
  {
    if evs == [] then [] else NewFills(markets, db, evs[0]) + FillsOf(markets, Handled(markets, db, evs[0]), evs[1..])
  }

  lemma {:induction false} FillsOneMore(markets: Markets, db: Db, evs: seq<EventView>, k: nat)
    requires k < |evs|
    ensures FillsOf(markets, db, evs[..k + 1])
         == FillsOf(markets, db, evs[..k]) + NewFills(markets, HandledAll(markets, db, evs[..k]), evs[k])
    decreases k
  {
    hide Handled, NewFills;
    if k > 0 {
      assert evs[..k + 1][1..] == evs[1..][..k] && evs[..k][1..] == evs[1..][..k - 1];
      FillsOneMore(markets, Handled(markets, db, evs[0]), evs[1..], k - 1);
    } else {
      assert evs[..1][1..] == [] && evs[..0] == [];
    }
  }

  predicate Cancellable(o: OrderRow) {
    !(o.status.Filled? || o.status.Canceled? || o.status.Rejected? || o.status.Expired?)
  }

  predicate OpenFor(o: OrderRow, userId: string, market: Option<string>) {
    && o.userId == userId && (o.status.Open? || o.status.PartiallyFilled? || o.status.Pending?)
    && (market.Some? ==> o.market == market.value)
  }

  ghost function OpenIds(markets: Markets, orders: map<string, OrderRow>, userId: string, market: Option<string>): (ids: set<string>)
    ensures ids <= orders.Keys
  {
    if market.Some? && market.value !in markets then {}
    else set id | id in orders && OpenFor(orders[id], userId, market)
  }

  ghost function AllCanceled(orders: map<string, OrderRow>, ids: set<string>): map<string, OrderRow> {
    map id | id in orders :: if id in ids then orders[id].(status := OrderStatus.Canceled) else orders[id]
  }

  ghost function CancelCommands(orders: map<string, OrderRow>, order: seq<string>, userId: string): seq<Command> {
    seq(|order|, k requires 0 <= k < |order| =>
      CancelCommand(if order[k] in orders then orders[order[k]].market else "", order[k], userId))
  }

  /** Every id once, in some order. */
  ghost predicate Enumerates(order: seq<string>, ids: set<string>) {
    multiset(order) == multiset(ids)
  }

  /** A loop over a set: what is left and what is done. */
  ghost predicate Split(left: set<string>, done: set<string>, all: set<string>) {
    left == all - done && done <= all
  }

  lemma NoneMoved(all: set<string>)
    ensures Split(all, {}, all)
    ensures forall done | Split({}, done, all) :: done == all
  {
  }

  lemma MoveOne(left: set<string>, done: set<string>, all: set<string>, id: string)
    requires Split(left, done, all) && id in left
    ensures id !in done && Split(left - {id}, done + {id}, all)
  {
  }

  lemma OpenCancels(db: Db, id: string, userId: string, market: Option<string>)
    requires id in db.orders && OpenFor(db.orders[id], userId, market)
    ensures CancelRequested(db, id, userId) == Ok(Db(db.balances, StatusSet(db.orders, id, OrderStatus.Canceled)))
  {
  }

  lemma NoneCanceled(orders: map<string, OrderRow>, userId: string)
    ensures AllCanceled(orders, {}) == orders && CancelCommands(orders, [], userId) == []
    ensures Enumerates([], {})
  {
  }

  lemma OneMoreCanceled(orders: map<string, OrderRow>, done: set<string>, id: string, order: seq<string>, userId: string)
    requires id in orders && id !in done && Enumerates(order, done)
    ensures AllCanceled(orders, done + {id}) == StatusSet(AllCanceled(orders, done), id, OrderStatus.Canceled)
    ensures CancelCommands(orders, order + [id], userId)
         == CancelCommands(orders, order, userId) + [CancelCommand(orders[id].market, id, userId)]
    ensures Enumerates(order + [id], done + {id})
    ensures id in AllCanceled(orders, done) && AllCanceled(orders, done)[id] == orders[id]
  {
  }

  /** `divide` is the division of the server's decimals, read as numbers. */
  ghost predicate DividesLikeServer(divide: (real, real) -> real) {
    forall c: real, l: real :: divide(c, l) == Margins.Quotient(c, l)
  }

  lemma MarginDivided(divide: (real, real) -> real, cost: real, price: real, quantity: real, leverage: real)
    requires DividesLikeServer(divide) && cost == price * quantity
    ensures divide(cost, leverage) == MarginOf(price, quantity, leverage)
  {
    hide Margins.Quotient;
    assert divide(cost, leverage) == Margins.Quotient(cost, leverage);
  }

  class Server {
    const markets: Markets
    const divide: (real, real) -> real
    var balances: Balances
    var orders: map<string, OrderRow>
    var fills: seq<Fill>
    var stream: seq<Command>

    constructor (markets: Markets, divide: (real, real) -> real)
      ensures this.markets == markets && this.divide == divide && Contents() == Db(map[], map[]) && fills == [] && stream == []
    {
      this.markets := markets;
      this.divide := divide;
      balances := map[];
      orders := map[];
      fills := [];
      stream := [];
    }

    ghost function Contents(): Db
      reads this`balances, this`orders
    {
      Db(balances, orders)
    }

    // ----- balances -----

    method LockBalance(a: Account, amount: real) returns (error: Option<ApiError>)
      modifies this`balances
      ensures match Locked(old(balances), a, amount)
              case Ok(b) => error.None? && balances == b
              case Err(e) => error == Some(e) && balances == old(balances)
    {
      if !(amount > 0.0) {
        return None;
      }
      if a !in balances {
        return Some(BalanceNotFound);
      }
      var bal := balances[a];
      if !(bal.available >= amount) {
        return Some(InsufficientBalance);
      }
      balances := balances[a := Balance(bal.available - amount, bal.locked + amount)];
      return None;
    }

    method UnlockBalance(a: Account, amount: real)
      modifies this`balances
      ensures balances == Unlocked(old(balances), a, amount)
    {
      if !(amount > 0.0) || a !in balances {
        return;
      }
      var bal := balances[a];
      var unlockQty := if bal.locked >= amount then amount else bal.locked;
      balances := balances[a := Balance(bal.available + unlockQty, bal.locked - unlockQty)];
    }

    method DebitLocked(a: Account, amount: real)
      modifies this`balances
      ensures balances == LockedDebited(old(balances), a, amount)
    {
      if !(amount > 0.0) || a !in balances {
        return;
      }
      var bal := balances[a];
      var debitQty := if bal.locked >= amount then amount else bal.locked;
      balances := balances[a := bal.(locked := bal.locked - debitQty)];
    }

    method CreditAvailable(a: Account, amount: real)
      modifies this`balances
      ensures balances == Credited(old(balances), a, amount)
    {
      if a in balances {
        balances := balances[a := balances[a].(available := balances[a].available + amount)];
      } else {
        balances := balances[a := Balance(amount, 0.0)];
      }
    }

    method DebitAvailable(a: Account, amount: real)
      modifies this`balances
      ensures balances == AvailableDebited(old(balances), a, amount)
    {
      if a in balances {
        balances := balances[a := balances[a].(available := balances[a].available - amount)];
      }
    }

    method Deposit(a: Account, amount: real) returns (error: Option<ApiError>)
      modifies this`balances
      ensures error.None? <==> amount > 0.0
      ensures balances == if amount > 0.0 then Credited(old(balances), a, amount) else old(balances)
    {
      if !(amount > 0.0) {
        return Some(AmountMustBePositive);
      }
      if a !in balances {
        balances := balances[a := Balance(0.0, 0.0)];
      }
      balances := balances[a := balances[a].(available := balances[a].available + amount)];
      return None;
    }

    method Withdraw(a: Account, amount: real) returns (error: Option<ApiError>)
      modifies this`balances
      ensures error.None? <==> CanWithdraw(old(balances), a, amount)
      ensures balances == WithdrawnFrom(old(balances), a, amount)
    {
      if !(amount > 0.0) {
        return Some(AmountMustBePositive);
      }
      if a !in balances {
        balances := balances[a := Balance(0.0, 0.0)];
      }
      if !(balances[a].available >= amount) {
        return Some(InsufficientBalance);
      }
      balances := balances[a := balances[a].(available := balances[a].available - amount)];
      return None;
    }

    // ----- requests -----

    /** A placement: validation, idempotency, reservation, row, command, in this order. */
    method PlaceOrder(i: PlaceInput, id: string) returns (reply: PlaceReply)
      requires DividesLikeServer(divide)
      modifies this`balances, this`orders, this`stream
      ensures match Placement(markets, old(Contents()), i, id)
              case Existing => reply.Idempotent? && SameClient(reply.order, i) && Contents() == old(Contents()) && stream == old(stream)
              case Created(db) => reply == Placed(RowOf(i)) && Contents() == db
                                  && stream == old(stream) + [PlaceCommand(OrderSent(id, i), None)]
              case Refused(e) => reply == Failed(e) && Contents() == old(Contents()) && stream == old(stream)
    {
      hide Locked, Margins.Quotient, MarginOf;
      var invalid := Validate(i);
      if invalid.Some? {
        return Failed(invalid.value);
      }
      if i.clientOrderId.Some? && exists x | x in orders :: SameClient(orders[x], i) {
        var x :| x in orders && SameClient(orders[x], i);
        return Idempotent(orders[x]);
      }
      var m := markets[i.market];
      var error: Option<ApiError>;
      if i.side.Buy? {
        if i.price.None? {
          return Failed(MarketBuyRequiresPrice);
        }
        if LeverageOf(i) == 0.0 {
          return Failed(DivisionByZero);
        }
        var cost := i.price.value * i.quantity;
        MarginDivided(divide, cost, i.price.value, i.quantity, LeverageOf(i));
        error := LockBalance(Account(i.userId, m.quoteAsset), divide(cost, LeverageOf(i)));
      } else {
        error := LockBalance(Account(i.userId, m.baseAsset), i.quantity);
      }
      if error.Some? {
        return Failed(error.value);
      }
      orders := orders[id := RowOf(i)];
      stream := stream + [PlaceCommand(OrderSent(id, i), None)];
      return Placed(RowOf(i));
    }

    method Validate(i: PlaceInput) returns (error: Option<ApiError>)
      ensures error == Invalid(markets, i)
    {
      if i.market !in markets {
        return Some(MarketNotFound);
      }
      var m := markets[i.market];
      if !m.active {
        return Some(MarketNotActive);
      }
      if !(i.quantity > 0.0) {
        return Some(QuantityMustBePositive);
      }
      if i.quantity < m.minOrderSize {
        return Some(QuantityBelowMin);
      }
      if i.quantity > m.maxOrderSize {
        return Some(QuantityAboveMax);
      }
      if i.kind.Limit? && i.price.None? {
        return Some(LimitOrderRequiresPrice);
      }
      if i.price.Some? && i.price.value <= 0.0 {
        return Some(PriceMustBePositive);
      }
      if LeverageOf(i) > m.maxLeverage {
        return Some(LeverageExceedsMax);
      }
      return None;
    }

    method CancelOrder(id: string, userId: string) returns (error: Option<ApiError>)
      modifies this`orders, this`stream
      ensures match CancelRequested(old(Contents()), id, userId)
              case Ok(db) => error.None? && Contents() == db
                             && stream == old(stream) + [CancelCommand(old(orders)[id].market, id, userId)]
              case Err(e) => error == Some(e) && Contents() == old(Contents()) && stream == old(stream)
    {
      if id !in orders || orders[id].userId != userId {
        return Some(OrderNotFound);
      }
      var order := orders[id];
      if !Cancellable(order) {
        return Some(OrderNotCancellable);
      }
      stream := stream + [CancelCommand(order.market, id, userId)];
      orders := orders[id := order.(status := OrderStatus.Canceled)];
      return None;
    }

    /** All open orders of a user: each gets its own cancel command, once, in some order; the count is how many. */
    method CancelAllOpenOrders(userId: string, market: Option<string>) returns (canceled: nat, ghost order: seq<string>)
      modifies this`orders, this`stream
      ensures Enumerates(order, OpenIds(markets, old(orders), userId, market)) && canceled == |order|
      ensures orders == AllCanceled(old(orders), OpenIds(markets, old(orders), userId, market))
      ensures stream == old(stream) + CancelCommands(old(orders), order, userId)
    {
      hide AllCanceled, CancelCommands, StatusSet, Enumerates, Split;
      canceled, order := 0, [];
      NoneCanceled(orders, userId);
      if market.Some? && market.value !in markets {
        return;
      }
      var open := set id | id in orders && OpenFor(orders[id], userId, market);
      ghost var all, done := open, {};
      assert all == OpenIds(markets, orders, userId, market);
      NoneMoved(all);
      while open != {}
        invariant Split(open, done, all) && all == OpenIds(markets, old(orders), userId, market)
        invariant canceled == |order| && Enumerates(order, done)
        invariant forall id | id in open :: id in old(orders) && OpenFor(old(orders)[id], userId, market)
        invariant orders == AllCanceled(old(orders), done)
        invariant stream == old(stream) + CancelCommands(old(orders), order, userId)
        decreases |open|
      {
        hide *;
        var id :| id in open;
        MoveOne(open, done, all, id);
        OneMoreCanceled(old(orders), done, id, order, userId);
        OpenCancels(Db(balances, orders), id, userId, market);
        assert Contents() == Db(balances, orders);
        ghost var c := CancelCommand(old(orders)[id].market, id, userId);
        var error := CancelOrder(id, userId);
        assert stream == old(stream) + (CancelCommands(old(orders), order, userId) + [c]);
        if error.None? {
          canceled := canceled + 1;
        }
        order, done, open := order + [id], done + {id}, open - {id};
      }
    }

    // ----- event handlers -----

    method UnlockOrderMargin(o: OrderRow)
      requires DividesLikeServer(divide)
      modifies this`balances
      ensures balances == MarginUnlocked(markets, old(balances), o)
    {
      hide MarginOf, Unlocked, Margins.Quotient;
      if o.market !in markets {
        return;
      }
      var m := markets[o.market];
      var remaining := o.quantity - o.filled;
      if o.side.Buy? && o.price.Some? {
        var cost := o.price.value * remaining;
        var margin := divide(cost, o.leverage);
        MarginDivided(divide, cost, o.price.value, Remaining(o), o.leverage);
        if margin > 0.0 {
          UnlockBalance(Account(o.userId, m.quoteAsset), margin);
        }
      } else if remaining > 0.0 {
        UnlockBalance(Account(o.userId, m.baseAsset), remaining);
      }
    }

    method SetStatus(id: string, status: OrderStatus)
      modifies this`orders
      ensures orders == StatusSet(old(orders), id, status)
    {
      if id in orders {
        orders := orders[id := orders[id].(status := status)];
      }
    }

    method HandleOrderRejected(id: string)
      requires DividesLikeServer(divide)
      modifies this`balances, this`orders
      ensures Contents() == RejectedHandled(markets, old(Contents()), id)
    {
      if id in orders && !(orders[id].status.Filled? || orders[id].status.Canceled? || orders[id].status.Expired?) {
        UnlockOrderMargin(orders[id]);
      }
      SetStatus(id, OrderStatus.Rejected);
    }

    method HandleOrderCanceled(id: string)
      requires DividesLikeServer(divide)
      modifies this`balances, this`orders
      ensures Contents() == CanceledHandled(markets, old(Contents()), id)
    {
      if id !in orders {
        return;
      }
      var order := orders[id];
      if order.status.Filled? || order.status.Rejected? || order.status.Expired? {
        return;
      }
      UnlockOrderMargin(order);
      SetStatus(id, OrderStatus.Canceled);
    }

    method ApplyTradeToOrder(id: string, fillQty: real, fillPrice: real)
      modifies this`orders
      ensures orders == TradeApplied(old(orders), id, fillQty, fillPrice)
    {
      if id !in orders {
        return;
      }
      var order := orders[id];
      var newFilled := order.filled + fillQty;
      var status := order.status;
      if newFilled >= order.quantity {
        status := OrderStatus.Filled;
      } else if newFilled > 0.0 {
        status := OrderStatus.PartiallyFilled;
      }
      orders := orders[id := order.(filled := newFilled, status := status,
                                    price := if order.price.Some? then order.price else Some(fillPrice))];
    }

    /** The rows the provider is missing, added to those the transaction reads. */
    method EnsureExternalRows(t: TradeView) returns (rows: map<string, OrderRow>)
      requires ExternalIdsReadable(t)
      ensures rows == WithExternalRows(orders, t)
    {
      rows := orders;
      if t.makerUserId == EXTERNAL_USER_ID && t.makerOrderId !in rows {
        rows := rows[t.makerOrderId := ExternalRow(t, if t.takerSide.Buy? then Sell else Buy)];
      }
      if t.takerUserId == EXTERNAL_USER_ID && t.takerOrderId !in rows {
        rows := rows[t.takerOrderId := ExternalRow(t, t.takerSide)];
      }
    }

    method SettleBuyer(o: OrderRow, m: MarketRow, t: TradeView, notional: real, fee: real)
      requires DividesLikeServer(divide) && notional == Notional(t)
      modifies this`balances
      ensures balances == BuyerSettled(old(balances), o, m, t, fee)
    {
      hide LockedDebited, AvailableDebited, Credited, Margins.Quotient, MarginOf;
      var margin := divide(notional, o.leverage);
      MarginDivided(divide, notional, t.price, t.quantity, o.leverage);
      DebitLocked(Account(o.userId, m.quoteAsset), margin);
      DebitAvailable(Account(o.userId, m.quoteAsset), fee);
      CreditAvailable(Account(o.userId, m.baseAsset), t.quantity);
    }

    method SettleSeller(o: OrderRow, m: MarketRow, t: TradeView, notional: real, fee: real)
      requires notional == Notional(t)
      modifies this`balances
      ensures balances == SellerSettled(old(balances), o, m, t, fee)
    {
      hide LockedDebited, Credited;
      DebitLocked(Account(o.userId, m.baseAsset), t.quantity);
      CreditAvailable(Account(o.userId, m.quoteAsset), notional - fee);
    }

    /**
     * A trade: synthetic rows, the fill with both fees, settlement taker first, then both order rows. The order rows are
     * filled as they are committed, without the synthetic rows; those are committed at the end.
     */
    method HandleTradeExecuted(t: TradeView)
      requires DividesLikeServer(divide)
      modifies this`balances, this`orders, this`fills
      ensures Contents() == TradeHandled(markets, old(Contents()), t)
      ensures fills == if Recorded(markets, old(Contents()), t) then old(fills) + [FillOf(markets[t.market], t)] else old(fills)
    {
      hide BuyerSettled, SellerSettled, TradeApplied, WithExternalRows, Fee, ExternalIdsReadable;
      if t.market !in markets {
        return;
      }
      var m := markets[t.market];
      var takerFee, makerFee, notional := Fee(t, m.takerFeeBps), Fee(t, m.makerFeeBps), Notional(t);
      var isExternalMaker := t.makerUserId == EXTERNAL_USER_ID;
      if !ExternalIdsReadable(t) {
        return;
      }
      var rows := EnsureExternalRows(t);
      if t.makerOrderId !in rows || t.takerOrderId !in rows {
        // The fill refers to both orders, so inserting it fails and the transaction is undone.
        return;
      }
      fills := fills + [Fill(t, makerFee, takerFee)];
      var takerOrder, makerOrder := rows[t.takerOrderId], rows[t.makerOrderId];
      if t.takerSide.Buy? {
        SettleBuyer(takerOrder, m, t, notional, takerFee);
        if !isExternalMaker {
          SettleSeller(makerOrder, m, t, notional, makerFee);
        }
      } else {
        SettleSeller(takerOrder, m, t, notional, takerFee);
        if !isExternalMaker {
          SettleBuyer(makerOrder, m, t, notional, makerFee);
        }
      }
      ApplyTradeToOrder(t.makerOrderId, t.quantity, t.price);
      ApplyTradeToOrder(t.takerOrderId, t.quantity, t.price);
      orders := EnsureExternalRows(t);
    }

    method HandleMessage(ev: EventView)
      requires DividesLikeServer(divide)
      modifies this`balances, this`orders, this`fills
      ensures Contents() == Handled(markets, old(Contents()), ev)
      ensures fills == old(fills) + NewFills(markets, old(Contents()), ev)
    {
      hide TradeHandled, RejectedHandled, CanceledHandled;
      match ev
      case Accepted(id, _, _, _, _, _, _, _, _) => SetStatus(id, OrderStatus.Open);
      case TurnedDown(id, _, _) => HandleOrderRejected(id);
      case Completed(id, _, _, _, _) => SetStatus(id, OrderStatus.Filled);
      case Withdrawn(id, _, _, _, _) => HandleOrderCanceled(id);
      case Traded(t) => HandleTradeExecuted(t);
      case DepthChanged(_, _, _) =>
    }

    /** The chain of messages: one after the other, in publication order. */
    method HandleMessages(evs: seq<EventView>)
      requires DividesLikeServer(divide)
      modifies this`balances, this`orders, this`fills
      ensures Contents() == HandledAll(markets, old(Contents()), evs)
      ensures fills == old(fills) + FillsOf(markets, old(Contents()), evs)
    {
      hide Handled, NewFills;
      var k := 0;
      while k < |evs|
        invariant 0 <= k <= |evs|
        invariant Contents() == HandledAll(markets, old(Contents()), evs[..k])
        invariant fills == old(fills) + FillsOf(markets, old(Contents()), evs[..k])
      {
        FillsOneMore(markets, old(Contents()), evs, k);
        HandledOneMore(markets, old(Contents()), evs, k);
        HandleMessage(evs[k]);
        k := k + 1;
      }
      assert evs[..k] == evs;
    }
  }
}
