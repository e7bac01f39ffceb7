/** The database side: balances and order rows, as the API and the event handlers change them. */
module Ledgers {
  import opened Orders
  import opened Exchange
  import opened Discipline
  import Margins

  datatype Balance = Balance(available: real, locked: real)

  /** A user's balance of one asset. */
  datatype Account = Account(userId: string, asset: string)

  type Balances = map<Account, Balance>

  datatype OrderRow = OrderRow(
    userId: string, market: string, kind: OrderType, side: Side, price: Option<real>, quantity: real,
    filled: real, status: OrderStatus, leverage: real, clientOrderId: Option<string>)

  datatype MarketRow = MarketRow(
    active: bool, baseAsset: string, quoteAsset: string, minOrderSize: real, maxOrderSize: real,
    maxLeverage: real, makerFeeBps: int, takerFeeBps: int)

  type Markets = map<string, MarketRow>

  datatype Db = Db(balances: Balances, orders: map<string, OrderRow>)

  datatype ApiError =
    | MarketNotFound | MarketNotActive | QuantityMustBePositive | QuantityBelowMin | QuantityAboveMax
    | LimitOrderRequiresPrice | PriceMustBePositive | LeverageExceedsMax | MarketBuyRequiresPrice
    | DivisionByZero | BalanceNotFound | InsufficientBalance | AmountMustBePositive
    | OrderNotFound | OrderNotCancellable

  datatype Result<T> = Ok(value: T) | Err(error: ApiError)

  // ----- balances -----

  function Lesser(x: real, y: real): real {
    if x >= y then y else x
  }

  function Credited(b: Balances, a: Account, amount: real): Balances {
    b[a := if a in b then b[a].(available := b[a].available + amount) else Balance(amount, 0.0)]
  }

  function AvailableDebited(b: Balances, a: Account, amount: real): Balances {
    if a in b then b[a := b[a].(available := b[a].available - amount)] else b
  }

  predicate CanWithdraw(b: Balances, a: Account, amount: real) {
    amount > 0.0 && a in b && b[a].available >= amount
  }

  /** Looking at a balance creates it, so a refused withdrawal can leave an empty one behind. */
  function WithdrawnFrom(b: Balances, a: Account, amount: real): Balances {
    if CanWithdraw(b, a, amount) then AvailableDebited(b, a, amount)
    else if amount > 0.0 && a !in b then b[a := Balance(0.0, 0.0)]
    else b
  }

  /** Reservation: from available to locked, refused when available does not cover it. */
  function Locked(b: Balances, a: Account, amount: real): Result<Balances> {
    if amount <= 0.0 then Ok(b)
    else if a !in b then Err(BalanceNotFound)
    else if b[a].available < amount then Err(InsufficientBalance)
    else Ok(b[a := Balance(b[a].available - amount, b[a].locked + amount)])
  }

  /** Release: from locked to available, never more than is locked. */
  function Unlocked(b: Balances, a: Account, amount: real): Balances {
    if amount <= 0.0 || a !in b then b
    else
      var qty := Lesser(b[a].locked, amount);
      b[a := Balance(b[a].available + qty, b[a].locked - qty)]
  }

  /** Spending of a reservation, never more than is locked. */
  function LockedDebited(b: Balances, a: Account, amount: real): Balances {
    if amount <= 0.0 || a !in b then b
    else b[a := b[a].(locked := b[a].locked - Lesser(b[a].locked, amount))]
  }

  // ----- order rows -----

  /**
   * The cost divided by the leverage as the server divides, that is truncated. Only buys have a margin, and a buy with
   * leverage zero is refused, so the division is never by zero.
   */
  ghost function MarginOf(price: real, quantity: real, leverage: real): real {
    Margins.Quotient(price * quantity, leverage)
  }

  function Remaining(o: OrderRow): real {
    o.quantity - o.filled
  }

  /** The account an order reserves from: quote for priced buys, base otherwise. */
  function ReserveAccount(markets: Markets, o: OrderRow): Account
    requires o.market in markets
  {
    if o.side.Buy? && o.price.Some? then Account(o.userId, markets[o.market].quoteAsset)
    else Account(o.userId, markets[o.market].baseAsset)
  }

  /** What the unfilled part of an order reserves. */
  ghost function ReserveAmount(o: OrderRow): real {
    if o.side.Buy? && o.price.Some? then MarginOf(o.price.value, Remaining(o), o.leverage) else Remaining(o)
  }

  ghost function MarginUnlocked(markets: Markets, b: Balances, o: OrderRow): Balances {
    if o.market !in markets then b
    else if ReserveAmount(o) > 0.0 then Unlocked(b, ReserveAccount(markets, o), ReserveAmount(o))
    else b
  }

  function StatusSet(orders: map<string, OrderRow>, id: string, status: OrderStatus): map<string, OrderRow> {
    if id in orders then orders[id := orders[id].(status := status)] else orders
  }

  /** One trade recorded on one order row. */
  function Filled(o: OrderRow, qty: real, price: real): OrderRow {
    var filled := o.filled + qty;
    o.(filled := filled,
       status := if filled >= o.quantity then OrderStatus.Filled
                 else if filled > 0.0 then OrderStatus.PartiallyFilled else o.status,
       price := if o.price.Some? then o.price else Some(price))
  }

  function TradeApplied(orders: map<string, OrderRow>, id: string, qty: real, price: real): map<string, OrderRow> {
    if id in orders then orders[id := Filled(orders[id], qty, price)] else orders
  }

  // ----- settlement of one trade -----

  function FeeRate(bps: int): real {
    bps as real / 10000.0
  }

  function Fee(t: TradeView, bps: int): real {
    t.price * (t.quantity * FeeRate(bps))
  }

  function Notional(t: TradeView): real {
    t.price * t.quantity
  }

  /** The buyer spends margin and fee, and receives the base quantity. */
  ghost function BuyerSettled(b: Balances, o: OrderRow, m: MarketRow, t: TradeView, fee: real): Balances {
    var quote, base := Account(o.userId, m.quoteAsset), Account(o.userId, m.baseAsset);
    Credited(AvailableDebited(LockedDebited(b, quote, MarginOf(t.price, t.quantity, o.leverage)), quote, fee), base, t.quantity)
  }

  /** The seller gives up the locked base quantity and receives the notional minus the fee. */
  function SellerSettled(b: Balances, o: OrderRow, m: MarketRow, t: TradeView, fee: real): Balances {
    Credited(LockedDebited(b, Account(o.userId, m.baseAsset), t.quantity),
             Account(o.userId, m.quoteAsset), Notional(t) - fee)
  }

  /** The synthetic row of the external liquidity provider, created complete. */
  function ExternalRow(t: TradeView, side: Side): OrderRow {
    OrderRow(EXTERNAL_USER_ID, t.market, Limit, side, Some(t.price), t.quantity, t.quantity, OrderStatus.Filled, 1.0, None)
  }

  function WithExternalRows(orders: map<string, OrderRow>, t: TradeView): map<string, OrderRow> {
    var o1 := if t.makerUserId == EXTERNAL_USER_ID && t.makerOrderId !in orders
              then orders[t.makerOrderId := ExternalRow(t, Opposite(t.takerSide))] else orders;
    if t.takerUserId == EXTERNAL_USER_ID && t.takerOrderId !in o1
    then o1[t.takerOrderId := ExternalRow(t, t.takerSide)] else o1
  }

  /** Taker first, then maker; the external provider has no balances. */
  ghost function Settled(markets: Markets, b: Balances, orders: map<string, OrderRow>, t: TradeView): Balances
    requires t.market in markets && t.takerOrderId in orders && t.makerOrderId in orders
  {
    var m, taker, maker := markets[t.market], orders[t.takerOrderId], orders[t.makerOrderId];
    var external := t.makerUserId == EXTERNAL_USER_ID;
    if t.takerSide.Buy? then
      var b1 := BuyerSettled(b, taker, m, t, Fee(t, m.takerFeeBps));
      if external then b1 else SellerSettled(b1, maker, m, t, Fee(t, m.makerFeeBps))
    else
      var b1 := SellerSettled(b, taker, m, t, Fee(t, m.takerFeeBps));
      if external then b1 else BuyerSettled(b1, maker, m, t, Fee(t, m.makerFeeBps))
  }

  predicate IsHex(c: char) {
    '0' <= c <= '9' || 'a' <= c <= 'f' || 'A' <= c <= 'F'
  }

  /** What an id column holds: 32 hexadecimal digits in groups of 8, 4, 4, 4 and 12. */
  predicate IsUuid(s: string) {
    |s| == 36 && forall i | 0 <= i < 36 :: if i == 8 || i == 13 || i == 18 || i == 23 then s[i] == '-' else IsHex(s[i])
  }

  /** Looking for the provider's order row fails for an id that the column cannot hold. */
  predicate ExternalIdsReadable(t: TradeView) {
    && (t.makerUserId == EXTERNAL_USER_ID ==> IsUuid(t.makerOrderId))
    && (t.takerUserId == EXTERNAL_USER_ID ==> IsUuid(t.takerOrderId))
  }

  /**
   * A trade event: nothing without its market, if the provider's order cannot be looked up, or if recording the fill
   * finds an order row missing. The settlement reads the rows its transaction has inserted. The fills of the two order
   * rows are transactions of their own, which do not see rows that are not committed yet: a row inserted by this very
   * trade keeps the fill it is born with.
   */
  ghost function TradeHandled(markets: Markets, db: Db, t: TradeView): Db {
    if t.market !in markets || !ExternalIdsReadable(t) then db
    else
      var rows := WithExternalRows(db.orders, t);
      if t.takerOrderId !in rows || t.makerOrderId !in rows then db
      else
        Db(Settled(markets, db.balances, rows, t),
           WithExternalRows(
             TradeApplied(TradeApplied(db.orders, t.makerOrderId, t.quantity, t.price), t.takerOrderId, t.quantity, t.price), t))
  }

  // ----- event handlers -----

  ghost function RejectedHandled(markets: Markets, db: Db, id: string): Db {
    if id !in db.orders then db
    else
      var o := db.orders[id];
      Db(if o.status.Filled? || o.status.Canceled? || o.status.Expired? then db.balances
         else MarginUnlocked(markets, db.balances, o),
         StatusSet(db.orders, id, OrderStatus.Rejected))
  }

  ghost function CanceledHandled(markets: Markets, db: Db, id: string): Db {
    if id !in db.orders then db
    else
      var o := db.orders[id];
      if o.status.Filled? || o.status.Rejected? || o.status.Expired? then db
      else Db(MarginUnlocked(markets, db.balances, o), StatusSet(db.orders, id, OrderStatus.Canceled))
  }

  ghost function Handled(markets: Markets, db: Db, ev: EventView): Db {
    match ev
    case Accepted(id, _, _, _, _, _, _, _, _) => db.(orders := StatusSet(db.orders, id, OrderStatus.Open))
    case Traded(t) => TradeHandled(markets, db, t)
    case Completed(id, _, _, _, _) => db.(orders := StatusSet(db.orders, id, OrderStatus.Filled))
    case TurnedDown(id, _, _) => RejectedHandled(markets, db, id)
    case Withdrawn(id, _, _, _, _) => CanceledHandled(markets, db, id)
    case DepthChanged(_, _, _) => db
  }

  // ----- API -----

  datatype PlaceInput = PlaceInput(
    userId: string, market: string, side: Side, kind: OrderType, price: Option<real>, quantity: real,
    tif: TimeInForce, leverage: Option<real>, marginMode: string, reduceOnly: bool, postOnly: bool,
    clientOrderId: Option<string>, timestamp: int)

  function LeverageOf(i: PlaceInput): real {
    if i.leverage.Some? then i.leverage.value else 1.0
  }

  /** The checks before anything is written, in the order the service makes them. */
  function Invalid(markets: Markets, i: PlaceInput): Option<ApiError> {
    if i.market !in markets then Some(MarketNotFound)
    else
      var m := markets[i.market];
      if !m.active then Some(MarketNotActive)
      else if i.quantity <= 0.0 then Some(QuantityMustBePositive)
      else if i.quantity < m.minOrderSize then Some(QuantityBelowMin)
      else if i.quantity > m.maxOrderSize then Some(QuantityAboveMax)
      else if i.kind.Limit? && i.price.None? then Some(LimitOrderRequiresPrice)
      else if i.price.Some? && i.price.value <= 0.0 then Some(PriceMustBePositive)
      else if LeverageOf(i) > m.maxLeverage then Some(LeverageExceedsMax)
      else None
  }

  predicate SameClient(o: OrderRow, i: PlaceInput) {
    i.clientOrderId.Some? && o.userId == i.userId && o.clientOrderId == i.clientOrderId
  }

  /** The row a valid input creates, before anything is filled. */
  function RowOf(i: PlaceInput): OrderRow {
    OrderRow(i.userId, i.market, i.kind, i.side, i.price, i.quantity, 0.0, OrderStatus.Open, LeverageOf(i), i.clientOrderId)
  }

  /** The reservation for a new order. */
  ghost function Reserved(markets: Markets, b: Balances, i: PlaceInput): Result<Balances>
    requires i.market in markets
  {
    var m := markets[i.market];
    if i.side.Buy? then
      if i.price.None? then Err(MarketBuyRequiresPrice)
      else if LeverageOf(i) == 0.0 then Err(DivisionByZero)
      else Locked(b, Account(i.userId, m.quoteAsset), MarginOf(i.price.value, i.quantity, LeverageOf(i)))
    else Locked(b, Account(i.userId, m.baseAsset), i.quantity)
  }

  /** The order as the engine reads the command: no price is price zero. */
  function OrderSent(id: string, i: PlaceInput): OrderView {
    OrderView(id, i.userId, i.side, if i.price.Some? then i.price.value else 0.0, i.quantity, 0.0, LeverageOf(i),
              Terms(i.market, i.kind, i.tif, i.reduceOnly, i.postOnly,
                    if i.clientOrderId.Some? then i.clientOrderId.value else "", i.marginMode, i.timestamp))
  }

  /** A placement request: an existing order of the same client id is returned as it is; otherwise lock and insert. */
  datatype PlaceOutcome = Existing | Created(db: Db) | Refused(error: ApiError)

  ghost function Placement(markets: Markets, db: Db, i: PlaceInput, id: string): PlaceOutcome {
    if Invalid(markets, i).Some? then Refused(Invalid(markets, i).value)
    else if exists x | x in db.orders :: SameClient(db.orders[x], i) then Existing
    else
      var r := Reserved(markets, db.balances, i);
      if r.Err? then Refused(r.error)
      else Created(Db(r.value, db.orders[id := RowOf(i)]))
  }

  /** A cancel request: refused for foreign or finished orders, otherwise marked canceled before the engine answers. */
  function CancelRequested(db: Db, id: string, userId: string): Result<Db> {
    if id !in db.orders || db.orders[id].userId != userId then Err(OrderNotFound)
    else
      var s := db.orders[id].status;
      if s.Filled? || s.Canceled? || s.Rejected? || s.Expired? then Err(OrderNotCancellable)
      else Ok(db.(orders := StatusSet(db.orders, id, OrderStatus.Canceled)))
  }
}
