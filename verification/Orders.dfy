/** The engine's records, and what they mean once decimals are read as numbers. */
module Orders {
  import opened Decimals

  datatype Option<+T> = None | Some(value: T)

  datatype OrderType = Market | Limit
  datatype Side = Buy | Sell
  datatype TimeInForce = GTC | IOC | FOK
  datatype OrderStatus = Pending | Open | PartiallyFilled | Filled | Canceled | Rejected | Expired

  /** The part of an order that is not a number. */
  datatype Terms = Terms(
    market: string, kind: OrderType, tif: TimeInForce, reduceOnly: bool, postOnly: bool,
    clientOrderId: string, marginMode: string, timestamp: int)

  datatype Order = Order(
    id: string, userId: string, side: Side, price: Decimal, quantity: Decimal, filled: Decimal,
    leverage: Decimal, terms: Terms, status: OrderStatus)

  datatype Trade = Trade(
    market: string, makerOrderId: string, takerOrderId: string, makerUserId: string, takerUserId: string,
    takerSide: Side, price: Decimal, quantity: Decimal, timestamp: int)

  /** An order with exact numbers; a resting order's status plays no part in matching and is left out. */
  datatype OrderView = OrderView(
    id: string, userId: string, side: Side, price: real, quantity: real, filled: real,
    leverage: real, terms: Terms)

  datatype TradeView = TradeView(
    market: string, makerOrderId: string, takerOrderId: string, makerUserId: string, takerUserId: string,
    takerSide: Side, price: real, quantity: real, timestamp: int)

  ghost function ViewOrder(o: Order): OrderView {
    OrderView(o.id, o.userId, o.side, Val(o.price), Val(o.quantity), Val(o.filled), Val(o.leverage), o.terms)
  }

  ghost function ViewTrade(t: Trade): TradeView {
    TradeView(t.market, t.makerOrderId, t.takerOrderId, t.makerUserId, t.takerUserId,
              t.takerSide, Val(t.price), Val(t.quantity), t.timestamp)
  }

  ghost function ViewOrders(os: seq<Order>): (vs: seq<OrderView>)
    ensures |vs| == |os|
    ensures forall i | 0 <= i < |os| :: vs[i] == ViewOrder(os[i])
  {
    seq(|os|, i requires 0 <= i < |os| => ViewOrder(os[i]))
  }

  ghost function ViewTrades(ts: seq<Trade>): (vs: seq<TradeView>)
    ensures |vs| == |ts|
    ensures forall i | 0 <= i < |ts| :: vs[i] == ViewTrade(ts[i])
  {
    seq(|ts|, i requires 0 <= i < |ts| => ViewTrade(ts[i]))
  }

  function Opposite(s: Side): (o: Side)
    ensures o != s
  {
    if s.Buy? then Sell else Buy
  }
}
