/** The engine's limit order book: price levels per side, an id index, and the matching loops over them. */
module OrderBooks {
  import opened Decimals
  import opened DecimalText
  import opened Orders
  import opened Greedy
  import opened BookSpec
  import opened Levels
  import opened Snapshots

  // ----- the inner loop: one price level -----

  /** What the loops keep of the taker: only its filled quantity moves, between zero and its quantity. */
  ghost predicate TakerOk(order: Order, taker: Order, s: nat) {
    && order == taker.(filled := order.filled)
    && NumbersFit(order, s)
    && 0.0 <= Val(order.filled) <= Val(order.quantity)
  }

  ghost predicate TradeFits(t: Trade, s: nat) {
    Fits(t.price, s) && Fits(t.quantity, s)
  }

  ghost function Want(o: Order): real {
    Val(o.quantity) - Val(o.filled)
  }

  /** What the loops keep of the side they consume. */
  ghost predicate QueueOk(side: Side, q: seq<Order>, index: map<string, IndexEntry>, other: seq<Order>) {
    LiveQueue(side, q) && IdsDistinct(q) && IndexOk(index, side.Buy?, q, other)
  }

  ghost predicate LiveQueue(side: Side, q: seq<Order>) {
    forall i | 0 <= i < |q| :: 0.0 <= Val(q[i].filled) < Val(q[i].quantity) && q[i].side == side
  }

  lemma QueuePop(side: Side, q: seq<Order>, index: map<string, IndexEntry>, other: seq<Order>)
    requires QueueOk(side, q, index, other) && q != []
    ensures QueueOk(side, q[1..], index - {q[0].id}, other)
  {
    IndexPop(index, side.Buy?, q, other);
  }

  lemma QueueRefill(side: Side, q: seq<Order>, index: map<string, IndexEntry>, other: seq<Order>, front: Order)
    requires QueueOk(side, q, index, other) && q != []
    requires front == q[0].(filled := front.filled, status := front.status)
    requires 0.0 <= Val(front.filled) < Val(front.quantity)
    ensures QueueOk(side, [front] + q[1..], index, other)
  {
    IndexRefill(index, side.Buy?, q, other, front);
    RefillKeepsQueue(side, q, front);
  }

  lemma RefillKeepsQueue(side: Side, q: seq<Order>, front: Order)
    requires LiveQueue(side, q) && IdsDistinct(q) && q != []
    requires front.id == q[0].id && front.side == q[0].side && 0.0 <= Val(front.filled) < Val(front.quantity)
    ensures LiveQueue(side, [front] + q[1..]) && IdsDistinct([front] + q[1..])
  {
    var r := [front] + q[1..];
    assert forall i | 1 <= i < |q| :: r[i] == q[i];
  }

  lemma OpenExact(o: Order, s: nat)
    requires NumbersFit(o, s) && 0.0 <= Val(o.filled) <= Val(o.quantity)
    ensures Fits(Sub(o.quantity, o.filled), s) && Val(Sub(o.quantity, o.filled)) == Want(o)
    ensures SubInRange(o.quantity, o.filled)
  {
    SubExact(o.quantity, o.filled, s);
  }

  /** Adding to `filled` what the order has open at most stays exact, and is compared exactly. */
  lemma FillExact(o: Order, qty: Decimal, s: nat)
    requires NumbersFit(o, s) && Fits(qty, s)
    requires 0.0 <= Val(o.filled) && 0.0 <= Val(qty) <= Want(o)
    ensures var f := Add(o.filled, qty);
            && Fits(f, s) && Val(f) == Val(o.filled) + Val(qty)
            && (Ge(f, o.quantity) <==> Val(f) >= Val(o.quantity))
            && AddInRange(o.filled, qty) && CompareInRange(f, o.quantity)
  {
    AddExact(o.filled, qty, s);
    CompareExact(Add(o.filled, qty), o.quantity, s);
  }

  lemma MinExact(a: Decimal, b: Decimal, s: nat)
    requires Fits(a, s) && Fits(b, s)
    ensures Fits(Min(a, b), s) && Val(Min(a, b)) == Least(Val(a), Val(b)) && CompareInRange(b, a)
  {
    CompareExact(b, a, s);
  }

  lemma PositiveExact(d: Decimal, s: nat)
    requires Fits(d, s)
    ensures (Gt(d, ZERO) <==> Val(d) > 0.0) && (Le(d, ZERO) <==> Val(d) <= 0.0) && CompareInRange(d, ZERO)
  {
    ZeroFits(s);
    CompareExact(d, ZERO, s);
  }

  /** Both sides of one trade, as the loop body updates them; `done` says that the maker is used up. */
  method FillFront(ghost taker: Order, order0: Order, maker: Order, price: Decimal, market: string, ghost s: nat)
    returns (order: Order, front: Order, tr: Trade, done: bool)
    requires TakerOk(order0, taker, s) && Want(order0) > 0.0 && taker.terms.market == market
    requires OrderAt(maker, Val(price), s) && Fits(price, s) && Live(ViewOrder(maker))
    ensures TakerOk(order, taker, s)
    ensures front == maker.(filled := front.filled, status := front.status) && NumbersFit(front, s)
    ensures var qty := Least(Want(order0), Want(maker));
            && Want(order) == Want(order0) - qty
            && ViewOrder(front) == FillBy(ViewOrder(maker), qty)
            && ViewTrade(tr) == TradeWith(ViewOrder(taker), ViewOrder(maker), qty)
            && done == (qty >= Want(maker))
    ensures front.status == if done then OrderStatus.Filled else OrderStatus.PartiallyFilled
    ensures TradeFits(tr, s)
  {
    hide ScalesInRange, Compare, ValueOf, Cap;
    OpenExact(order0, s);
    OpenExact(maker, s);
    var remaining, available := SafeSub(order0.quantity, order0.filled), SafeSub(maker.quantity, maker.filled);
    MinExact(remaining, available, s);
    var execQty := Smaller(remaining, available);
    FillExact(maker, execQty, s);
    FillExact(order0, execQty, s);
    var filled := SafeAdd(maker.filled, execQty);
    done := AtLeast(filled, maker.quantity);
    front := maker.(filled := filled, status := if done then OrderStatus.Filled else OrderStatus.PartiallyFilled);
    order := order0.(filled := SafeAdd(order0.filled, execQty));
    tr := Trade(market, maker.id, order0.id, maker.userId, order0.userId, order0.side,
                price, execQty, order0.terms.timestamp);
  }

  /** The front of the queue after a trade: dropped if used up, put back otherwise. */
  lemma ServedView(q: seq<Order>, front: Order, qty: real)
    requires q != [] && ViewOrder(front) == FillBy(ViewOrder(q[0]), qty)
    ensures Served(ViewOrders(q), qty) == if qty < Want(q[0]) then ViewOrders([front] + q[1..]) else ViewOrders(q[1..])
  {
    hide Val;
    var v, r := ViewOrders(q), [front] + q[1..];
    assert v[1..] == ViewOrders(q[1..]);
    assert [FillBy(v[0], qty)] + v[1..] == ViewOrders(r);
  }

  lemma TradeAppended(trades: seq<Trade>, tr: Trade)
    ensures ViewTrades(trades + [tr]) == ViewTrades(trades) + [ViewTrade(tr)]
  {
  }

  /** One turn of the inner loop: trade with the front order, and drop it from queue and index if used up. */
  method TakeFront(ghost taker: Order, order0: Order, orders0: seq<Order>, index0: map<string, IndexEntry>,
                   price: Decimal, market: string, ghost rest: seq<Order>, ghost other: seq<Order>, ghost s: nat)
    returns (order: Order, orders: seq<Order>, index: map<string, IndexEntry>, tr: Trade)
    requires TakerOk(order0, taker, s) && Want(order0) > 0.0 && taker.terms.market == market
    requires orders0 != [] && AllAt(orders0, Val(price), s) && Fits(price, s) && Crosses(ViewOrder(taker), Val(price))
    requires QueueOk(Opposite(taker.side), orders0 + rest, index0, other)
    ensures TakerOk(order, taker, s) && AllAt(orders, Val(price), s)
    ensures QueueOk(Opposite(taker.side), orders + rest, index, other)
    ensures if |orders| == |orders0| then Want(order) <= 0.0 else |orders| < |orders0|
    ensures TradeFits(tr, s)
    ensures Match(ViewOrder(taker), ViewOrders(orders0 + rest), Want(order0))
         == Before([ViewTrade(tr)], Match(ViewOrder(taker), ViewOrders(orders + rest), Want(order)))
  {
    hide QueueOk, AllAt, Match, ViewOrders, ValueOf, Fits;
    var maker := orders0[0];
    HeadOk(Opposite(taker.side), orders0, rest, index0, other, Val(price), s);
    OpenExact(maker, s);
    var available := SafeSub(maker.quantity, maker.filled);
    PositiveExact(available, s);
    if AtMost(available, ZERO) {
      assert false;
    }
    var front, done;
    order, front, tr, done := FillFront(taker, order0, maker, price, market, s);
    FrontOutcome(taker, Want(order0), orders0, rest, index0, other, front, tr, price, s);
    orders := if done then orders0[1..] else [front] + orders0[1..];
    index := if done then index0 - {maker.id} else index0;
  }

  lemma HeadOk(side: Side, orders: seq<Order>, rest: seq<Order>, index: map<string, IndexEntry>,
               other: seq<Order>, price: real, s: nat)
    requires orders != [] && AllAt(orders, price, s) && QueueOk(side, orders + rest, index, other)
    ensures OrderAt(orders[0], price, s) && Live(ViewOrder(orders[0]))
  {
    assert (orders + rest)[0] == orders[0];
  }

  /** What a trade with the front order leaves of the level, the index and the matching still to do. */
  lemma FrontOutcome(taker: Order, want: real, orders: seq<Order>, rest: seq<Order>, index: map<string, IndexEntry>,
                     other: seq<Order>, front: Order, tr: Trade, price: Decimal, s: nat)
    requires orders != [] && want > 0.0 && AllAt(orders, Val(price), s) && Crosses(ViewOrder(taker), Val(price))
    requires QueueOk(Opposite(taker.side), orders + rest, index, other)
    requires front == orders[0].(filled := front.filled, status := front.status) && NumbersFit(front, s)
    requires ViewOrder(front) == FillBy(ViewOrder(orders[0]), Least(want, Want(orders[0])))
    requires ViewTrade(tr) == TradeWith(ViewOrder(taker), ViewOrder(orders[0]), Least(want, Want(orders[0])))
    ensures var done := want >= Want(orders[0]);
            var orders' := if done then orders[1..] else [front] + orders[1..];
            var index' := if done then index - {orders[0].id} else index;
            && AllAt(orders', Val(price), s)
            && QueueOk(Opposite(taker.side), orders' + rest, index', other)
            && Match(ViewOrder(taker), ViewOrders(orders + rest), want)
               == Before([ViewTrade(tr)], Match(ViewOrder(taker), ViewOrders(orders' + rest),
                                                want - Least(want, Want(orders[0]))))
  {
    hide QueueOk, AllAt, Match, ViewOrders, ValueOf;
    HeadOk(Opposite(taker.side), orders, rest, index, other, Val(price), s);
    if want >= Want(orders[0]) {
      DropFront(Opposite(taker.side), orders, rest, index, other, Val(price), s);
    } else {
      PutFront(Opposite(taker.side), orders, rest, index, other, Val(price), front, s);
    }
    assert (orders + rest)[0] == orders[0];
    FrontStep(taker, orders + rest, want, front, tr);
  }

  lemma DropFront(side: Side, orders: seq<Order>, rest: seq<Order>, index: map<string, IndexEntry>,
                  other: seq<Order>, price: real, s: nat)
    requires orders != [] && AllAt(orders, price, s) && QueueOk(side, orders + rest, index, other)
    ensures AllAt(orders[1..], price, s) && QueueOk(side, orders[1..] + rest, index - {orders[0].id}, other)
    ensures (orders + rest)[1..] == orders[1..] + rest
  {
    hide ToString, QueueOk;
    DropFirst(orders, rest);
    QueuePop(side, orders + rest, index, other);
  }

  lemma DropFirst(orders: seq<Order>, rest: seq<Order>)
    requires orders != []
    ensures (orders + rest)[1..] == orders[1..] + rest && (orders + rest)[0] == orders[0]
  {
  }

  lemma ReplaceFront(orders: seq<Order>, rest: seq<Order>, front: Order)
    requires orders != []
    ensures ([front] + orders[1..]) + rest == [front] + (orders + rest)[1..]
  {
  }

  lemma PutFront(side: Side, orders: seq<Order>, rest: seq<Order>, index: map<string, IndexEntry>,
                 other: seq<Order>, price: real, front: Order, s: nat)
    requires orders != [] && AllAt(orders, price, s) && QueueOk(side, orders + rest, index, other)
    requires front == orders[0].(filled := front.filled, status := front.status) && NumbersFit(front, s)
    requires 0.0 <= Val(front.filled) < Val(front.quantity)
    ensures var r := [front] + orders[1..];
            && AllAt(r, price, s) && QueueOk(side, r + rest, index, other)
            && r + rest == [front] + (orders + rest)[1..]
  {
    hide ToString, QueueOk;
    var q, r := orders + rest, [front] + orders[1..];
    ReplaceFront(orders, rest, front);
    assert QueueOk(side, r + rest, index, other) by {
      QueueRefill(side, q, index, other, front);
    }
    assert AllAt(r, price, s) by {
      assert OrderAt(orders[0], price, s);
    }
  }

  lemma FrontStep(taker: Order, q: seq<Order>, want: real, front: Order, tr: Trade)
    requires q != [] && want > 0.0 && Want(q[0]) > 0.0 && Crosses(ViewOrder(taker), Val(q[0].price))
    requires ViewOrder(front) == FillBy(ViewOrder(q[0]), Least(want, Want(q[0])))
    requires ViewTrade(tr) == TradeWith(ViewOrder(taker), ViewOrder(q[0]), Least(want, Want(q[0])))
    ensures var qty := Least(want, Want(q[0]));
            Match(ViewOrder(taker), ViewOrders(q), want)
            == Before([ViewTrade(tr)], Match(ViewOrder(taker),
                 if qty < Want(q[0]) then ViewOrders([front] + q[1..]) else ViewOrders(q[1..]), want - qty))
  {
    var v, qs, qty := ViewOrder(taker), ViewOrders(q), Least(want, Want(q[0]));
    var out := Match(v, qs, want);
    assert out == Before([], out);
    assert qs[0] == ViewOrder(q[0]);
    MatchStep(v, qs, want, [], out);
    ServedView(q, front, qty);
  }

  lemma BeforeTwice(ts: seq<TradeView>, t: TradeView, out: Outcome)
    ensures Before(ts, Before([t], out)) == Before(ts + [t], out)
  {
    assert ts + ([t] + out.trades) == (ts + [t]) + out.trades;
  }

  /**
   * Consume one level from its front. `rest` is what stands behind the level on its side, `other` the opposite
   * side. The trades made here, followed by matching what is left, are the matching of what was there.
   */
  method MatchLevel(ghost taker: Order, order0: Order, level0: Level, index0: map<string, IndexEntry>, market: string,
                    ghost rest: seq<Order>, ghost other: seq<Order>, ghost s: nat)
    returns (order: Order, level: Level, index: map<string, IndexEntry>, trades: seq<Trade>)
    requires TakerOk(order0, taker, s) && taker.terms.market == market
    requires LevelOk(level0, s) && Crosses(ViewOrder(taker), Val(level0.price))
    requires QueueOk(Opposite(taker.side), level0.orders + rest, index0, other)
    ensures TakerOk(order, taker, s) && LevelOk(level, s) && level.price == level0.price
    ensures level.orders == [] || Want(order) <= 0.0
    ensures forall t | t in trades :: TradeFits(t, s)
    ensures QueueOk(Opposite(taker.side), level.orders + rest, index, other)
    ensures Match(ViewOrder(taker), ViewOrders(level0.orders + rest), Want(order0))
         == Before(ViewTrades(trades), Match(ViewOrder(taker), ViewOrders(level.orders + rest), Want(order)))
  {
    ghost var v := ViewOrder(taker);
    order, level, index, trades := order0, level0, index0, [];
    OpenExact(order, s);
    var remaining := SafeSub(order.quantity, order.filled);
    PositiveExact(remaining, s);
    while Above(remaining, ZERO) && level.orders != []
      invariant TakerOk(order, taker, s) && LevelOk(level, s) && level.price == level0.price
      invariant CompareInRange(remaining, ZERO) && (Above(remaining, ZERO) <==> Want(order) > 0.0)
      invariant forall t | t in trades :: TradeFits(t, s)
      invariant QueueOk(Opposite(taker.side), level.orders + rest, index, other)
      invariant Match(v, ViewOrders(level0.orders + rest), Want(order0))
             == Before(ViewTrades(trades), Match(v, ViewOrders(level.orders + rest), Want(order)))
      decreases |level.orders|, if Above(remaining, ZERO) then 1 else 0
    {
      var orders, tr;
      order, orders, index, tr := TakeFront(taker, order, level.orders, index, level.price, market, rest, other, s);
      BeforeTwice(ViewTrades(trades), ViewTrade(tr), Match(v, ViewOrders(orders + rest), Want(order)));
      TradeAppended(trades, tr);
      level := level.(orders := orders);
      trades := trades + [tr];
      OpenExact(order, s);
      remaining := SafeSub(order.quantity, order.filled);
      PositiveExact(remaining, s);
    }
  }
  // ----- the outer loop: level after level -----

  lemma NoTradesYet(out: Outcome)
    ensures out == Before(ViewTrades([]), out)
  {
    assert ViewTrades([]) == [];
  }

  lemma MoreTrades(start: Outcome, ts: seq<TradeView>, us: seq<TradeView>, out: Outcome)
    requires start == Before(ts, Before(us, out))
    ensures start == Before(ts + us, out)
  {
    assert ts + (us + out.trades) == (ts + us) + out.trades;
  }

  lemma ViewTradesConcat(ts: seq<Trade>, us: seq<Trade>)
    ensures ViewTrades(ts + us) == ViewTrades(ts) + ViewTrades(us)
  {
  }

  lemma RemainingExact(order: Order, taker: Order, s: nat)
    requires TakerOk(order, taker, s)
    ensures Le(Sub(order.quantity, order.filled), ZERO) <==> Want(order) <= 0.0
    ensures SubInRange(order.quantity, order.filled) && CompareInRange(Sub(order.quantity, order.filled), ZERO)
    ensures order.terms == taker.terms && order.side == taker.side && order.price == taker.price
  {
    OpenExact(order, s);
    PositiveExact(Sub(order.quantity, order.filled), s);
  }

  /** The three ways out of the loop: the matching still to do is empty. */
  lemma NothingMore(v: OrderView, levels: seq<Level>, want: real, ts: seq<TradeView>)
    requires want <= 0.0 || levels == [] || (levels[0].orders != [] && !Crosses(v, Val(levels[0].orders[0].price)))
    ensures Before(ts, Greedy.Match(v, ViewLevels(levels), want)) == Outcome(ViewLevels(levels), ts, want)
  {
    if levels != [] && levels[0].orders != [] {
      assert ViewLevels(levels)[0] == ViewOrder(levels[0].orders[0]);
    }
  }

  /** The best level, seen as the front of the flat queue, and its price compared with the taker's limit. */
  lemma BestLevel(side: Side, levels: seq<Level>, index: map<string, IndexEntry>, other: seq<Order>, taker: Order, s: nat)
    requires levels != [] && LevelsOk(side, levels, s) && QueueOk(side, Flat(levels), index, other)
    requires side == Opposite(taker.side) && TakerOk(taker, taker, s)
    ensures LevelOk(levels[0], s) && QueueOk(side, levels[0].orders + Flat(levels[1..]), index, other)
    ensures levels[0].orders != [] && Val(levels[0].orders[0].price) == Val(levels[0].price)
    ensures Crosses(ViewOrder(taker), Val(levels[0].price))
       <==> !(taker.terms.kind.Limit?
              && (if taker.side.Buy? then Gt(levels[0].price, taker.price) else Lt(levels[0].price, taker.price)))
    ensures CompareInRange(levels[0].price, taker.price)
    ensures ViewLevels(levels) == ViewOrders(levels[0].orders + Flat(levels[1..]))
  {
    CompareExact(levels[0].price, taker.price, s);
    assert OrderAt(levels[0].orders[0], Val(levels[0].price), s);
  }

  /** Writing the consumed level back, or erasing it when it is empty. */
  lemma AfterLevel(side: Side, levels: seq<Level>, level: Level, s: nat)
    requires levels != [] && LevelsOk(side, levels, s) && LevelOk(level, s) && level.price == levels[0].price
    ensures var next := if level.orders == [] then levels[1..] else [level] + levels[1..];
            LevelsOk(side, next, s) && Flat(next) == level.orders + Flat(levels[1..])
  {
    TailOk(side, levels, s);
    if level.orders != [] {
      ConsOk(side, level, levels[1..], s);
      assert ([level] + levels[1..])[1..] == levels[1..];
    }
  }

  // ----- volumes -----

  lemma PrefixVolume(side: Side, q: seq<Order>, i: nat)
    requires i < |q| && LiveQueue(side, q)
    ensures SumOpen(ViewOrders(q[..i + 1])) == SumOpen(ViewOrders(q[..i])) + Want(q[i])
    ensures 0.0 <= SumOpen(ViewOrders(q[..i])) && SumOpen(ViewOrders(q[..i + 1])) <= SumOpen(ViewOrders(q))
  {
    hide SumOpen, ViewOrders;
    var v := ViewOrders(q);
    ViewPrefix(q, i);
    ViewPrefix(q, i + 1);
    PrefixSums(side, v, i);
  }

  lemma ViewPrefix(q: seq<Order>, i: nat)
    requires i <= |q|
    ensures ViewOrders(q[..i]) == ViewOrders(q)[..i]
    ensures i < |q| ==> OpenQty(ViewOrders(q)[i]) == Want(q[i])
  {
  }

  lemma SumOfOne(o: OrderView)
    ensures SumOpen([o]) == OpenQty(o)
  {
    assert [o][1..] == [];
  }

  lemma PrefixSums(side: Side, v: seq<OrderView>, i: nat)
    requires i < |v| && AllLive(side, v)
    ensures SumOpen(v[..i + 1]) == SumOpen(v[..i]) + OpenQty(v[i])
    ensures 0.0 <= SumOpen(v[..i]) && SumOpen(v[..i + 1]) <= SumOpen(v)
  {
    hide SumOpen;
    assert v[..i + 1] == v[..i] + [v[i]] && v == v[..i + 1] + v[i + 1..];
    SumOfOne(v[i]);
    SumOpenConcat(v[..i], [v[i]]);
    SumOpenConcat(v[..i + 1], v[i + 1..]);
    SumOpenNonneg(side, v[..i]);
    SumOpenNonneg(side, v[i + 1..]);
  }

  /** The open volume of one level, summed order by order. */
  method LevelVolume(q: seq<Order>, ghost side: Side, ghost price: real, ghost s: Scale) returns (qty: Decimal)
    requires AllAt(q, price, s) && LiveQueue(side, q) && SumOpen(ViewOrders(q)) < Cap(s)
    ensures Fits(qty, s) && Val(qty) == SumOpen(ViewOrders(q))
  {
    qty := ZERO;
    ZeroFits(s);
    hide ViewOrders, SumOpen, ValueOf, AllAt, LiveQueue;
    assert SumOpen(ViewOrders(q[..0])) == 0.0 by {
      EmptyVolume(q[..0]);
    }
    for i := 0 to |q|
      invariant Fits(qty, s) && Val(qty) == SumOpen(ViewOrders(q[..i]))
    {
      OrderInLevel(side, q, price, i, s);
      PrefixVolume(side, q, i);
      OpenExact(q[i], s);
      var open := SafeSub(q[i].quantity, q[i].filled);
      AddExact(qty, open, s);
      qty := SafeAdd(qty, open);
    }
    assert q[..|q|] == q;
  }

  lemma EmptyVolume(q: seq<Order>)
    requires q == []
    ensures SumOpen(ViewOrders(q)) == 0.0
  {
  }

  lemma OrderInLevel(side: Side, q: seq<Order>, price: real, i: nat, s: nat)
    requires i < |q| && AllAt(q, price, s) && LiveQueue(side, q)
    ensures NumbersFit(q[i], s) && 0.0 <= Val(q[i].filled) < Val(q[i].quantity)
  {
    assert OrderAt(q[i], price, s);
  }

  lemma QueueVolume(side: Side, p: seq<Order>, q: seq<Order>)
    requires LiveQueue(side, p + q)
    ensures LiveQueue(side, p) && LiveQueue(side, q)
    ensures SumOpen(ViewOrders(p + q)) == SumOpen(ViewOrders(p)) + SumOpen(ViewOrders(q))
    ensures SumOpen(ViewOrders(p)) >= 0.0 && SumOpen(ViewOrders(q)) >= 0.0
  {
    assert forall i | 0 <= i < |p| :: (p + q)[i] == p[i];
    assert forall i | 0 <= i < |q| :: (p + q)[|p| + i] == q[i];
    ViewConcat(p, q);
    SumOpenConcat(ViewOrders(p), ViewOrders(q));
    SumOpenNonneg(side, ViewOrders(p));
    SumOpenNonneg(side, ViewOrders(q));
  }

  /** A level the taker accepts counts in full; one it does not accept ends the count. */
  lemma LevelAvailable(taker: Order, levels: seq<Level>, s: nat)
    requires levels != [] && LevelsOk(Opposite(taker.side), levels, s)
    requires taker.terms.kind.Limit?
    ensures var v := ViewOrder(taker);
            if Crosses(v, Val(levels[0].price))
            then Available(v, ViewLevels(levels))
                 == SumOpen(ViewOrders(levels[0].orders)) + Available(v, ViewLevels(levels[1..]))
            else Available(v, ViewLevels(levels)) == 0.0
  {
    var v, side := ViewOrder(taker), Opposite(taker.side);
    var p, q := levels[0].orders, Flat(levels[1..]);
    ViewConcat(p, q);
    AvailableConcat(v, ViewOrders(p), ViewOrders(q));
    assert forall i | 0 <= i < |p| :: OrderAt(p[i], Val(levels[0].price), s);
    if Crosses(v, Val(levels[0].price)) {
      AllAvailableAt(v, ViewOrders(p));
    } else {
      TailOk(side, levels, s);
      FlatBehind(side, Val(levels[0].price), levels[1..], s);
      NoneAvailable(v, ViewOrders(p));
      NoneAvailable(v, ViewOrders(q));
    }
  }

  /** The fill-or-kill dry run: what the limit accepts, level by level. */
  method FokVolume(order: Order, levels: seq<Level>, ghost s: Scale) returns (cumulative: Decimal)
    requires LevelsOk(Opposite(order.side), levels, s) && LiveQueue(Opposite(order.side), Flat(levels))
    requires SumOpen(ViewLevels(levels)) < Cap(s)
    requires NumbersFit(order, s) && order.terms.kind.Limit? && Val(order.quantity) > 0.0
    ensures Fits(cumulative, s) && Val(cumulative) == Available(ViewOrder(order), ViewLevels(levels))
  {
    hide ViewLevels, SumOpen, Available, ValueOf, Fits, LevelsOk, LiveQueue, Crosses, Compare, CompareInRange, AddInRange, Cap;
    ghost var v, side := ViewOrder(order), Opposite(order.side);
    ghost var total, volume := Available(v, ViewLevels(levels)), SumOpen(ViewLevels(levels));
    var remaining := order.quantity;
    QuantityCompares(order, s);
    ZeroFits(s);
    cumulative := ZERO;
    var i := 0;
    assert levels[0..] == levels;
    while i < |levels| && Above(remaining, ZERO)
      invariant i <= |levels|
      invariant LevelsOk(side, levels[i..], s) && LiveQueue(side, Flat(levels[i..]))
      invariant Fits(cumulative, s) && Val(cumulative) >= 0.0
      invariant Val(cumulative) + Available(v, ViewLevels(levels[i..])) == total
      invariant Val(cumulative) + SumOpen(ViewLevels(levels[i..])) == volume
    {
      ghost var left := levels[i..];
      assert left[0] == levels[i] && left[1..] == levels[i + 1..];
      LevelAvailable(order, left, s);
      LimitExact(order, left, s);
      if if order.side.Buy? then Above(levels[i].price, order.price) else Below(levels[i].price, order.price) {
        return;
      }
      LevelAndRest(side, left, s);
      var lvlQty := LevelVolume(levels[i].orders, side, Val(levels[i].price), s);
      FitsBelow(lvlQty, s);
      AddExact(cumulative, lvlQty, s);
      cumulative := SafeAdd(cumulative, lvlQty);
      i := i + 1;
    }
    NothingLeft(v, levels[i..]);
  }

  lemma QuantityCompares(order: Order, s: nat)
    requires NumbersFit(order, s) && Val(order.quantity) > 0.0
    ensures CompareInRange(order.quantity, ZERO) && Gt(order.quantity, ZERO)
  {
    PositiveExact(order.quantity, s);
  }

  lemma FitsBelow(d: Decimal, s: nat)
    requires Fits(d, s)
    ensures -Cap(s) < Val(d) < Cap(s)
  {
  }

  lemma NothingLeft(v: OrderView, levels: seq<Level>)
    requires levels == []
    ensures Available(v, ViewLevels(levels)) == 0.0
  {
  }

  /** Splitting off the first level: both parts are live, and the volumes add up. */
  lemma LevelAndRest(side: Side, levels: seq<Level>, s: nat)
    requires levels != [] && LevelsOk(side, levels, s) && LiveQueue(side, Flat(levels))
    ensures AllAt(levels[0].orders, Val(levels[0].price), s) && LiveQueue(side, levels[0].orders)
    ensures LevelsOk(side, levels[1..], s) && LiveQueue(side, Flat(levels[1..]))
    ensures SumOpen(ViewLevels(levels)) == SumOpen(ViewOrders(levels[0].orders)) + SumOpen(ViewLevels(levels[1..]))
    ensures SumOpen(ViewOrders(levels[0].orders)) >= 0.0 && SumOpen(ViewLevels(levels[1..])) >= 0.0
  {
    TailOk(side, levels, s);
    QueueVolume(side, levels[0].orders, Flat(levels[1..]));
  }

  /** The level's price against the limit, compared as decimals and as numbers. */
  lemma LimitExact(order: Order, levels: seq<Level>, s: nat)
    requires levels != [] && LevelsOk(Opposite(order.side), levels, s) && NumbersFit(order, s) && order.terms.kind.Limit?
    ensures var p := levels[0].price;
            && (Crosses(ViewOrder(order), Val(p)) <==> if order.side.Buy? then Le(p, order.price) else Ge(p, order.price))
            && (Crosses(ViewOrder(order), Val(p)) <==> !if order.side.Buy? then Gt(p, order.price) else Lt(p, order.price))
            && CompareInRange(p, order.price)
    ensures ViewLevels(levels) != [] && ViewLevels(levels)[0].price == Val(levels[0].price)
  {
    CompareExact(levels[0].price, order.price, s);
    assert OrderAt(levels[0].orders[0], Val(levels[0].price), s);
    assert ViewLevels(levels)[0] == ViewOrder(levels[0].orders[0]);
  }

  /** The price map compares the new key with existing ones only within int64. */
  lemma KeysCompare(levels: seq<Level>, order: Order, s: nat)
    requires NumbersFit(order, s) && forall i | 0 <= i < |levels| :: LevelOk(levels[i], s)
    ensures forall i | 0 <= i < |levels| :: CompareInRange(order.price, levels[i].price)
  {
    hide CompareInRange;
    forall i | 0 <= i < |levels|
      ensures CompareInRange(order.price, levels[i].price)
    {
      assert LevelOk(levels[i], s);
      CompareExact(order.price, levels[i].price, s);
    }
  }

  // ----- from the book invariant to the loops and back -----

  lemma NoLevels(levels: seq<Level>)
    requires levels == []
    ensures ViewLevels(levels) == []
  {
  }

  lemma IndexOfQueue(side: Side, q: seq<Order>, index: map<string, IndexEntry>, other: seq<Order>)
    requires QueueOk(side, q, index, other)
    ensures IndexOk(index, side.Buy?, q, other) && IndexOk(index, !side.Buy?, other, q)
  {
    IndexSwap(index, side.Buy?, q, other);
  }

  lemma LeftExact(order: Order, taker: Order, s: nat)
    requires TakerOk(order, taker, s)
    ensures Gt(Sub(order.quantity, order.filled), ZERO) <==> Want(order) > 0.0
    ensures Gt(order.filled, ZERO) <==> Val(order.filled) > 0.0
    ensures SubInRange(order.quantity, order.filled) && CompareInRange(Sub(order.quantity, order.filled), ZERO)
    ensures CompareInRange(order.filled, ZERO)
  {
    OpenExact(order, s);
    PositiveExact(Sub(order.quantity, order.filled), s);
    PositiveExact(order.filled, s);
  }

  /** The status an order leaves the matcher with, given how much of it is filled. */
  ghost function Settled(o: OrderView): OrderStatus {
    if OpenQty(o) <= 0.0 then OrderStatus.Filled
    else if o.filled > 0.0 then OrderStatus.PartiallyFilled
    else if Rests(o) then OrderStatus.Open
    else OrderStatus.Canceled
  }

  lemma NoTrades()
    ensures ViewTrades([]) == []
  {
  }

  lemma TakerStarts(order: Order, s: nat)
    requires NumbersFit(order, s) && Val(order.filled) == 0.0 && Val(order.quantity) > 0.0
    ensures TakerOk(order, order, s) && Want(order) == Val(order.quantity)
  {
  }

  lemma TakerEnds(order: Order, taker: Order, s: nat)
    requires TakerOk(order, taker, s) && Val(taker.filled) == 0.0
    ensures order == taker.(filled := order.filled) && NumbersFit(order, s)
    ensures ViewOrder(order) == FillBy(ViewOrder(taker), Val(taker.quantity) - Want(order))
    ensures Val(order.filled) == Val(taker.quantity) - Want(order)
  {
  }

  /** Placing raises a side's volume by the taker's quantity at most, and only on its own side. */
  lemma PlaceBounded(b: Book, o: OrderView, cap: real)
    requires Inv(b) && Placeable(b, o)
    requires SumOpen(b.bids) < cap && SumOpen(b.asks) < cap && SumOpen(b.On(o.side)) + o.quantity < cap
    ensures SumOpen(Place(b, o).book.bids) < cap && SumOpen(Place(b, o).book.asks) < cap
  {
    PlaceConserves(b, o);
  }

  lemma NotHeld(index: map<string, IndexEntry>, isBid: bool, q: seq<Order>, other: seq<Order>, id: string)
    requires IndexOk(index, isBid, q, other) && id !in index
    ensures !Holds(q, id) && !Holds(other, id)
  {
    hide ToString;
  }

  /** Liveness and distinctness of a queue, read off its view. */
  lemma QueueOfView(market: string, side: Side, q: seq<Order>, index: map<string, IndexEntry>, other: seq<Order>)
    requires SideInv(market, side, ViewOrders(q)) && IndexOk(index, side.Buy?, q, other)
    ensures QueueOk(side, q, index, other)
  {
    hide ToString, Val;
    assert forall i | 0 <= i < |q| :: ViewOrders(q)[i] == ViewOrder(q[i]);
    assert LiveQueue(side, q) by {
      forall i | 0 <= i < |q|
        ensures 0.0 <= Val(q[i].filled) < Val(q[i].quantity) && q[i].side == side
      {
        assert Live(ViewOrders(q)[i]);
      }
    }
    assert IdsDistinct(q) by {
      forall i, j | 0 <= i < j < |q|
        ensures q[i].id != q[j].id
      {
        assert ViewOrders(q)[i].id != ViewOrders(q)[j].id;
      }
    }
  }

  lemma ViewMembers(q: seq<Order>, id: string)
    ensures (exists o | o in ViewOrders(q) :: o.id == id) <==> Holds(q, id)
  {
    if Holds(q, id) {
      var o :| o in q && o.id == id;
      var i :| 0 <= i < |q| && q[i] == o;
      assert ViewOrders(q)[i] in ViewOrders(q);
    }
    if exists o | o in ViewOrders(q) :: o.id == id {
      var o :| o in ViewOrders(q) && o.id == id;
      var i :| 0 <= i < |q| && ViewOrders(q)[i] == o;
      assert q[i] in q;
    }
  }

  /** The index holds an id exactly when the book does. */
  lemma IndexIsBook(market: string, bids: seq<Order>, asks: seq<Order>, index: map<string, IndexEntry>, id: string)
    requires IndexOk(index, true, bids, asks)
    ensures id in index <==> Book(market, ViewOrders(bids), ViewOrders(asks)).Has(id)
    ensures id in index <==> Holds(bids, id) || Holds(asks, id)
  {
    hide ToString;
    ViewMembers(bids, id);
    ViewMembers(asks, id);
    if Holds(bids, id) {
      var o :| o in bids && o.id == id;
    }
    if Holds(asks, id) {
      var o :| o in asks && o.id == id;
    }
  }

  // ----- canceling -----

  /** Levels printed differently from the indexed key cannot hold the order. */
  lemma OtherKey(side: Side, ls: seq<Level>, it: nat, index: map<string, IndexEntry>, other: seq<Order>, id: string, s: nat)
    requires LevelsOk(side, ls, s) && it < |ls| && IndexOk(index, side.Buy?, Flat(ls), other)
    requires id in index && ToString(ls[it].price) != index[id].priceKey
    ensures !Holds(ls[it].orders, id)
  {
    hide ToString;
    forall o | o in ls[it].orders
      ensures o.id != id
    {
      var k :| 0 <= k < |ls[it].orders| && ls[it].orders[k] == o;
      assert OrderAt(o, Val(ls[it].price), s);
      LevelMembers(ls, it, o);
      FitsRoundTrip(o.price, s);
      FitsRoundTrip(ls[it].price, s);
      PrintCanonical(o.price, ls[it].price);
    }
  }

  lemma {:induction false} LevelMembers(ls: seq<Level>, it: nat, o: Order)
    requires it < |ls| && o in ls[it].orders
    ensures o in Flat(ls)
  {
    if it > 0 {
      LevelMembers(ls[1..], it - 1, o);
    }
  }

  /** The levels after the order at position `k` of level `it` is erased, and the level with it if it was alone. */
  function Erased(ls: seq<Level>, it: nat, k: nat): seq<Level>
    requires it < |ls| && k < |ls[it].orders|
  {
    var q := ls[it].orders[..k] + ls[it].orders[k + 1..];
    ls[..it] + (if q == [] then [] else [Level(ls[it].price, q)]) + ls[it + 1..]
  }

  lemma ErasedFlat(ls: seq<Level>, it: nat, k: nat)
    requires it < |ls| && k < |ls[it].orders|
    ensures var q, n := ls[it].orders, |Flat(ls[..it])|;
            && n + k < |Flat(ls)| && Flat(ls)[n + k] == q[k]
            && Flat(Erased(ls, it, k)) == Flat(ls)[..n + k] + Flat(ls)[n + k + 1..]
  {
    var a, q, c := Flat(ls[..it]), ls[it].orders, Flat(ls[it + 1..]);
    hide Flat, Erased;
    ErasedParts(ls, it, k);
    CutMiddle(a, q, c, k);
  }

  lemma ErasedParts(ls: seq<Level>, it: nat, k: nat)
    requires it < |ls| && k < |ls[it].orders|
    ensures var a, q, c := Flat(ls[..it]), ls[it].orders, Flat(ls[it + 1..]);
            && Flat(ls) == a + (q + c)
            && Flat(Erased(ls, it, k)) == (a + (q[..k] + q[k + 1..])) + c
  {
    var q := ls[it].orders;
    var r := q[..k] + q[k + 1..];
    var mid := if r == [] then [] else [Level(ls[it].price, r)];
    OneLevel(ls[it].price, r);
    hide Flat;
    FlatAround(ls, it, mid);
  }

  lemma OneLevel(price: Decimal, q: seq<Order>)
    ensures Flat(if q == [] then [] else [Level(price, q)]) == q
  {
    if q != [] {
      assert [Level(price, q)][1..] == [];
    }
  }

  lemma FlatAround(ls: seq<Level>, it: nat, mid: seq<Level>)
    requires it < |ls|
    ensures Flat(ls[..it] + mid + ls[it + 1..]) == (Flat(ls[..it]) + Flat(mid)) + Flat(ls[it + 1..])
    ensures Flat(ls) == Flat(ls[..it]) + (ls[it].orders + Flat(ls[it + 1..]))
  {
    FlatConcat(ls[..it] + mid, ls[it + 1..]);
    FlatConcat(ls[..it], mid);
    assert ls == ls[..it] + ls[it..] && ls[it..][1..] == ls[it + 1..];
    FlatConcat(ls[..it], ls[it..]);
  }

  lemma CutMiddle(a: seq<Order>, q: seq<Order>, c: seq<Order>, k: nat)
    requires k < |q|
    ensures var all := a + (q + c);
            && |all| == |a| + |q| + |c| && all[|a| + k] == q[k]
            && (a + (q[..k] + q[k + 1..])) + c == all[..|a| + k] + all[|a| + k + 1..]
  {
  }

  lemma ErasedOk(side: Side, ls: seq<Level>, it: nat, k: nat, s: nat)
    requires LevelsOk(side, ls, s) && it < |ls| && k < |ls[it].orders|
    ensures LevelsOk(side, Erased(ls, it, k), s)
  {
    hide ToString, NumbersFit;
    var q := ls[it].orders[..k] + ls[it].orders[k + 1..];
    var r := Erased(ls, it, k);
    assert AllAt(q, Val(ls[it].price), s) by {
      assert forall i | 0 <= i < |q| :: q[i] == ls[it].orders[if i < k then i else i + 1];
    }
    hide AllAt;
    if q == [] {
      assert forall i | 0 <= i < |r| :: r[i] == ls[if i < it then i else i + 1];
    } else {
      assert LevelOk(Level(ls[it].price, q), s);
      assert forall i | 0 <= i < |r| :: r[i] == if i == it then Level(ls[it].price, q) else ls[i];
    }
  }

  /** Erasing the only order of an id, seen on the flat queue. */
  lemma ErasedView(market: string, side: Side, q: seq<Order>, n: nat, id: string)
    requires n < |q| && q[n].id == id && SideInv(market, side, ViewOrders(q))
    ensures var r := q[..n] + q[n + 1..];
            && ViewOrders(r) == Without(ViewOrders(q), id)
            && (forall x :: x in r <==> x in q && x.id != id)
  {
    hide ToString, Val;
    ErasedIsWithout(market, side, q, n, id);
    ErasedMembers(q, n, id);
  }

  lemma ErasedIsWithout(market: string, side: Side, q: seq<Order>, n: nat, id: string)
    requires n < |q| && q[n].id == id && DistinctIds(ViewOrders(q))
    ensures ViewOrders(q[..n] + q[n + 1..]) == Without(ViewOrders(q), id)
  {
    hide Val;
    var v := ViewOrders(q);
    assert v[n].id == id && v[Find(v, id)].id == id;
    assert Find(v, id) == n;
    hide ViewOrders;
    ViewConcat(q[..n], q[n + 1..]);
    ViewDrop(q, n);
    ViewDrop(q, n + 1);
  }

  lemma ErasedMembers(q: seq<Order>, n: nat, id: string)
    requires n < |q| && q[n].id == id && DistinctIds(ViewOrders(q))
    ensures forall x :: x in q[..n] + q[n + 1..] <==> x in q && x.id != id
  {
    OthersDiffer(q, n);
    hide DistinctIds, ViewOrders;
    forall x | x in q && x.id != id
      ensures x in q[..n] + q[n + 1..]
    {
      var i :| 0 <= i < |q| && q[i] == x;
      OtherStays(q, n, i);
    }
    forall x | x in q[..n] + q[n + 1..]
      ensures x in q && x.id != id
    {
      var i := WasOther(q, n, x);
    }
  }

  lemma OtherStays(q: seq<Order>, n: nat, i: nat)
    requires n < |q| && i < |q| && i != n
    ensures q[i] in q[..n] + q[n + 1..]
  {
    var r := q[..n] + q[n + 1..];
    assert r[if i < n then i else i - 1] == q[i];
  }

  lemma WasOther(q: seq<Order>, n: nat, x: Order) returns (i: nat)
    requires n < |q| && x in q[..n] + q[n + 1..]
    ensures i < |q| && i != n && q[i] == x
  {
    var r := q[..n] + q[n + 1..];
    var k :| 0 <= k < |r| && r[k] == x;
    i := if k < n then k else k + 1;
  }

  lemma OthersDiffer(q: seq<Order>, n: nat)
    requires n < |q| && DistinctIds(ViewOrders(q))
    ensures forall i | 0 <= i < |q| && i != n :: q[i].id != q[n].id
  {
    hide Val;
    var v := ViewOrders(q);
    assert forall i | 0 <= i < |q| :: v[i].id == q[i].id;
  }

  lemma AbsentView(q: seq<Order>, id: string)
    requires !Holds(q, id)
    ensures Without(ViewOrders(q), id) == ViewOrders(q)
  {
    forall i | 0 <= i < |q|
      ensures ViewOrders(q)[i].id != id
    {
      assert q[i] in q;
    }
  }

  lemma NowhereYet(ls: seq<Level>, id: string)
    ensures !Holds(Flat(ls[..0]), id)
  {
  }

  lemma NotInLevel(q: seq<Order>, id: string)
    requires forall j | 0 <= j < |q| :: q[j].id != id
    ensures !Holds(q, id)
  {
  }

  lemma ExtendPrefix(ls: seq<Level>, it: nat, id: string)
    requires it < |ls| && !Holds(Flat(ls[..it]), id) && !Holds(ls[it].orders, id)
    ensures !Holds(Flat(ls[..it + 1]), id)
  {
    assert ls[..it + 1] == ls[..it] + [ls[it]];
    FlatConcat(ls[..it], [ls[it]]);
    assert [ls[it]][1..] == [];
    assert Flat([ls[it]]) == ls[it].orders;
  }

  lemma WholePrefix(ls: seq<Level>, it: nat, id: string)
    requires it <= |ls| && !Holds(Flat(ls[..it]), id)
    ensures it == |ls| ==> !Holds(Flat(ls), id)
  {
    if it == |ls| {
      assert ls[..it] == ls;
    }
  }

  /** An indexed order rests on the side its entry names, and not on the other. */
  lemma OnItsSide(index: map<string, IndexEntry>, side: Side, q: seq<Order>, other: seq<Order>, id: string)
    requires IndexOk(index, side.Buy?, q, other) && id in index && index[id].isBid == side.Buy?
    ensures Holds(q, id) && !Holds(other, id)
  {
    hide ToString;
  }

  lemma CancelBounded(b: Book, id: string, cap: real)
    requires Inv(b) && SumOpen(b.bids) < cap && SumOpen(b.asks) < cap
    ensures SumOpen(BookSpec.Cancel(b, id).bids) < cap && SumOpen(BookSpec.Cancel(b, id).asks) < cap
  {
    RemovalVolume(Buy, b.bids, id);
    RemovalVolume(Sell, b.asks, id);
  }

  lemma RemovalVolume(side: Side, q: seq<OrderView>, id: string)
    requires AllLive(side, q)
    ensures SumOpen(Without(q, id)) <= SumOpen(q)
  {
    hide SumOpen, Find;
    var k := Find(q, id);
    if k < |q| {
      assert Live(q[k]);
      OneOpen(q, k);
      SumOpenConcat(q[..k], q[k + 1..]);
    }
  }

  lemma OneOpen(q: seq<OrderView>, k: nat)
    requires k < |q|
    ensures SumOpen(q) == SumOpen(q[..k]) + OpenQty(q[k]) + SumOpen(q[k + 1..])
  {
    assert q == q[..k] + q[k..] && q[k..][1..] == q[k + 1..];
    assert SumOpen(q[k..]) == OpenQty(q[k]) + SumOpen(q[k + 1..]);
    hide SumOpen;
    SumOpenConcat(q[..k], q[k..]);
  }

  // ----- depth -----

  /** `s` is how the engine prints the number `v`. */
  ghost predicate Prints(s: string, v: real) {
    Printable(Parse(s)) && ToString(Parse(s)) == s && Val(Parse(s)) == v
  }

  lemma PrintsUnique(s: string, t: string, v: real)
    requires Prints(s, v) && Prints(t, v)
    ensures s == t
  {
    PrintCanonical(Parse(s), Parse(t));
  }

  lemma FitsPrints(d: Decimal, s: nat)
    requires Fits(d, s)
    ensures Prints(ToString(d), Val(d))
  {
    FitsRoundTrip(d, s);
    FitsRoundTrip(Parse(ToString(d)), s);
    PrintCanonical(d, Parse(ToString(d)));
  }

  ghost predicate PrintsRow(row: (string, string), entry: (real, real)) {
    Prints(row.0, entry.0) && Prints(row.1, entry.1)
  }

  /** The rows print the first `depth` entries of the side's depth. */
  ghost predicate PrintsDepth(rows: seq<(string, string)>, q: seq<OrderView>, depth: int) {
    && |rows| == (if depth <= 0 then 0 else if depth < |Depths(q)| then depth else |Depths(q)|)
    && forall i | 0 <= i < |rows| :: PrintsRow(rows[i], Depths(q)[i])
  }

  lemma {:induction false} DepthsOfLevels(side: Side, levels: seq<Level>, s: nat, i: nat)
    requires LevelsOk(side, levels, s) && i < |levels|
    ensures |Depths(ViewLevels(levels))| == |levels|
    ensures Depths(ViewLevels(levels))[i] == (Val(levels[i].price), SumOpen(ViewOrders(levels[i].orders)))
    decreases |levels|
  {
    hide ToString, ValueOf, Fits;
    var p, q, rest := levels[0].orders, Flat(levels[1..]), levels[1..];
    TailOk(side, levels, s);
    ViewConcat(p, q);
    assert forall k | 0 <= k < |p| :: OrderAt(p[k], Val(levels[0].price), s);
    if rest == [] {
      NoLevels(rest);
    } else {
      DepthsOfLevels(side, rest, s, if i > 0 then i - 1 else 0);
      assert OrderAt(rest[0].orders[0], Val(rest[0].price), s);
      assert ViewLevels(rest)[0] == ViewOrder(rest[0].orders[0]);
    }
    DepthsOfLevel(ViewOrders(p), ViewLevels(rest), Val(levels[0].price));
  }

  lemma DepthsCount(side: Side, levels: seq<Level>, s: nat)
    requires LevelsOk(side, levels, s)
    ensures |Depths(ViewLevels(levels))| == |levels|
  {
    if levels == [] {
      NoLevels(levels);
    } else {
      DepthsOfLevels(side, levels, s, 0);
    }
  }

  /** The first `depth` levels of one side, as printed price and volume. */
  method SideDepth(side: Side, levels: seq<Level>, depth: int, ghost s: Scale) returns (rows: seq<(string, string)>)
    requires LevelsOk(side, levels, s) && LiveQueue(side, Flat(levels)) && SumOpen(ViewLevels(levels)) < Cap(s)
    ensures |rows| == (if depth <= 0 then 0 else if depth < |levels| then depth else |levels|)
    ensures |Depths(ViewLevels(levels))| == |levels|
    ensures forall i | 0 <= i < |rows| :: PrintsRow(rows[i], Depths(ViewLevels(levels))[i])
  {
    hide ToString, Parse, ViewLevels, SumOpen, ValueOf, Fits, LevelsOk, LiveQueue, Depths, PrintsRow, Prints;
    ghost var d, total := Depths(ViewLevels(levels)), SumOpen(ViewLevels(levels));
    DepthsCount(side, levels, s);
    rows := [];
    var i := 0;
    assert levels[0..] == levels;
    while i < |levels| && i < depth
      invariant i <= |levels| && |rows| == i && (depth >= 0 ==> i <= depth) && (depth < 0 ==> i == 0)
      invariant LevelsOk(side, levels[i..], s) && LiveQueue(side, Flat(levels[i..]))
      invariant SumOpen(ViewLevels(levels[i..])) <= total
      invariant forall k | 0 <= k < i :: PrintsRow(rows[k], d[k])
    {
      ghost var left := levels[i..];
      assert left[0] == levels[i] && left[1..] == levels[i + 1..];
      LevelAndRest(side, left, s);
      var qty := LevelVolume(levels[i].orders, side, Val(levels[i].price), s);
      DepthsOfLevels(side, levels, s, i);
      RowPrints(side, left, qty, d[i], s);
      rows := rows + [(ToString(levels[i].price), ToString(qty))];
      i := i + 1;
    }
  }

  lemma RowPrints(side: Side, levels: seq<Level>, qty: Decimal, entry: (real, real), s: nat)
    requires levels != [] && LevelsOk(side, levels, s) && Fits(qty, s) && entry == (Val(levels[0].price), Val(qty))
    ensures PrintsRow((ToString(levels[0].price), ToString(qty)), entry)
  {
    FitsPrints(levels[0].price, s);
    FitsPrints(qty, s);
  }

  // ----- snapshots -----

  /** One side of the snapshot, order by order. */
  method SideJson(levels: seq<Level>) returns (rows: seq<OrderJson>)
    ensures rows == AllToJson(Flat(levels))
  {
    hide ToJson, AllToJson, Flat;
    rows := [];
    NoLevelRows(levels);
    for i := 0 to |levels|
      invariant rows == AllToJson(Flat(levels[..i]))
    {
      var q := levels[i].orders;
      ghost var before := Flat(levels[..i]);
      assert before + q[..0] == before;
      for k := 0 to |q|
        invariant rows == AllToJson(before + q[..k])
      {
        OneMoreRow(before + q[..k], q[k]);
        assert before + q[..k + 1] == (before + q[..k]) + [q[k]];
        rows := rows + [ToJson(q[k])];
      }
      assert q[..|q|] == q;
      OneMoreLevel(levels, i);
    }
    assert levels[..|levels|] == levels;
  }

  lemma NoLevelRows(levels: seq<Level>)
    ensures AllToJson(Flat(levels[..0])) == []
  {
    assert levels[..0] == [];
  }

  lemma OneMoreRow(q: seq<Order>, o: Order)
    ensures AllToJson(q + [o]) == AllToJson(q) + [ToJson(o)]
  {
    hide ToJson;
  }

  lemma OneMoreLevel(levels: seq<Level>, i: nat)
    requires i < |levels|
    ensures Flat(levels[..i + 1]) == Flat(levels[..i]) + levels[i].orders
  {
    assert levels[..i + 1] == levels[..i] + [levels[i]];
    FlatConcat(levels[..i], [levels[i]]);
    assert [levels[i]][1..] == [];
  }

  lemma SerializedSide(market: string, side: Side, q: seq<Order>, s: nat)
    requires RowsFit(q, s) && SideInv(market, side, ViewOrders(q))
    ensures var r := AllFromJson(market, AllToJson(q)); ViewOrders(r) == ViewOrders(q) && RowsFit(r, s)
  {
    forall i | 0 <= i < |q|
      ensures q[i].terms.market == market
    {
      assert ViewOrders(q)[i].terms.market == market;
    }
    OrdersRoundTrip(market, q, s);
  }

  /** Filing row `i` is one step of the fold over the rows. */
  lemma FileRow(side: Side, ls: seq<Level>, index: map<string, IndexEntry>, isBid: bool, q: seq<Order>, i: nat)
    requires i < |q|
    ensures PushAll(side, ls, q[i..]) == PushAll(side, PushBack(side, ls, q[i]), q[i + 1..])
    ensures IndexAll(index, isBid, q[i..])
         == IndexAll(index[q[i].id := IndexEntry(isBid, ToString(q[i].price))], isBid, q[i + 1..])
  {
    hide ToString, PushBack;
    assert q[i..][0] == q[i] && q[i..][1..] == q[i + 1..];
  }

  lemma NoRows(side: Side, ls: seq<Level>, index: map<string, IndexEntry>, isBid: bool, q: seq<Order>)
    requires q == []
    ensures PushAll(side, ls, q) == ls && IndexAll(index, isBid, q) == index
  {
  }

  class OrderBook {
    const market: string
    /** The decimal scale up to which every number of the book is exact in int64 arithmetic. */
    ghost const scale: Scale
    var bids: seq<Level>
    var asks: seq<Level>
    var orderIndex: map<string, IndexEntry>

    ghost predicate Valid()
      reads this
    {
      && LevelsOk(Buy, bids, scale) && LevelsOk(Sell, asks, scale)
      && IndexOk(orderIndex, true, Flat(bids), Flat(asks))
      && Inv(View())
      && SumOpen(View().bids) < Cap(scale) && SumOpen(View().asks) < Cap(scale)
    }

    /** The book as flat priority lists with exact numbers. */
    ghost function View(): Book
      reads this
    {
      Book(market, ViewLevels(bids), ViewLevels(asks))
    }

    function LevelsOn(side: Side): seq<Level>
      reads this
    {
      if side.Buy? then bids else asks
    }

    constructor (market: string, ghost scale: Scale)
      ensures Valid() && this.market == market && this.scale == scale && View() == Book(market, [], [])
    {
      this.market := market;
      this.scale := scale;
      bids, asks, orderIndex := [], [], map[];
      new;
      ZeroFits(scale);
    }

    method SetLevels(side: Side, ls: seq<Level>)
      modifies this`bids, this`asks
      ensures LevelsOn(side) == ls && LevelsOn(Opposite(side)) == old(LevelsOn(Opposite(side)))
    {
      if side.Buy? {
        bids := ls;
      } else {
        asks := ls;
      }
    }

    /** The matching loop: consume the best opposite level while the order wants more and its limit allows. */
    method TryMatch(taker: Order, limitPrice: Decimal) returns (order: Order, trades: seq<Trade>)
      requires TakerOk(taker, taker, scale) && taker.terms.market == market
      requires taker.terms.kind.Limit? ==> limitPrice == taker.price
      requires LevelsOk(Opposite(taker.side), LevelsOn(Opposite(taker.side)), scale)
      requires QueueOk(Opposite(taker.side), Flat(LevelsOn(Opposite(taker.side))), orderIndex, Flat(LevelsOn(taker.side)))
      modifies this`bids, this`asks, this`orderIndex
      ensures LevelsOn(taker.side) == old(LevelsOn(taker.side))
      ensures LevelsOk(Opposite(taker.side), LevelsOn(Opposite(taker.side)), scale)
      ensures QueueOk(Opposite(taker.side), Flat(LevelsOn(Opposite(taker.side))), orderIndex, Flat(LevelsOn(taker.side)))
      ensures TakerOk(order, taker, scale) && forall t | t in trades :: TradeFits(t, scale)
      ensures Greedy.Match(ViewOrder(taker), old(ViewLevels(LevelsOn(Opposite(taker.side)))), Want(taker))
           == Outcome(ViewLevels(LevelsOn(Opposite(taker.side))), ViewTrades(trades), Want(order))
    {
      hide ToString, QueueOk, LevelsOk, LevelOk, TakerOk, ViewOrders, TradeFits, Greedy.Match, Flat, Crosses, ValueOf, ViewTrades, Compare, Sub;
      ghost var v := ViewOrder(taker);
      var opp := Opposite(taker.side);
      ghost var start := Greedy.Match(v, ViewLevels(LevelsOn(opp)), Want(taker));
      order, trades := taker, [];
      NoTradesYet(start);
      while true
        invariant LevelsOn(taker.side) == old(LevelsOn(taker.side))
        invariant LevelsOk(opp, LevelsOn(opp), scale)
        invariant QueueOk(opp, Flat(LevelsOn(opp)), orderIndex, Flat(LevelsOn(taker.side)))
        invariant TakerOk(order, taker, scale) && forall t | t in trades :: TradeFits(t, scale)
        invariant start == Before(ViewTrades(trades), Greedy.Match(v, ViewLevels(LevelsOn(opp)), Want(order)))
        decreases |LevelsOn(opp)|, if Want(order) > 0.0 then 1 else 0
      {
        RemainingExact(order, taker, scale);
        var remaining := SafeSub(order.quantity, order.filled);
        var levels := LevelsOn(opp);
        if AtMost(remaining, ZERO) {
          NothingMore(v, levels, Want(order), ViewTrades(trades));
          break;
        }
        if levels == [] {
          NothingMore(v, levels, Want(order), ViewTrades(trades));
          break;
        }
        var level := levels[0];
        BestLevel(opp, levels, orderIndex, Flat(LevelsOn(taker.side)), taker, scale);
        if order.terms.kind.Limit? && (if order.side.Buy? then Above(level.price, limitPrice) else Below(level.price, limitPrice)) {
          NothingMore(v, levels, Want(order), ViewTrades(trades));
          break;
        }
        var ts, index;
        order, level, index, ts := MatchLevel(taker, order, level, orderIndex, market,
                                              Flat(levels[1..]), Flat(LevelsOn(taker.side)), scale);
        orderIndex := index;
        var next := if level.orders == [] then levels[1..] else [level] + levels[1..];
        AfterLevel(opp, levels, level, scale);
        SetLevels(opp, next);
        MoreTrades(start, ViewTrades(trades), ViewTrades(ts), Greedy.Match(v, ViewLevels(next), Want(order)));
        ViewTradesConcat(trades, ts);
        trades := trades + ts;
      }
    }

    /** Post-only orders that would trade, and fill-or-kill orders that cannot be filled, are turned away. */
    method TurnAway(order: Order) returns (rejected: bool)
      requires Valid() && NumbersFit(order, scale) && Val(order.quantity) > 0.0
      ensures rejected == (PostOnlyCrosses(View(), ViewOrder(order)) || FokUnfillable(View(), ViewOrder(order)))
    {
      var opp := Opposite(order.side);
      var levels := LevelsOn(opp);
      assert ViewLevels(levels) == View().On(opp);
      Ready(order.side);
      assert LiveQueue(opp, Flat(levels));
      hide ToString, QueueOk, ViewLevels, LevelsOk, Inv, IndexOk, Available, Crosses, Fits, Compare;
      if order.terms.kind.Limit? && order.terms.postOnly && levels != [] {
        LimitExact(order, levels, scale);
        if if order.side.Buy? then AtMost(levels[0].price, order.price) else AtLeast(levels[0].price, order.price) {
          return true;
        }
      }
      if levels == [] {
        NoLevels(levels);
      }
      if order.terms.kind.Limit? && order.terms.tif.FOK? {
        var cumulative := FokVolume(order, levels, scale);
        CompareExact(cumulative, order.quantity, scale);
        return Below(cumulative, order.quantity);
      }
      return false;
    }

    /** Put the unfilled remainder on the book and into the index. */
    method Rest(order: Order)
      requires NumbersFit(order, scale)
      requires LevelsOk(order.side, LevelsOn(order.side), scale)
      requires IndexOk(orderIndex, order.side.Buy?, Flat(LevelsOn(order.side)), Flat(LevelsOn(Opposite(order.side))))
      requires order.id !in orderIndex
      modifies this`bids, this`asks, this`orderIndex
      ensures LevelsOn(Opposite(order.side)) == old(LevelsOn(Opposite(order.side)))
      ensures LevelsOk(order.side, LevelsOn(order.side), scale)
      ensures IndexOk(orderIndex, order.side.Buy?, Flat(LevelsOn(order.side)), Flat(LevelsOn(Opposite(order.side))))
      ensures ViewLevels(LevelsOn(order.side)) == Insert(order.side, old(ViewLevels(LevelsOn(order.side))), ViewOrder(order))
      ensures forall i | 0 <= i < |old(LevelsOn(order.side))| :: CompareInRange(order.price, old(LevelsOn(order.side))[i].price)
    {
      var levels := LevelsOn(order.side);
      KeysCompare(levels, order, scale);
      var next := PushBack(order.side, levels, order);
      PushBackOk(order.side, levels, order, scale);
      PushBackInserts(order.side, levels, order, scale);
      PushBackMembers(order.side, levels, order);
      hide ToString, LevelsOk, ViewLevels, Insert, PushBack, Flat;
      NotHeld(orderIndex, order.side.Buy?, Flat(levels), Flat(LevelsOn(Opposite(order.side))), order.id);
      IndexAdd(orderIndex, order.side.Buy?, Flat(levels), Flat(LevelsOn(Opposite(order.side))), order, Flat(next));
      hide IndexOk;
      SetLevels(order.side, next);
      orderIndex := orderIndex[order.id := IndexEntry(order.side.Buy?, ToString(order.price))];
    }

    /**
     * Match an incoming order. The new book, the trades, and the order's filled quantity and status are those of
     * placing it on the flat book with exact numbers, and no int64 operation on the way loses a digit.
     */
    method Match(order0: Order) returns (order: Order, trades: seq<Trade>)
      requires Valid() && Placeable(View(), ViewOrder(order0)) && NumbersFit(order0, scale)
      requires SumOpen(View().On(order0.side)) + Val(order0.quantity) < Cap(scale)
      modifies this`bids, this`asks, this`orderIndex
      ensures Valid()
      ensures var p := Place(old(View()), ViewOrder(order0));
              && View() == p.book && ViewTrades(trades) == p.trades
              && order == order0.(filled := order.filled, status := p.status) && Val(order.filled) == p.filled
      ensures NumbersFit(order, scale) && forall t | t in trades :: TradeFits(t, scale)
    {
      hide ToString, QueueOk, LevelsOk, Inv, ViewLevels, Insert, Greedy.Match, Available, PostOnlyCrosses, FokUnfillable,
           Fits, Compare, SumOpen, ViewTrades, IndexOk, TradeFits, ValueOf, TakerOk;
      ghost var b, v := View(), ViewOrder(order0);
      ghost var opp := Opposite(order0.side);
      PlaceKeepsInv(b, v);
      PlaceBounded(b, v, Cap(scale));
      FillKeepsInv(b, v);
      Ready(order0.side);
      trades := [];
      var rejected := TurnAway(order0);
      if rejected {
        order := order0.(status := OrderStatus.Rejected);
        NoTrades();
        return;
      }
      ghost var out := Greedy.Match(v, b.On(opp), v.quantity);
      var limit := if order0.terms.kind.Limit? then order0.price
                   else if order0.side.Buy? then Decimal(1_000_000_000_000_000_000, 0) else ZERO;
      TakerStarts(order0, scale);
      order, trades := TryMatch(order0, limit);
      assert View() == b.With(opp, out.makers);
      IndexOfQueue(opp, Flat(LevelsOn(opp)), orderIndex, Flat(LevelsOn(order0.side)));
      IndexBothWays(order0.side);
      IndexIsView(order0.id);
      TakerEnds(order, order0, scale);
      order := Settle(order, order0);
      IndexBothWays(order0.side);
    }

    /** After the loop: rest a good-till-canceled remainder, and set the status. */
    method Settle(order0: Order, ghost taker: Order) returns (order: Order)
      requires TakerOk(order0, taker, scale) && order0.id !in orderIndex
      requires LevelsOk(order0.side, LevelsOn(order0.side), scale)
      requires IndexOk(orderIndex, order0.side.Buy?, Flat(LevelsOn(order0.side)), Flat(LevelsOn(Opposite(order0.side))))
      modifies this`bids, this`asks, this`orderIndex
      ensures LevelsOn(Opposite(order0.side)) == old(LevelsOn(Opposite(order0.side)))
      ensures LevelsOk(order0.side, LevelsOn(order0.side), scale)
      ensures IndexOk(orderIndex, order0.side.Buy?, Flat(LevelsOn(order0.side)), Flat(LevelsOn(Opposite(order0.side))))
      ensures ViewLevels(LevelsOn(order0.side))
           == (if Want(order0) > 0.0 && Rests(ViewOrder(order0))
               then Insert(order0.side, old(ViewLevels(LevelsOn(order0.side))), ViewOrder(order0))
               else old(ViewLevels(LevelsOn(order0.side))))
      ensures order == order0.(status := Settled(ViewOrder(order0)))
    {
      order := order0;
      LeftExact(order, taker, scale);
      var remaining := SafeSub(order.quantity, order.filled);
      assert NumbersFit(order, scale);
      hide ToString, LevelsOk, IndexOk, ViewLevels, Insert, Fits, Compare, TakerOk, Flat, CompareInRange;
      if Above(remaining, ZERO) {
        if order.terms.kind.Limit? && order.terms.tif.GTC? {
          var o := order.(status := if Above(order.filled, ZERO) then OrderStatus.PartiallyFilled else OrderStatus.Open);
          Rest(o);
          order := order.(status := o.status);
        } else if order.terms.tif.IOC? {
          order := order.(status := if Above(order.filled, ZERO) then OrderStatus.PartiallyFilled else OrderStatus.Canceled);
        } else {
          order := order.(status := if Above(order.filled, ZERO) then OrderStatus.PartiallyFilled else OrderStatus.Canceled);
        }
      } else {
        order := order.(status := OrderStatus.Filled);
      }
    }

    /**
     * Cancel a resting order: true exactly when the id rests, and then only that order is gone. The search by
     * printed price always finds it, so the loops never run to their end.
     */
    method Cancel(orderId: string) returns (found: bool)
      requires Valid()
      modifies this`bids, this`asks, this`orderIndex
      ensures Valid()
      ensures found == old(View().Has(orderId))
      ensures View() == BookSpec.Cancel(old(View()), orderId)
    {
      hide ToString, LevelsOk, SideInv, Inv, IndexOk, ViewLevels, ViewOrders, Flat, Without, SumOpen, Holds, ValueOf;
      CancelKeepsInv(View(), orderId);
      CancelBounded(View(), orderId, Cap(scale));
      IndexIsView(orderId);
      if orderId !in orderIndex {
        AbsentBook(orderId);
        return false;
      }
      var entry := orderIndex[orderId];
      var side := if entry.isBid then Buy else Sell;
      ghost var other := Flat(LevelsOn(Opposite(side)));
      SidesOfOrder(side, orderId);
      var levels := LevelsOn(side);
      var it := 0;
      NowhereYet(levels, orderId);
      while it < |levels|
        invariant it <= |levels| && !Holds(Flat(levels[..it]), orderId)
        invariant bids == old(bids) && asks == old(asks) && orderIndex == old(orderIndex)
      {
        if ToString(levels[it].price) == entry.priceKey {
          var q := levels[it].orders;
          var k := 0;
          while k < |q|
            invariant k <= |q| && forall j | 0 <= j < k :: q[j].id != orderId
            invariant bids == old(bids) && asks == old(asks) && orderIndex == old(orderIndex)
          {
            if q[k].id == orderId {
              EraseAt(levels, it, k, side, other, orderId);
              Erase(side, it, k, orderId);
              return true;
            }
            k := k + 1;
          }
          NotInLevel(q, orderId);
        } else {
          OtherKey(side, levels, it, orderIndex, other, orderId, scale);
        }
        ExtendPrefix(levels, it, orderId);
        it := it + 1;
      }
      WholePrefix(levels, it, orderId);
      assert false;
    }

    /** Erase the order from its level, the level if it is now empty, and the index entry. */
    method Erase(side: Side, it: nat, k: nat, orderId: string)
      requires it < |LevelsOn(side)| && k < |LevelsOn(side)[it].orders|
      requires IndexOk(orderIndex - {orderId}, side.Buy?, Flat(Erased(LevelsOn(side), it, k)),
                       Flat(LevelsOn(Opposite(side))))
      modifies this`bids, this`asks, this`orderIndex
      ensures LevelsOn(Opposite(side)) == old(LevelsOn(Opposite(side)))
      ensures LevelsOn(side) == Erased(old(LevelsOn(side)), it, k)
      ensures IndexOk(orderIndex, true, Flat(bids), Flat(asks))
    {
      hide ToString, IndexOk, Flat;
      var levels := LevelsOn(side);
      var rest := levels[it].orders[..k] + levels[it].orders[k + 1..];
      SetLevels(side, levels[..it] + (if rest == [] then [] else [Level(levels[it].price, rest)]) + levels[it + 1..]);
      orderIndex := orderIndex - {orderId};
      IndexBothWays(side);
    }

    lemma AbsentBook(id: string)
      requires IndexOk(orderIndex, true, Flat(bids), Flat(asks)) && id !in orderIndex
      ensures BookSpec.Cancel(View(), id) == View()
    {
      IndexIsBook(market, Flat(bids), Flat(asks), orderIndex, id);
      AbsentView(Flat(bids), id);
      AbsentView(Flat(asks), id);
    }

    lemma SidesOfOrder(side: Side, id: string)
      requires Valid() && id in orderIndex && orderIndex[id].isBid == side.Buy?
      ensures LevelsOk(side, LevelsOn(side), scale) && SideInv(market, side, ViewLevels(LevelsOn(side)))
      ensures IndexOk(orderIndex, side.Buy?, Flat(LevelsOn(side)), Flat(LevelsOn(Opposite(side))))
      ensures Holds(Flat(LevelsOn(side)), id) && !Holds(Flat(LevelsOn(Opposite(side))), id)
    {
      hide ToString;
      if side.Sell? {
        IndexSwap(orderIndex, true, Flat(bids), Flat(asks));
      }
      OnItsSide(orderIndex, side, Flat(LevelsOn(side)), Flat(LevelsOn(Opposite(side))), id);
    }

    /** What erasing the order found at level `it`, position `k` does to levels, index and view. */
    lemma EraseAt(levels: seq<Level>, it: nat, k: nat, side: Side, other: seq<Order>, id: string)
      requires levels == LevelsOn(side) && LevelsOk(side, levels, scale)
      requires other == Flat(LevelsOn(Opposite(side))) && !Holds(other, id)
      requires IndexOk(orderIndex, side.Buy?, Flat(levels), other)
      requires SideInv(market, side, ViewLevels(levels))
      requires it < |levels| && k < |levels[it].orders| && levels[it].orders[k].id == id
      ensures var next := Erased(levels, it, k);
              && LevelsOk(side, next, scale) && IndexOk(orderIndex - {id}, side.Buy?, Flat(next), other)
              && ViewLevels(next) == Without(ViewLevels(levels), id)
              && Without(ViewLevels(LevelsOn(Opposite(side))), id) == ViewLevels(LevelsOn(Opposite(side)))
    {
      hide ToString, LevelsOk, SideInv, ViewOrders, Without, IndexOk;
      var n := |Flat(levels[..it])| + k;
      ErasedFlat(levels, it, k);
      ErasedOk(side, levels, it, k, scale);
      ErasedView(market, side, Flat(levels), n, id);
      assert Flat(levels)[n] in Flat(levels);
      IndexDrop(orderIndex, side.Buy?, Flat(levels), other, id, Flat(Erased(levels, it, k)));
      AbsentView(other, id);
    }

    /** The first `depth` levels of both sides, as printed for the market-data event. */
    method DepthJson(depth: int) returns (b: seq<(string, string)>, a: seq<(string, string)>)
      requires Valid()
      ensures PrintsDepth(b, View().bids, depth) && PrintsDepth(a, View().asks, depth)
    {
      Ready(Buy);
      Ready(Sell);
      hide ToString, Parse, LevelsOk, IndexOk, Inv, SumOpen, Prints, LiveQueue, Flat;
      b := SideDepth(Buy, bids, depth, scale);
      a := SideDepth(Sell, asks, depth, scale);
    }

    /** Write every resting order, bids then asks, each side in priority order. */
    method SerializeState() returns (state: BookJson)
      requires Valid()
      ensures Restorable(state, scale) && Decode(state) == View()
    {
      var b := SideJson(bids);
      var a := SideJson(asks);
      state := BookJson(market, b, a);
      FlatFits(Buy, bids, scale);
      FlatFits(Sell, asks, scale);
      SerializedSide(market, Buy, Flat(bids), scale);
      SerializedSide(market, Sell, Flat(asks), scale);
    }

    /** Clear the book and file every row of the snapshot; what a book wrote is the book that is read. */
    method RestoreState(state: BookJson)
      modifies this`bids, this`asks, this`orderIndex
      ensures state.market == market && Restorable(state, scale) ==> Valid() && View() == Decode(state)
    {
      hide ToString, IndexAll, PushAll, Parse, PushBack;
      bids, asks, orderIndex := [], [], map[];
      ghost var b, a := AllFromJson(market, state.bids), AllFromJson(market, state.asks);
      for i := 0 to |state.bids|
        invariant PushAll(Buy, [], b) == PushAll(Buy, bids, b[i..]) && asks == []
        invariant IndexAll(map[], true, b) == IndexAll(orderIndex, true, b[i..])
      {
        var o := FromJson(market, state.bids[i]);
        FileRow(Buy, bids, orderIndex, true, b, i);
        bids := PushBack(Buy, bids, o);
        orderIndex := orderIndex[o.id := IndexEntry(true, ToString(o.price))];
      }
      NoRows(Buy, bids, orderIndex, true, b[|b|..]);
      ghost var index := orderIndex;
      for i := 0 to |state.asks|
        invariant PushAll(Sell, [], a) == PushAll(Sell, asks, a[i..]) && bids == PushAll(Buy, [], b)
        invariant IndexAll(index, false, a) == IndexAll(orderIndex, false, a[i..])
      {
        var o := FromJson(market, state.asks[i]);
        FileRow(Sell, asks, orderIndex, false, a, i);
        asks := PushBack(Sell, asks, o);
        orderIndex := orderIndex[o.id := IndexEntry(false, ToString(o.price))];
      }
      NoRows(Sell, asks, orderIndex, false, a[|a|..]);
      if state.market == market && Restorable(state, scale) {
        RestoredSide(market, Buy, b, scale);
        RestoredSide(market, Sell, a, scale);
        RestoredIndex(market, b, a);
        hide IndexOk, LevelsOk, ViewLevels, Inv, SumOpen, Flat, AllFromJson;
        IndexSameMembers(orderIndex, true, b, a, Flat(bids), Flat(asks));
      }
    }

    /** What the matching loop starts from. */
    lemma Ready(side: Side)
      requires Valid()
      ensures var opp := Opposite(side);
              && LevelsOk(opp, LevelsOn(opp), scale) && LevelsOk(side, LevelsOn(side), scale)
              && QueueOk(opp, Flat(LevelsOn(opp)), orderIndex, Flat(LevelsOn(side)))
              && View().On(opp) == ViewLevels(LevelsOn(opp)) && View().On(side) == ViewLevels(LevelsOn(side))
    {
      if side.Buy? {
        IndexSwap(orderIndex, true, Flat(bids), Flat(asks));
        QueueOfView(market, Sell, Flat(asks), orderIndex, Flat(bids));
      } else {
        QueueOfView(market, Buy, Flat(bids), orderIndex, Flat(asks));
      }
    }

    /** The index holds an id exactly when an order of that id rests. */
    lemma IndexIsView(id: string)
      requires IndexOk(orderIndex, true, Flat(bids), Flat(asks))
      ensures id in orderIndex <==> View().Has(id)
    {
      IndexIsBook(market, Flat(bids), Flat(asks), orderIndex, id);
    }

    lemma IndexBothWays(side: Side)
      requires IndexOk(orderIndex, side.Buy?, Flat(LevelsOn(side)), Flat(LevelsOn(Opposite(side))))
      ensures IndexOk(orderIndex, true, Flat(bids), Flat(asks))
    {
      if side.Sell? {
        IndexSwap(orderIndex, false, Flat(asks), Flat(bids));
      }
    }
  }
}
