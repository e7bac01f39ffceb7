/** What becomes of an order, said of the order and the prices and open quantities it finds, and of nothing the matcher computes. */
module Outcomes {
  import opened Orders
  import opened Greedy
  import opened BookSpec

  /** The order accepts this price. */
  ghost predicate Accepts(o: OrderView, price: real) {
    || o.terms.kind.Market?
    || (o.side.Buy? && price <= o.price)
    || (o.side.Sell? && o.price <= price)
  }

  /** The open volume of a queue at prices the order accepts, wherever it stands. */
  ghost function AcceptedVolume(o: OrderView, q: seq<OrderView>): real {
    if q == [] then 0.0
    else AcceptedVolume(o, q[..|q| - 1])
         + (if Accepts(o, q[|q| - 1].price) then q[|q| - 1].quantity - q[|q| - 1].filled else 0.0)
  }

  /** A limit order that may not take finds an acceptable price. */
  ghost predicate WouldTake(o: OrderView, q: seq<OrderView>) {
    o.terms.kind.Limit? && o.terms.postOnly && exists i :: 0 <= i < |q| && Accepts(o, q[i].price)
  }

  /** A limit order that wants all or nothing finds too little. */
  ghost predicate TooThin(o: OrderView, q: seq<OrderView>) {
    o.terms.kind.Limit? && o.terms.tif.FOK? && AcceptedVolume(o, q) < o.quantity
  }

  lemma AcceptsIs(o: OrderView, price: real)
    ensures Accepts(o, price) <==> Crosses(o, price)
  {
  }

  lemma {:induction false} AvailableLast(o: OrderView, q: seq<OrderView>, m: OrderView)
    ensures Available(o, q + [m]) == Available(o, q) + (if Crosses(o, m.price) then OpenQty(m) else 0.0)
    decreases |q|
  {
    if q == [] {
      assert [] + [m] == [m] && [m][1..] == [];
    } else {
      assert (q + [m])[1..] == q[1..] + [m];
      AvailableLast(o, q[1..], m);
    }
  }

  lemma {:induction false} VolumeIs(o: OrderView, q: seq<OrderView>)
    ensures AcceptedVolume(o, q) == Available(o, q)
    decreases |q|
  {
    if q != [] {
      var init, m := q[..|q| - 1], q[|q| - 1];
      assert q == init + [m];
      VolumeIs(o, init);
      AvailableLast(o, init, m);
      AcceptsIs(o, m.price);
    }
  }

  /**
   * An order is turned away if and only if it is a post-only limit order that finds an acceptable price, or a fill-or-kill
   * limit order that finds too little; then nothing happens. Any other order, immediate-or-cancel or not, limit or market,
   * is filled by all it accepts, up to its quantity.
   */
  lemma OutcomeIs(b: Book, o: OrderView)
    requires Inv(b) && Placeable(b, o)
    ensures var p, q := Place(b, o), b.On(Opposite(o.side));
            && (p.status.Rejected? <==> WouldTake(o, q) || TooThin(o, q))
            && (p.status.Rejected? ==> p.trades == [] && p.filled == 0.0 && p.book == b)
            && (!p.status.Rejected? ==>
                  && p.filled == Least(o.quantity, AcceptedVolume(o, q))
                  && p.status == StatusOf(o, p.filled))
  {
    var q := b.On(Opposite(o.side));
    VolumeIs(o, q);
    PostOnlyIs(b, o);
    AvailablePredictsMatch(o, q, o.quantity);
    AvailableNonneg(o, q);
    hide Match, Available, Inv, WouldTake, PostOnlyCrosses, Insert, AcceptedVolume;
  }

  /** The status that goes with a fill: nothing is rejected any more, and only a resting order stays open. */
  ghost function StatusOf(o: OrderView, filled: real): OrderStatus {
    if filled == o.quantity then OrderStatus.Filled
    else if filled > 0.0 then OrderStatus.PartiallyFilled
    else if o.terms.kind.Limit? && o.terms.tif.GTC? then OrderStatus.Open
    else OrderStatus.Canceled
  }

  lemma PostOnlyIs(b: Book, o: OrderView)
    requires Inv(b)
    ensures PostOnlyCrosses(b, o) <==> WouldTake(o, b.On(Opposite(o.side)))
  {
    var q := b.On(Opposite(o.side));
    if WouldTake(o, q) {
      var i :| 0 <= i < |q| && Accepts(o, q[i].price);
      AcceptsIs(o, q[i].price);
      CrossesEarlier(o, q, 0, i);
    }
    if q != [] {
      AcceptsIs(o, q[0].price);
    }
  }

  // ----- the trades -----

  /** The open quantity of the first `k` orders of a queue. */
  ghost function Ahead(q: seq<OrderView>, k: nat): real
    requires k <= |q|
  {
    if k == 0 then 0.0 else Ahead(q, k - 1) + (q[k - 1].quantity - q[k - 1].filled)
  }

  lemma {:induction false} AheadIs(q: seq<OrderView>, k: nat)
    requires k <= |q|
    ensures Ahead(q, k) == SumOpen(q[..k])
    decreases k
  {
    if k > 0 {
      AheadIs(q, k - 1);
      assert q[..k] == q[..k - 1] + [q[k - 1]];
      SumOpenConcat(q[..k - 1], [q[k - 1]]);
      assert [q[k - 1]][1..] == [];
    }
  }

  /** Trade `t` of order `o` with the resting order `m`, for `quantity`. */
  ghost predicate TradeBetween(o: OrderView, m: OrderView, quantity: real, t: TradeView) {
    && t.market == o.terms.market && t.takerSide == o.side && t.timestamp == o.terms.timestamp
    && t.takerOrderId == o.id && t.takerUserId == o.userId
    && t.makerOrderId == m.id && t.makerUserId == m.userId
    && t.price == m.price && t.quantity == quantity
  }

  /**
   * The k-th trade is with the k-th order of the queue, at that order's price, for whatever the orders before it leave of
   * the demand, up to what it has open; every order before the last one that trades gives all it has.
   */
  lemma TradeIs(b: Book, o: OrderView, k: nat)
    requires Inv(b) && Placeable(b, o) && k < |Place(b, o).trades|
    ensures var q := b.On(Opposite(o.side));
            && k < |q| && Accepts(o, q[k].price)
            && TradeBetween(o, q[k], Least(o.quantity - Ahead(q, k), q[k].quantity - q[k].filled), Place(b, o).trades[k])
            && Ahead(q, k) < o.quantity
  {
    hide Match, Inv, SumOpen, PostOnlyCrosses, FokUnfillable, Place, Accepts, Ahead, Least;
    var q := b.On(Opposite(o.side));
    TradesArePlaced(b, o);
    SidesReady(b, o);
    TradeOfMatch(o, q, k);
    AheadIs(q, k);
  }

  lemma TradesArePlaced(b: Book, o: OrderView)
    ensures Place(b, o).trades == [] || Place(b, o).trades == Match(o, b.On(Opposite(o.side)), o.quantity).trades
  {
    hide Match, PostOnlyCrosses, FokUnfillable, Insert;
  }

  lemma SidesReady(b: Book, o: OrderView)
    requires Inv(b)
    ensures AllLive(Opposite(o.side), b.On(Opposite(o.side))) && Sorted(Opposite(o.side), b.On(Opposite(o.side)))
  {
  }

  lemma TradeOfMatch(o: OrderView, q: seq<OrderView>, k: nat)
    requires AllLive(Opposite(o.side), q) && Sorted(Opposite(o.side), q) && k < |Match(o, q, o.quantity).trades|
    ensures k < |q| && Accepts(o, q[k].price) && SumOpen(q[..k]) < o.quantity
    ensures TradeBetween(o, q[k], Least(o.quantity - SumOpen(q[..k]), q[k].quantity - q[k].filled), Match(o, q, o.quantity).trades[k])
  {
    hide Match, SumOpen, Survivors, Share, AllLive, Sorted, Crosses, Accepts, Least;
    MatchIsPriorityFill(o, q, o.quantity);
    AcceptsIs(o, q[k].price);
    ShareIs(o, q, k);
  }

  lemma ShareIs(o: OrderView, q: seq<OrderView>, k: nat)
    requires k < |q|
    ensures 0.0 < Share(o, q, o.quantity, k) ==>
              Share(o, q, o.quantity, k) == Least(o.quantity - SumOpen(q[..k]), OpenQty(q[k])) && SumOpen(q[..k]) < o.quantity
  {
  }

  // ----- the book afterwards -----

  /** The order as it rests. */
  ghost function Remainder(o: OrderView, filled: real): OrderView {
    OrderView(o.id, o.userId, o.side, o.price, o.quantity, filled, o.leverage, o.terms)
  }

  /**
   * A good-till-canceled limit order that is not turned away and not filled rests: behind every order of its side at its
   * price or a better one, before every worse one, with what is left of it. Any other order leaves its side as it was.
   */
  lemma RestsBehind(b: Book, o: OrderView) returns (k: nat)
    requires Inv(b) && Placeable(b, o)
    ensures var p, own, r := Place(b, o), b.On(o.side), Place(b, o).book.On(o.side);
            if o.terms.kind.Limit? && o.terms.tif.GTC? && !p.status.Rejected? && p.filled < o.quantity
            then
              && k <= |own| && r == own[..k] + [Remainder(o, p.filled)] + own[k..]
              && (forall i | 0 <= i < k :: if o.side.Buy? then own[i].price >= o.price else own[i].price <= o.price)
              && (forall i | k <= i < |own| :: if o.side.Buy? then own[i].price < o.price else own[i].price > o.price)
            else r == own
  {
    var own := b.On(o.side);
    k := InsertPos(o.side, own, o.price);
    PositionSplits(o.side, own, o.price);
    MatchSide(b, o);
    hide Match, Inv, PostOnlyCrosses, FokUnfillable, SumOpen, Sorted, InsertPos;
    if !PostOnlyCrosses(b, o) && !FokUnfillable(b, o) {
      PlaceIs(b, o);
    }
  }

  lemma PositionSplits(side: Side, q: seq<OrderView>, price: real)
    requires Sorted(side, q)
    ensures var k := InsertPos(side, q, price);
            && (forall i | 0 <= i < k :: if side.Buy? then q[i].price >= price else q[i].price <= price)
            && (forall i | k <= i < |q| :: if side.Buy? then q[i].price < price else q[i].price > price)
  {
  }
}
