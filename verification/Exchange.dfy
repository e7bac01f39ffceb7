/** The engine as an event machine over flat books: commands in, events out. */
module Exchange {
  import opened DecimalText
  import opened Orders
  import opened Greedy
  import opened BookSpec
  import opened Levels

  /** Events with exact numbers; an absent price is the empty string on the wire. */
  datatype EventView =
    | Accepted(orderId: string, market: string, userId: string, side: Side, kind: OrderType,
               price: Option<real>, quantity: real, filled: real, status: OrderStatus)
    | Traded(trade: TradeView)
    | Completed(orderId: string, market: string, userId: string, filled: real, price: Option<real>)
    | TurnedDown(orderId: string, market: string, reason: string)
    | Withdrawn(orderId: string, market: string, userId: string, cause: Option<string>, done: Option<real>)
    | DepthChanged(market: string, bids: seq<(real, real)>, asks: seq<(real, real)>)

  type Books = map<string, Book>

  const DEPTH_LEVELS := 20
  const EXTERNAL_USER_ID := "00000000-0000-0000-0000-000000000001"

  ghost function BookOf(books: Books, market: string): Book {
    if market in books then books[market] else Book(market, [], [])
  }

  ghost predicate WellFormedOrder(o: OrderView) {
    o.id != "" && o.terms.market != "" && o.userId != "" && o.quantity > 0.0
  }

  // ----- the external fallback -----

  /** The remainder of a taker that is filled at the mark price instead of resting or being dropped. */
  ghost predicate UsesMark(o: OrderView, p: Placed, mark: Option<real>) {
    && p.filled < o.quantity && !p.status.Rejected? && mark.Some?
    && Crosses(o, mark.value)
  }

  function ExternalMakerId(market: string, timestamp: int): string {
    "binance-external-" + market + "-" + IntText(timestamp)
  }

  ghost function MarkTrade(o: OrderView, remaining: real, price: real): TradeView {
    TradeView(o.terms.market, ExternalMakerId(o.terms.market, o.terms.timestamp), o.id, EXTERNAL_USER_ID, o.userId,
              o.side, price, remaining, o.terms.timestamp)
  }

  /** The taker's outcome as the events report it: the placement, then the fallback if it applies. */
  ghost function WithMark(o: OrderView, p: Placed, mark: Option<real>): Placed {
    if UsesMark(o, p, mark)
    then Placed(p.book, p.trades + [MarkTrade(o, o.quantity - p.filled, mark.value)], o.quantity, OrderStatus.Filled)
    else p
  }

  // ----- events of one command -----

  ghost function TradeEvents(ts: seq<TradeView>): seq<EventView> {
    if ts == [] then [] else [Traded(ts[0])] + TradeEvents(ts[1..])
  }

  ghost function Top(d: seq<(real, real)>): seq<(real, real)> {
    if |d| > DEPTH_LEVELS then d[..DEPTH_LEVELS] else d
  }

  ghost function DepthEvent(b: Book): EventView {
    DepthChanged(b.market, Top(Depths(b.bids)), Top(Depths(b.asks)))
  }

  ghost function AcceptedEvent(o: OrderView, r: Placed): EventView {
    Accepted(o.id, o.terms.market, o.userId, o.side, o.terms.kind,
             if o.terms.kind.Limit? then Some(o.price) else None, o.quantity, r.filled, r.status)
  }

  /** The last word on the taker: filled, turned down, or its remainder dropped; nothing while it rests. */
  ghost function FinalEvents(o: OrderView, r: Placed): seq<EventView> {
    if r.filled >= o.quantity then
      [Completed(o.id, o.terms.market, o.userId, r.filled,
                 if o.terms.kind.Limit? then Some(o.price)
                 else if r.trades == [] then None else Some(r.trades[0].price))]
    else if r.status.Rejected? then [TurnedDown(o.id, o.terms.market, "post_only_would_cross")]
    else if !Rests(o) then
      [Withdrawn(o.id, o.terms.market, o.userId, Some("unfilled_remainder_canceled"), Some(r.filled))]
    else []
  }

  ghost function PlaceEvents(o: OrderView, r: Placed): seq<EventView> {
    [AcceptedEvent(o, r)] + TradeEvents(r.trades) + FinalEvents(o, r) + [DepthEvent(r.book)]
  }

  datatype Command = PlaceCommand(order: OrderView, mark: Option<real>) | CancelCommand(market: string, orderId: string, userId: string)

  datatype Stepped = Stepped(books: Books, events: seq<EventView>)

  ghost function PlaceStep(books: Books, o: OrderView, mark: Option<real>): Stepped {
    if !WellFormedOrder(o) then Stepped(books, [TurnedDown(o.id, o.terms.market, "invalid_order")])
    else
      var p := Place(BookOf(books, o.terms.market), o);
      Stepped(books[o.terms.market := p.book], PlaceEvents(o, WithMark(o, p, mark)))
  }

  ghost function CancelStep(books: Books, market: string, orderId: string, userId: string): Stepped {
    if market !in books || !books[market].Has(orderId) then Stepped(books, [])
    else
      var b := Cancel(books[market], orderId);
      Stepped(books[market := b], [Withdrawn(orderId, market, userId, None, None), DepthEvent(b)])
  }

  ghost function Step(books: Books, c: Command): Stepped {
    match c
    case PlaceCommand(o, mark) => PlaceStep(books, o, mark)
    case CancelCommand(m, id, u) => CancelStep(books, m, id, u)
  }

  /** A run: the commands in stream order, the events in publication order. */
  ghost function Run(books: Books, cs: seq<Command>): Stepped
    decreases |cs|
  {
    if cs == [] then Stepped(books, [])
    else
      var first := Step(books, cs[0]);
      var rest := Run(first.books, cs[1..]);
      Stepped(rest.books, first.events + rest.events)
  }

  /**
   * The fallback fills the event's copy of the order, not the one already on the book: an order is reported
   * completely filled while it still rests with its remainder if and only if a good-till-canceled limit order is
   * left with a remainder, is not turned away, and the mark price is acceptable to it.
   */
  lemma MarkLeavesGhostOrder(books: Books, o: OrderView, mark: Option<real>)
    requires WellFormedOrder(o) && Inv(BookOf(books, o.terms.market)) && Placeable(BookOf(books, o.terms.market), o)
    ensures var p := Place(BookOf(books, o.terms.market), o);
            (WithMark(o, p, mark).status.Filled? && p.book.Has(o.id))
            <==> (Rests(o) && p.filled < o.quantity && !p.status.Rejected? && mark.Some? && Crosses(o, mark.value))
  {
    var b := BookOf(books, o.terms.market);
    var p := Place(b, o);
    PlaceConserves(b, o);
    if p.status.Rejected? {
    } else {
      FillKeepsInv(b, o);
      RestsOnBook(b, o);
    }
  }

  /** The first order of a market finds nobody, and rests if it is good till canceled. */
  lemma FirstOrderRests(o: OrderView)
    requires o.terms.kind.Limit? && o.terms.tif.GTC? && o.filled == 0.0 && o.quantity > 0.0
    ensures var b := Book(o.terms.market, [], []);
            Place(b, o) == Placed(b.With(o.side, [o]), [], 0.0, OrderStatus.Open)
  {
    assert Greedy.Match(o, [], o.quantity) == Outcome([], [], o.quantity);
    hide Greedy.Match;
    assert FillBy(o, 0.0) == o;
    assert Insert(o.side, [], o) == [o];
  }

  /** Such an order: the first of its market, at a price the mark betters, is filled and rests. */
  lemma GhostOrderPossible()
    ensures var o := OrderView("o", "u", Buy, 10.0, 1.0, 0.0, 1.0, Terms("m", Limit, GTC, false, false, "", "", 0));
            var p := Place(BookOf(map[], "m"), o);
            WithMark(o, p, Some(9.0)).status.Filled? && p.book.Has("o")
            && PlaceStep(map[], o, Some(9.0)).books == map["m" := p.book]
  {
    var o := OrderView("o", "u", Buy, 10.0, 1.0, 0.0, 1.0, Terms("m", Limit, GTC, false, false, "", "", 0));
    hide Place, PlaceEvents, MarkTrade;
    FirstOrderRests(o);
    var p := Place(BookOf(map[], "m"), o);
    assert UsesMark(o, p, Some(9.0));
    assert o in p.book.bids;
  }

  /** After a placement that is not turned away, the order is on the book exactly when a remainder of it rests. */
  lemma RestsOnBook(b: Book, o: OrderView)
    requires Inv(b) && Placeable(b, o) && !Place(b, o).status.Rejected?
    ensures Place(b, o).book.Has(o.id) <==> Rests(o) && Place(b, o).filled < o.quantity
  {
    FillKeepsInv(b, o);
    PlaceConserves(b, o);
    hide Greedy.Match, Inv, Available, PostOnlyCrosses, SumOpen, Insert;
    var opp := Opposite(o.side);
    var out := Greedy.Match(o, b.On(opp), o.quantity);
    var after := b.With(opp, out.makers);
    if out.left > 0.0 && Rests(o) {
      InsertHolds(after, o.side, FillBy(o, o.quantity - out.left));
    }
  }

  lemma InsertHolds(b: Book, side: Side, o: OrderView)
    ensures b.With(side, Insert(side, b.On(side), o)).Has(o.id)
  {
    var q := Insert(side, b.On(side), o);
    assert q[InsertPos(side, b.On(side), o.price)] == o;
    assert o in q;
  }
}
