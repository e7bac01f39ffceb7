/** The matching engine: one order book per market, and the events it publishes. */
module Engines {
  import opened Digits
  import opened Decimals
  import opened DecimalText
  import opened Orders
  import opened Greedy
  import opened BookSpec
  import opened Levels
  import opened Snapshots
  import opened OrderBooks
  import opened Exchange

  // ----- the wire -----

  datatype Json = Null | Bool(b: bool) | Num(n: int) | Str(s: string)

  type JsonObject = map<string, Json>

  function JStr(j: JsonObject, key: string, def: string): string {
    if key in j && j[key].Str? then j[key].s else def
  }

  function JBool(j: JsonObject, key: string, def: bool): bool {
    if key in j && j[key].Bool? then j[key].b
    else if key in j && j[key].Str? then j[key].s == "true" || j[key].s == "1"
    else def
  }

  function JInt(j: JsonObject, key: string, def: int): int {
    if key in j && j[key].Num? then j[key].n
    else if key in j && j[key].Str? then IntOr(j[key].s, def)
    else def
  }

  /** The integer a text starts with, after blanks and a sign; the default when there is none or it is not an int64. */
  function IntOr(s: string, def: int): int {
    var t := SkipBlanks(s);
    var digits := DigitPrefix(Unsigned(t));
    if digits == "" then def
    else
      var n := if t != "" && t[0] == '-' then 0 - FromDigits(digits) else FromDigits(digits);
      if InRange(n) then n else def
  }

  function SkipBlanks(s: string): string {
    if s != "" && (s[0] == ' ' || '\t' <= s[0] <= '\r') then SkipBlanks(s[1..]) else s
  }

  function DigitPrefix(s: string): (p: string)
    ensures AllDigits(p) && p <= s
  {
    if s != "" && IsDigit(s[0]) then [s[0]] + DigitPrefix(s[1..]) else ""
  }

  /** A stream entry, with its payload already parsed; text that is not JSON leaves no payload. */
  datatype Entry = PlaceOrderEntry(payload: Option<JsonObject>) | CancelOrderEntry(market: string, orderId: string, userId: string) | OtherEntry

  /** Published events, with numbers and enumerations as text. */
  datatype Event =
    | OrderAccepted(orderId: string, market: string, userId: string, side: string, orderType: string,
                    price: string, quantity: string, filledQuantity: string, status: string)
    | TradeExecuted(market: string, makerOrderId: string, takerOrderId: string, makerUserId: string,
                    takerUserId: string, side: string, price: string, quantity: string, timestamp: int)
    | OrderFilled(orderId: string, market: string, userId: string, filledQuantity: string, price: string)
    | OrderRejected(orderId: string, market: string, reason: string)
    | OrderCanceled(orderId: string, market: string, userId: string, cause: Option<string>, done: Option<string>)
    | OrderBookUpdated(market: string, bids: seq<(string, string)>, asks: seq<(string, string)>)

  function StatusStr(s: OrderStatus): string {
    match s
    case Pending => "pending"
    case Open => "open"
    case PartiallyFilled => "partially_filled"
    case Filled => "filled"
    case Canceled => "canceled"
    case Rejected => "rejected"
    case Expired => "expired"
  }

  /** No two statuses are spelled alike, and the ones a placement can end with are spelled so. */
  lemma StatusWords(s: OrderStatus, t: OrderStatus)
    ensures StatusStr(s) == StatusStr(t) <==> s == t
    ensures StatusStr(OrderStatus.Open) == "open" && StatusStr(OrderStatus.PartiallyFilled) == "partially_filled"
    ensures StatusStr(OrderStatus.Filled) == "filled" && StatusStr(OrderStatus.Canceled) == "canceled"
    ensures StatusStr(OrderStatus.Rejected) == "rejected"
  {
  }

  /** The order a placement payload describes, with the defaults for fields that are absent or of the wrong kind. */
  function OrderOf(j: JsonObject): Order {
    var priceStr := JStr(j, "price", "0");
    Order(
      JStr(j, "id", JStr(j, "orderId", "")), JStr(j, "userId", ""), ParseSide(JStr(j, "side", "buy")),
      if priceStr == "" then ZERO else Parse(priceStr),
      Parse(JStr(j, "quantity", "0")), ZERO, Parse(JStr(j, "leverage", "1")),
      Terms(JStr(j, "market", ""), ParseType(JStr(j, "orderType", "limit")), ParseTif(JStr(j, "timeInForce", "GTC")),
            JBool(j, "reduceOnly", false), JBool(j, "postOnly", false), JStr(j, "clientOrderId", ""),
            JStr(j, "marginMode", "isolated"), JInt(j, "timestamp", 0)),
      OrderStatus.Open)
  }

  // ----- what an event on the wire says -----

  ghost predicate PrintsOption(s: string, v: Option<real>) {
    if v.Some? then Prints(s, v.value) else s == ""
  }

  ghost predicate PrintsRows(rows: seq<(string, string)>, entries: seq<(real, real)>) {
    |rows| == |entries| && forall i | 0 <= i < |rows| :: PrintsRow(rows[i], entries[i])
  }

  /** Event `e` is how event `v` is published. */
  ghost predicate Publishes(e: Event, v: EventView) {
    match v
    case Accepted(id, m, u, side, kind, price, quantity, filled, status) =>
      && e.OrderAccepted? && e.orderId == id && e.market == m && e.userId == u
      && e.side == SideStr(side) && e.orderType == TypeStr(kind) && e.status == StatusStr(status)
      && PrintsOption(e.price, price) && Prints(e.quantity, quantity) && Prints(e.filledQuantity, filled)
    case Traded(t) =>
      && e.TradeExecuted? && e.market == t.market && e.makerOrderId == t.makerOrderId
      && e.takerOrderId == t.takerOrderId && e.makerUserId == t.makerUserId && e.takerUserId == t.takerUserId
      && e.side == SideStr(t.takerSide) && e.timestamp == t.timestamp
      && Prints(e.price, t.price) && Prints(e.quantity, t.quantity)
    case Completed(id, m, u, filled, price) =>
      && e.OrderFilled? && e.orderId == id && e.market == m && e.userId == u
      && Prints(e.filledQuantity, filled) && PrintsOption(e.price, price)
    case TurnedDown(id, m, reason) => e == OrderRejected(id, m, reason)
    case Withdrawn(id, m, u, cause, done) =>
      && e.OrderCanceled? && e.orderId == id && e.market == m && e.userId == u && e.cause == cause
      && e.done.Some? == done.Some? && (done.Some? ==> Prints(e.done.value, done.value))
    case DepthChanged(m, bids, asks) =>
      e.OrderBookUpdated? && e.market == m && PrintsRows(e.bids, bids) && PrintsRows(e.asks, asks)
  }

  ghost predicate PublishesAll(es: seq<Event>, vs: seq<EventView>) {
    |es| == |vs| && forall i | 0 <= i < |es| :: Publishes(es[i], vs[i])
  }

  lemma RowsUnique(r: seq<(string, string)>, q: seq<(string, string)>, entries: seq<(real, real)>)
    requires PrintsRows(r, entries) && PrintsRows(q, entries)
    ensures r == q
  {
    hide Prints;
    forall i | 0 <= i < |r|
      ensures r[i] == q[i]
    {
      assert PrintsRow(r[i], entries[i]) && PrintsRow(q[i], entries[i]);
      PrintsUnique(r[i].0, q[i].0, entries[i].0);
      PrintsUnique(r[i].1, q[i].1, entries[i].1);
    }
  }

  lemma PrintsOptionUnique(s: string, t: string, v: Option<real>)
    requires PrintsOption(s, v) && PrintsOption(t, v)
    ensures s == t
  {
    hide Prints;
    if v.Some? {
      PrintsUnique(s, t, v.value);
    }
  }

  /** The text on the wire is determined by the numbers: equal events are published identically. */
  lemma PublishedUnique(e: Event, f: Event, v: EventView)
    requires Publishes(e, v) && Publishes(f, v)
    ensures e == f
  {
    hide Prints, PrintsOption, PrintsRows, SideStr, TypeStr, StatusStr;
    match v
    case Accepted(_, _, _, _, _, price, quantity, filled, _) =>
      PrintsOptionUnique(e.price, f.price, price);
      PrintsUnique(e.quantity, f.quantity, quantity);
      PrintsUnique(e.filledQuantity, f.filledQuantity, filled);
    case Traded(t) =>
      PrintsUnique(e.price, f.price, t.price);
      PrintsUnique(e.quantity, f.quantity, t.quantity);
    case Completed(_, _, _, filled, price) =>
      PrintsOptionUnique(e.price, f.price, price);
      PrintsUnique(e.filledQuantity, f.filledQuantity, filled);
    case TurnedDown(_, _, _) =>
    case Withdrawn(_, _, _, _, done) =>
      if done.Some? {
        PrintsUnique(e.done.value, f.done.value, done.value);
      }
    case DepthChanged(_, bids, asks) =>
      RowsUnique(e.bids, f.bids, bids);
      RowsUnique(e.asks, f.asks, asks);
  }

  lemma StreamUnique(es: seq<Event>, fs: seq<Event>, vs: seq<EventView>)
    requires PublishesAll(es, vs) && PublishesAll(fs, vs)
    ensures es == fs
  {
    hide Publishes;
    forall i | 0 <= i < |es|
      ensures es[i] == fs[i]
    {
      PublishedUnique(es[i], fs[i], vs[i]);
    }
  }

  // ----- building the events of one placement -----

  /** The engine's copy of the order and its trades, against the outcome they report. */
  ghost predicate Reports(o: Order, trades: seq<Trade>, v: OrderView, r: Placed, s: nat) {
    && ViewOrder(o) == v.(filled := r.filled) && o.status == r.status && ViewTrades(trades) == r.trades
    && NumbersFit(o, s) && (forall t | t in trades :: TradeFits(t, s))
  }

  function PriceText(o: Order): string {
    if o.terms.kind.Limit? then ToString(o.price) else ""
  }

  function AcceptedOf(o: Order): Event {
    OrderAccepted(o.id, o.terms.market, o.userId, SideStr(o.side), TypeStr(o.terms.kind), PriceText(o),
                  ToString(o.quantity), ToString(o.filled), StatusStr(o.status))
  }

  function TradeOf(t: Trade): Event {
    TradeExecuted(t.market, t.makerOrderId, t.takerOrderId, t.makerUserId, t.takerUserId, SideStr(t.takerSide),
                  ToString(t.price), ToString(t.quantity), t.timestamp)
  }

  function FilledOf(o: Order, trades: seq<Trade>): Event {
    OrderFilled(o.id, o.terms.market, o.userId, ToString(o.filled),
                if o.terms.kind.Limit? then ToString(o.price)
                else if trades == [] then "" else ToString(trades[0].price))
  }

  /** The closing event of the taker, if it has one. */
  function FinalOf(o: Order, trades: seq<Trade>): seq<Event>
    requires CompareInRange(o.filled, o.quantity)
  {
    if AtLeast(o.filled, o.quantity) then [FilledOf(o, trades)]
    else if o.status.Rejected? then [OrderRejected(o.id, o.terms.market, "post_only_would_cross")]
    else if Below(o.filled, o.quantity) && !(o.terms.kind.Limit? && o.terms.tif.GTC?) then
      [OrderCanceled(o.id, o.terms.market, o.userId, Some("unfilled_remainder_canceled"), Some(ToString(o.filled)))]
    else []
  }

  lemma AcceptedPublishes(o: Order, trades: seq<Trade>, v: OrderView, r: Placed, s: nat)
    requires Reports(o, trades, v, r, s)
    ensures Publishes(AcceptedOf(o), AcceptedEvent(v, r))
  {
    hide ToString, Parse, Prints, SideStr, TypeStr, StatusStr, Val, Fits;
    FitsPrints(o.price, s);
    FitsPrints(o.quantity, s);
    FitsPrints(o.filled, s);
  }

  lemma TradePublishes(t: Trade, s: nat)
    requires TradeFits(t, s)
    ensures Publishes(TradeOf(t), Traded(ViewTrade(t)))
  {
    hide ToString, Parse, Prints, SideStr, Val, Fits;
    FitsPrints(t.price, s);
    FitsPrints(t.quantity, s);
  }

  lemma FinalPublishes(o: Order, trades: seq<Trade>, v: OrderView, r: Placed, s: nat)
    requires Reports(o, trades, v, r, s)
    ensures CompareInRange(o.filled, o.quantity)
    ensures PublishesAll(FinalOf(o, trades), FinalEvents(v, r))
  {
    hide CompareInRange, ToString, Parse, Prints, Val, Fits, Compare, ViewTrades;
    CompareExact(o.filled, o.quantity, s);
    FitsPrints(o.price, s);
    FitsPrints(o.filled, s);
    if trades != [] {
      FirstTrade(trades);
      assert TradeFits(trades[0], s);
      FitsPrints(trades[0].price, s);
    }
    NoFirstTrade(trades);
  }

  lemma FirstTrade(trades: seq<Trade>)
    requires trades != []
    ensures ViewTrades(trades) != [] && ViewTrades(trades)[0] == ViewTrade(trades[0])
  {
  }

  lemma NoFirstTrade(trades: seq<Trade>)
    ensures ViewTrades(trades) == [] <==> trades == []
  {
  }

  lemma PublishesConcat(es: seq<Event>, fs: seq<Event>, vs: seq<EventView>, ws: seq<EventView>)
    requires PublishesAll(es, vs) && PublishesAll(fs, ws)
    ensures PublishesAll(es + fs, vs + ws)
  {
    hide Publishes;
  }

  lemma PublishesParts(es: seq<Event>, fs: seq<Event>, gs: seq<Event>, hs: seq<Event>,
                       vs: seq<EventView>, ws: seq<EventView>, xs: seq<EventView>, ys: seq<EventView>)
    requires PublishesAll(es, vs) && PublishesAll(fs, ws) && PublishesAll(gs, xs) && PublishesAll(hs, ys)
    ensures PublishesAll(es + fs + gs + hs, vs + ws + xs + ys)
  {
    hide *;
    PublishesConcat(es, fs, vs, ws);
    PublishesConcat(es + fs, gs, vs + ws, xs);
    PublishesConcat(es + fs + gs, hs, vs + ws + xs, ys);
  }

  lemma PublishesOne(e: Event, v: EventView)
    requires Publishes(e, v)
    ensures PublishesAll([e], [v])
  {
    hide Publishes;
  }

  lemma {:induction false} TradeEventsAt(ts: seq<TradeView>, i: nat)
    requires i <= |ts|
    ensures |TradeEvents(ts)| == |ts| && TradeEvents(ts[..i]) == TradeEvents(ts)[..i]
    ensures i < |ts| ==> TradeEvents(ts)[i] == Traded(ts[i])
  {
    if ts != [] {
      TradeEventsAt(ts[1..], if i > 0 then i - 1 else 0);
      if i > 0 {
        assert ts[..i][1..] == ts[1..][..i - 1];
      }
    }
  }

  class Engine {
    ghost const scale: Scale
    var books: map<string, OrderBook>
    var events: seq<Event>

    ghost predicate Valid()
      reads this`books, books.Values
    {
      && (forall m | m in books :: m != "" && books[m].market == m && books[m].scale == scale && books[m].Valid())
      && (forall m, n | m in books && n in books && m != n :: books[m] != books[n])
    }

    ghost function View(): Books
      reads this`books, books.Values
    {
      map m | m in books :: books[m].View()
    }

    constructor (ghost scale: Scale)
      ensures Valid() && View() == map[] && events == [] && this.scale == scale && books == map[]
    {
      this.scale := scale;
      books, events := map[], [];
    }

    method Publish(e: Event)
      modifies this`events
      ensures events == old(events) + [e]
    {
      events := events + [e];
    }

    /** Publish the trades of a match, in order. */
    method PublishTrades(trades: seq<Trade>)
      requires forall t | t in trades :: TradeFits(t, scale)
      modifies this`events
      ensures old(events) <= events
      ensures PublishesAll(events[|old(events)|..], TradeEvents(ViewTrades(trades)))
    {
      hide ToString, Prints, TradeFits, Publishes, TradeEvents, ViewTrades;
      ghost var n, vs := |events|, ViewTrades(trades);
      NoTradeEvents(vs);
      for i := 0 to |trades|
        invariant |events| == n + i && old(events) <= events
        invariant PublishesAll(events[n..], TradeEvents(vs[..i]))
      {
        ghost var before := events[n..];
        TradePublishes(trades[i], scale);
        OneMoreTrade(vs, trades, i);
        PublishesOne(TradeOf(trades[i]), Traded(ViewTrade(trades[i])));
        PublishesConcat(before, [TradeOf(trades[i])], TradeEvents(vs[..i]), [Traded(ViewTrade(trades[i]))]);
        Publish(TradeOf(trades[i]));
        assert events[n..] == before + [TradeOf(trades[i])];
      }
      AllTrades(vs);
    }

    /** Publish what a placement did: acceptance, trades, the closing event if any, and the new depth. */
    method PublishPlacement(o: Order, trades: seq<Trade>, book: OrderBook, ghost v: OrderView, ghost r: Placed)
      requires Reports(o, trades, v, r, scale)
      requires book.Valid() && book.View() == r.book && book.market == o.terms.market
      modifies this`events
      ensures old(events) <= events
      ensures PublishesAll(events[|old(events)|..], PlaceEvents(v, r))
    {
      hide ToString, Prints, TradeFits, Publishes, TradeEvents, ViewTrades, FinalEvents, AcceptedEvent, PublishesAll, DepthEvent,
           ViewOrder, NumbersFit, LevelsOk, IndexOk, Inv, Depths;
      ghost var n := |events|;
      AcceptedPublishes(o, trades, v, r, scale);
      PublishesOne(AcceptedOf(o), AcceptedEvent(v, r));
      FinalPublishes(o, trades, v, r, scale);
      Publish(AcceptedOf(o));
      PublishTrades(trades);
      ghost var ts := events[n + 1..];
      var final := FinalOf(o, trades);
      if final != [] {
        Publish(final[0]);
      }
      assert events[n..] == [AcceptedOf(o)] + ts + final;
      PublishDepth(book);
      ghost var last := events[|events| - 1];
      assert events[n..] == [AcceptedOf(o)] + ts + final + [last];
      PublishesParts([AcceptedOf(o)], ts, final, [last], [AcceptedEvent(v, r)], TradeEvents(r.trades), FinalEvents(v, r),
                     [DepthEvent(r.book)]);
    }

    method PublishDepth(book: OrderBook)
      requires book.Valid()
      modifies this`events
      ensures |events| == |old(events)| + 1 && old(events) <= events
      ensures PublishesAll([events[|events| - 1]], [DepthEvent(book.View())])
    {
      var b, a := book.DepthJson(DEPTH_LEVELS);
      DepthPublishes(b, a, book.market, book.View());
      Publish(OrderBookUpdated(book.market, b, a));
    }

    ghost predicate Acceptable(o: Order, mark: Option<Decimal>)
      reads this`books, books.Values
    {
      AcceptableIn(View(), scale, o, mark)
    }

    /**
     * Place an order: match it, fall back to the mark price if there is one, and publish. Books and events are those
     * of the abstract step.
     */
    method PlaceOrder(payload: JsonObject, mark: Option<Decimal>)
      requires Valid() && Acceptable(OrderOf(payload), mark)
      modifies this`books, this`events, books.Values
      ensures Valid() && old(events) <= events && fresh(books.Values - old(books.Values))
      ensures var s := PlaceStep(old(View()), ViewOrder(OrderOf(payload)), ViewMark(mark));
              View() == s.books && PublishesAll(events[|old(events)|..], s.events)
    {
      hide *;
      var o0 := OrderOf(payload);
      ghost var v, before := ViewOrder(o0), View();
      AcceptableFits(o0, mark);
      Validated(payload, scale);
      if o0.id == "" || o0.terms.market == "" || o0.userId == "" || AtMost(o0.quantity, ZERO) {
        InvalidPublishes(before, o0, ViewMark(mark));
        Publish(OrderRejected(o0.id, o0.terms.market, "invalid_order"));
        assert events[|old(events)|..] == [OrderRejected(o0.id, o0.terms.market, "invalid_order")];
        return;
      }
      RoomFor(o0, mark);
      var book := EnsureBook(o0);
      var o, trades := MatchOn(book, o0);
      ghost var p := Place(BookOf(before, v.terms.market), v);
      o, trades := FillAtMark(o, trades, mark, o0, p);
      PublishPlacement(o, trades, book, v, WithMark(v, p, ViewMark(mark)));
      ValidStep(before, v, ViewMark(mark));
    }

    lemma RoomFor(o: Order, mark: Option<Decimal>)
      requires Valid() && Acceptable(o, mark) && WellFormedOrder(ViewOrder(o)) && Val(o.filled) == 0.0
      ensures var b := BookOf(View(), o.terms.market);
              Placeable(b, ViewOrder(o)) && SumOpen(b.On(o.side)) + Val(o.quantity) < Cap(scale)
    {
    }

    lemma AcceptableFits(o: Order, mark: Option<Decimal>)
      requires Acceptable(o, mark)
      ensures NumbersFit(o, scale) && (mark.Some? ==> Fits(mark.value, scale))
    {
    }

    /** Match on one book; the others do not change. */
    method MatchOn(book: OrderBook, o0: Order) returns (o: Order, trades: seq<Trade>)
      requires Valid() && o0.terms.market in books && books[o0.terms.market] == book && NumbersFit(o0, scale)
      requires Placeable(View()[o0.terms.market], ViewOrder(o0))
      requires SumOpen(View()[o0.terms.market].On(o0.side)) + Val(o0.quantity) < Cap(scale)
      modifies book
      ensures Valid()
      ensures var p := Place(old(View())[o0.terms.market], ViewOrder(o0));
              && View() == old(View())[o0.terms.market := p.book]
              && Reports(o, trades, ViewOrder(o0), p, scale) && 0.0 <= p.filled <= Val(o0.quantity)
              && book.Valid() && book.View() == p.book && book.market == o.terms.market
    {
      hide OrderBook.View, OrderBook.Valid, Place, Inv, SumOpen, Reports, ViewTrades, TradeFits, NumbersFit, Placeable,
           ViewOrder, ValueOf, Val;
      ghost var b, m := book.View(), o0.terms.market;
      assert View()[m] == b;
      BookInv(book);
      o, trades := book.Match(o0);
      MatchReports(b, o, trades, o0, scale);
      forall n | n in books
        ensures books[n].Valid() && books[n].View() == if n == m then book.View() else old(books[n].View())
      {
      }
    }

    lemma BookInv(book: OrderBook)
      requires book.Valid()
      ensures Inv(book.View()) && book.View().market == book.market
    {
    }

    /** The book of the order's market, created empty if this is its first order. */
    method EnsureBook(o: Order) returns (book: OrderBook)
      requires Valid() && o.terms.market != ""
      modifies this`books
      ensures Valid() && fresh(books.Values - old(books.Values))
      ensures o.terms.market in books && books[o.terms.market] == book
      ensures book in old(books.Values) || fresh(book)
      ensures View() == old(View())[o.terms.market := BookOf(old(View()), o.terms.market)]
    {
      hide OrderBook.Valid, OrderBook.View;
      var m := o.terms.market;
      hide WellFormedOrder;
      if m in books {
        book := books[m];
        assert View()[m] == book.View();
      } else {
        book := new OrderBook(m, scale);
        AddBook(m, book);
      }
    }

    /** File a book under its market. */
    method AddBook(m: string, book: OrderBook)
      requires m != "" && book.market == m && book.scale == scale && book !in books.Values
      modifies this`books
      ensures books == old(books)[m := book] && books.Values <= old(books.Values) + {book}
      ensures old(Valid()) && book.Valid() ==> Valid() && View() == old(View())[m := book.View()]
    {
      hide OrderBook.Valid, OrderBook.View;
      books := books[m := book];
    }

    /** The external fallback: fill what is left at the mark price, on the caller's copy only. */
    method FillAtMark(o0: Order, trades0: seq<Trade>, mark: Option<Decimal>, ghost taker: Order, ghost p: Placed)
      returns (o: Order, trades: seq<Trade>)
      requires Reports(o0, trades0, ViewOrder(taker), p, scale) && 0.0 <= p.filled <= Val(taker.quantity)
      requires mark.Some? ==> Fits(mark.value, scale)
      ensures Reports(o, trades, ViewOrder(taker), WithMark(ViewOrder(taker), p, ViewMark(mark)), scale)
      ensures o.terms == o0.terms && WithMark(ViewOrder(taker), p, ViewMark(mark)).book == p.book
    {
      hide Compare, Add, Sub, ValueOf, Val, ExternalMakerId, Cap, CompareInRange, AddInRange, SubInRange;
      o, trades := o0, trades0;
      OpenExact(o, scale);
      var remaining := SafeSub(o.quantity, o.filled);
      PositiveExact(remaining, scale);
      if Above(remaining, ZERO) && !o.status.Rejected? && mark.Some? {
        var markPrice := mark.value;
        CompareExact(markPrice, o.price, scale);
        if o.terms.kind.Market? || (if o.side.Buy? then AtMost(markPrice, o.price) else AtLeast(markPrice, o.price)) {
          var ext := Trade(o.terms.market, ExternalMakerId(o.terms.market, o.terms.timestamp), o.id, EXTERNAL_USER_ID,
                           o.userId, o.side, markPrice, remaining, o.terms.timestamp);
          FillExact(o, remaining, scale);
          ViewTradesConcat(trades, [ext]);
          assert ViewTrades([ext]) == [ViewTrade(ext)];
          trades := trades + [ext];
          o := o.(filled := SafeAdd(o.filled, remaining), status := OrderStatus.Filled);
        }
      }
    }

    /** Cancel a resting order and publish it; unknown markets and ids publish nothing. */
    method CancelOrder(market: string, orderId: string, userId: string)
      requires Valid()
      modifies this`events, books.Values
      ensures Valid() && old(events) <= events
      ensures var s := CancelStep(old(View()), market, orderId, userId);
              View() == s.books && PublishesAll(events[|old(events)|..], s.events)
    {
      hide OrderBook.View, OrderBook.Valid, BookSpec.Cancel, DepthEvent, PublishesAll;
      NothingPublished();
      if market !in books {
        assert events[|events|..] == [];
        return;
      }
      var book := books[market];
      var removed := CancelOn(book, market, orderId);
      if removed {
        ghost var e := OrderCanceled(orderId, market, userId, None, None);
        Publish(OrderCanceled(orderId, market, userId, None, None));
        PublishDepth(book);
        WithdrawnPublishes(orderId, market, userId);
        TwoPublished(old(events), e, events, Withdrawn(orderId, market, userId, None, None), DepthEvent(book.View()));
      } else {
        assert events[|events|..] == [];
      }
    }

    /** Cancel on one book; the others do not change. */
    method CancelOn(book: OrderBook, market: string, orderId: string) returns (removed: bool)
      requires Valid() && market in books && books[market] == book
      modifies book
      ensures Valid() && book.Valid() && removed == old(View())[market].Has(orderId)
      ensures book.View() == BookSpec.Cancel(old(View())[market], orderId)
      ensures View() == if removed then old(View())[market := book.View()] else old(View())
    {
      hide OrderBook.View, OrderBook.Valid, BookSpec.Cancel;
      assert View()[market] == book.View();
      removed := book.Cancel(orderId);
      if !removed {
        CancelAbsent(old(book.View()), orderId);
      }
      forall n | n in books
        ensures books[n].Valid() && books[n].View() == if n == market then book.View() else old(books[n].View())
      {
      }
    }

    /** One stream entry; entries that are neither a placement nor a cancel, and unreadable payloads, do nothing. */
    method ProcessEntry(entry: Entry, mark: Option<Decimal>)
      requires Valid()
      requires entry.PlaceOrderEntry? && entry.payload.Some? ==> Acceptable(OrderOf(entry.payload.value), mark)
      modifies this`books, this`events, books.Values
      ensures Valid() && old(events) <= events && fresh(books.Values - old(books.Values))
      ensures var s := EntryStep(old(View()), entry, mark);
              View() == s.books && PublishesAll(events[|old(events)|..], s.events)
    {
      hide OrderOf, PlaceStep, CancelStep, OrderBook.View, OrderBook.Valid, Publishes;
      match entry
      case PlaceOrderEntry(payload) =>
        if payload.Some? {
          PlaceOrder(payload.value, mark);
        }
      case CancelOrderEntry(m, id, u) =>
        CancelOrder(m, id, u);
      case OtherEntry =>
    }

    /** Write every book. */
    method SnapshotState() returns (state: seq<BookJson>)
      requires Valid()
      ensures AllRestorable(state, scale) && DecodeAll(state) == View()
    {
      hide OrderBook.View, OrderBook.Valid, Restorable, Decode, DecodeAll, AllRestorable;
      state := [];
      NoBooks(scale);
      var keys := books.Keys;
      while keys != {}
        invariant keys <= books.Keys && AllRestorable(state, scale)
        invariant DecodeAll(state).Keys == books.Keys - keys
        invariant forall m | m in books && m !in keys :: DecodeAll(state)[m] == books[m].View()
        decreases |keys|
      {
        var m :| m in keys;
        var j := books[m].SerializeState();
        OneMoreBook(state, j, scale);
        DecodedMarket(j, books[m].View());
        ViewMarket(books[m]);
        state := state + [j];
        keys := keys - {m};
      }
    }

    lemma ViewMarket(book: OrderBook)
      ensures book.View().market == book.market
    {
    }

    /** Forget all books and read the snapshot; rows without a market are skipped. */
    method RestoreState(state: seq<BookJson>)
      modifies this`books
      ensures AllRestorable(state, scale) ==> Valid() && View() == DecodeAll(state)
      ensures fresh(books.Values)
    {
      hide OrderBook.View, OrderBook.Valid, Restorable, Decode, DecodeAll;
      books := map[];
      NoBooks(scale);
      assert state[..0] == [];
      for i := 0 to |state|
        invariant fresh(books.Values)
        invariant AllRestorable(state, scale) ==> Valid() && View() == DecodeAll(state[..i])
      {
        assert state[..i + 1] == state[..i] + [state[i]];
        OneMoreDecoded(state[..i], state[i]);
        var m := state[i].market;
        if m != "" {
          var b := RestoreBook(state[i], scale);
          if AllRestorable(state, scale) {
            assert Restorable(state[i], scale);
          }
          AddBook(m, b);
        }
      }
      assert state[..|state|] == state;
    }
  }

  method RestoreBook(j: BookJson, ghost s: Scale) returns (b: OrderBook)
    ensures fresh(b) && b.market == j.market && b.scale == s
    ensures Restorable(j, s) ==> b.Valid() && b.View() == Decode(j)
  {
    b := new OrderBook(j.market, s);
    b.RestoreState(j);
  }

  lemma NoBooks(s: nat)
    ensures DecodeAll([]) == map[] && AllRestorable([], s)
  {
  }

  lemma NothingPublished()
    ensures PublishesAll([], [])
  {
  }

  lemma TwoPublished(before: seq<Event>, e: Event, after: seq<Event>, v: EventView, w: EventView)
    requires |after| == |before| + 2 && before + [e] <= after
    requires PublishesAll([e], [v]) && PublishesAll([after[|after| - 1]], [w])
    ensures PublishesAll(after[|before|..], [v, w])
  {
    hide PublishesAll;
    PublishesConcat([e], [after[|after| - 1]], [v], [w]);
    assert after[|before|..] == [e] + [after[|after| - 1]];
    assert [v] + [w] == [v, w];
  }

  lemma CancelAbsent(b: Book, id: string)
    requires !b.Has(id)
    ensures BookSpec.Cancel(b, id) == b
  {
    forall i | 0 <= i < |b.bids|
      ensures b.bids[i].id != id
    {
      assert b.bids[i] in b.bids;
    }
    forall i | 0 <= i < |b.asks|
      ensures b.asks[i].id != id
    {
      assert b.asks[i] in b.asks;
    }
  }

  lemma WithdrawnPublishes(id: string, market: string, userId: string)
    ensures PublishesAll([OrderCanceled(id, market, userId, None, None)], [Withdrawn(id, market, userId, None, None)])
  {
  }

  ghost function EntryStep(books: Books, entry: Entry, mark: Option<Decimal>): Stepped {
    match entry
    case PlaceOrderEntry(payload) =>
      if payload.Some? then PlaceStep(books, ViewOrder(OrderOf(payload.value)), ViewMark(mark)) else Stepped(books, [])
    case CancelOrderEntry(m, id, u) => CancelStep(books, m, id, u)
    case OtherEntry => Stepped(books, [])
  }

  // ----- snapshots of all books -----

  ghost predicate AllRestorable(state: seq<BookJson>, s: nat) {
    forall i | 0 <= i < |state| :: Restorable(state[i], s)
  }

  /** The books a snapshot describes: later rows of a market replace earlier ones. */
  ghost function DecodeAll(state: seq<BookJson>): Books {
    if state == [] then map[]
    else
      var n := |state| - 1;
      var rest := DecodeAll(state[..n]);
      if state[n].market == "" then rest else rest[state[n].market := Decode(state[n])]
  }

  lemma OneMoreDecoded(state: seq<BookJson>, j: BookJson)
    ensures DecodeAll(state + [j])
         == if j.market == "" then DecodeAll(state) else DecodeAll(state)[j.market := Decode(j)]
  {
    assert (state + [j])[..|state|] == state;
  }

  lemma OneMoreBook(state: seq<BookJson>, j: BookJson, s: nat)
    requires AllRestorable(state, s) && Restorable(j, s)
    ensures AllRestorable(state + [j], s)
    ensures DecodeAll(state + [j])
         == if j.market == "" then DecodeAll(state) else DecodeAll(state)[j.market := Decode(j)]
  {
    hide Restorable;
    OneMoreDecoded(state, j);
  }

  lemma DecodedMarket(j: BookJson, b: Book)
    requires Decode(j) == b
    ensures j.market == b.market
  {
  }

  // ----- restart: the restored engine cannot be told from the original -----

  /** Bound and freshness along a sequence of entries, each against the books it meets. */
  ghost predicate EntriesAcceptable(books: Books, s: nat, entries: seq<(Entry, Option<Decimal>)>)
    decreases |entries|
  {
    entries == []
    || (var (e, mark) := entries[0];
        && (e.PlaceOrderEntry? && e.payload.Some? ==> AcceptableIn(books, s, OrderOf(e.payload.value), mark))
        && EntriesAcceptable(EntryStep(books, e, mark).books, s, entries[1..]))
  }

  lemma LongerStream(es: seq<Event>, fs: seq<Event>, n: nat)
    requires n <= |es| && es <= fs
    ensures fs[n..] == es[n..] + fs[|es|..]
  {
  }

  /**
   * Snapshot bisimulation. An engine restored from the snapshot of another, fed any later sequence of entries,
   * publishes exactly the same text as the original fed the same entries.
   */
  method RestartPublishesTheSame(a: Engine, b: Engine, entries: seq<(Entry, Option<Decimal>)>)
    requires a != b && a.Valid() && a.scale == b.scale && a.books.Values !! b.books.Values
    requires EntriesAcceptable(a.View(), a.scale, entries)
    modifies a`books, a`events, a.books.Values, b`books, b`events
    ensures a.Valid() && b.Valid() && a.View() == b.View()
    ensures old(a.events) <= a.events && old(b.events) <= b.events
    ensures a.events[|old(a.events)|..] == b.events[|old(b.events)|..]
  {
    hide Publishes, EntryStep, OrderOf, OrderBook.View, OrderBook.Valid, AcceptableIn, Engine.View, DecodeAll, AllRestorable;
    ghost var na, nb := |a.events|, |b.events|;
    var state := a.SnapshotState();
    b.RestoreState(state);
    for i := 0 to |entries|
      invariant a.Valid() && b.Valid() && a.View() == b.View() && a.scale == b.scale
      invariant a.books.Values !! b.books.Values
      invariant fresh(a.books.Values - old(a.books.Values)) && fresh(b.books.Values)
      invariant old(a.events) <= a.events && old(b.events) <= b.events
      invariant a.events[na..] == b.events[nb..]
      invariant EntriesAcceptable(a.View(), a.scale, entries[i..])
    {
      var (e, mark) := entries[i];
      assert entries[i..][0] == entries[i] && entries[i..][1..] == entries[i + 1..];
      ghost var ea, eb, v := a.events, b.events, a.View();
      a.ProcessEntry(e, mark);
      b.ProcessEntry(e, mark);
      StreamUnique(a.events[|ea|..], b.events[|eb|..], EntryStep(v, e, mark).events);
      LongerStream(ea, a.events, na);
      LongerStream(eb, b.events, nb);
    }
  }

  /** Bound and freshness a placement needs: its numbers fit, its id is new, and its side has room. */
  ghost predicate AcceptableIn(books: Books, s: nat, o: Order, mark: Option<Decimal>) {
    && NumbersFit(o, s) && (mark.Some? ==> Fits(mark.value, s))
    && var b := BookOf(books, o.terms.market);
       WellFormedOrder(ViewOrder(o)) ==> !b.Has(o.id) && SumOpen(b.On(o.side)) + Val(o.quantity) < Cap(s)
  }

  ghost function ViewMark(mark: Option<Decimal>): Option<real> {
    if mark.Some? then Some(Val(mark.value)) else None
  }

  /** The engine's checks of a payload, and what they establish about the order as numbers. */
  lemma Validated(payload: JsonObject, s: nat)
    requires NumbersFit(OrderOf(payload), s)
    ensures var o := OrderOf(payload);
            && CompareInRange(o.quantity, ZERO)
            && (WellFormedOrder(ViewOrder(o))
                <==> !(o.id == "" || o.terms.market == "" || o.userId == "" || AtMost(o.quantity, ZERO)))
            && Val(o.filled) == 0.0 && ViewOrder(o).terms == o.terms
  {
    hide ToString, Parse, JStr, JBool, JInt, Compare, ValueOf, CompareInRange;
    PositiveExact(OrderOf(payload).quantity, s);
    ZeroFits(0);
  }

  /** What `Match` promises, as the report of a placement. */
  lemma MatchReports(b: Book, o: Order, trades: seq<Trade>, taker: Order, s: nat)
    requires Inv(b) && Placeable(b, ViewOrder(taker))
    requires var p := Place(b, ViewOrder(taker));
             && ViewTrades(trades) == p.trades
             && o == taker.(filled := o.filled, status := p.status) && Val(o.filled) == p.filled
    requires NumbersFit(o, s) && forall t | t in trades :: TradeFits(t, s)
    ensures var p := Place(b, ViewOrder(taker));
            Reports(o, trades, ViewOrder(taker), p, s) && 0.0 <= p.filled <= Val(taker.quantity)
  {
    PlaceConserves(b, ViewOrder(taker));
  }

  lemma InvalidPublishes(books: Books, o: Order, mark: Option<real>)
    requires !WellFormedOrder(ViewOrder(o))
    ensures PublishesAll([OrderRejected(o.id, o.terms.market, "invalid_order")], PlaceStep(books, ViewOrder(o), mark).events)
    ensures PlaceStep(books, ViewOrder(o), mark).books == books
  {
  }

  lemma ValidStep(books: Books, v: OrderView, mark: Option<real>)
    requires WellFormedOrder(v)
    ensures var p := Place(BookOf(books, v.terms.market), v);
            PlaceStep(books, v, mark) == Stepped(books[v.terms.market := p.book], PlaceEvents(v, WithMark(v, p, mark)))
  {
  }

  lemma NoTradeEvents(vs: seq<TradeView>)
    ensures PublishesAll([], TradeEvents(vs[..0]))
  {
  }

  lemma OneMoreTrade(vs: seq<TradeView>, trades: seq<Trade>, i: nat)
    requires vs == ViewTrades(trades) && i < |trades|
    ensures TradeEvents(vs[..i + 1]) == TradeEvents(vs[..i]) + [Traded(ViewTrade(trades[i]))]
  {
    TradeEventsAt(vs, i);
    TradeEventsAt(vs, i + 1);
  }

  lemma AllTrades(vs: seq<TradeView>)
    ensures vs[..|vs|] == vs
  {
  }

  lemma DepthPublishes(b: seq<(string, string)>, a: seq<(string, string)>, market: string, view: Book)
    requires PrintsDepth(b, view.bids, DEPTH_LEVELS) && PrintsDepth(a, view.asks, DEPTH_LEVELS) && market == view.market
    ensures PublishesAll([OrderBookUpdated(market, b, a)], [DepthEvent(view)])
  {
    hide Prints, Depths;
  }
}
