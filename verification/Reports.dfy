/** What the events of one command say, and that the depth last published for a market is the depth it has. */
module Reports {
  import opened DecimalText
  import opened Orders
  import opened Greedy
  import opened BookSpec
  import opened Levels
  import opened Exchange
  import opened Discipline
  import opened Outcomes
  import Runs
  import Arrivals

  // ----- one placement -----

  /** An order that the engine turns down unseen. */
  ghost predicate Unusable(o: OrderView) {
    o.id == "" || o.terms.market == "" || o.userId == "" || o.quantity <= 0.0
  }

  /** The remainder of a usable order is filled at the mark price. */
  ghost predicate FilledAtMark(o: OrderView, p: Placed, mark: Option<real>) {
    !p.status.Rejected? && p.filled < o.quantity && mark.Some? && Accepts(o, mark.value)
  }

  /** The trade that does it: with the external user, for all that is left. */
  ghost predicate TradeAtMark(o: OrderView, p: Placed, price: real, t: TradeView) {
    && t.market == o.terms.market && t.takerSide == o.side && t.takerOrderId == o.id && t.takerUserId == o.userId
    && t.makerUserId == EXTERNAL_USER_ID && t.timestamp == o.terms.timestamp
    && t.makerOrderId == "binance-external-" + o.terms.market + "-" + IntText(o.terms.timestamp)
    && t.price == price && t.quantity == o.quantity - p.filled
  }

  /** An order that is not usable is turned down with one event, and no book is touched; any other is never told so. */
  lemma TurnedDownUnseenIff(books: Books, o: OrderView, mark: Option<real>)
    ensures var s := PlaceStep(books, o, mark);
            && (Unusable(o) ==> s == Stepped(books, [TurnedDown(o.id, o.terms.market, "invalid_order")]))
            && (!Unusable(o) ==> |s.events| >= 2 && s.events[0].Accepted? && s.events[|s.events| - 1].DepthChanged?)
  {
    hide Place, WithMark, TradeEvents, FinalEvents;
  }

  lemma {:induction false} TradeEventsAre(ts: seq<TradeView>)
    ensures |TradeEvents(ts)| == |ts| && forall k | 0 <= k < |ts| :: TradeEvents(ts)[k] == Traded(ts[k])
  {
    if ts != [] {
      TradeEventsAre(ts[1..]);
      assert forall k | 1 <= k < |ts| :: ts[k] == ts[1..][k - 1];
    }
  }

  /** What the last word on an order is: filled, turned down, its remainder dropped, or none while it rests. */
  ghost predicate LastWord(o: OrderView, filled: real, rejected: bool, first: Option<real>, evs: seq<EventView>) {
    if filled == o.quantity then
      evs == [Completed(o.id, o.terms.market, o.userId, o.quantity, if o.terms.kind.Limit? then Some(o.price) else first)]
    else if rejected then evs == [TurnedDown(o.id, o.terms.market, "post_only_would_cross")]
    else if o.terms.kind.Limit? && o.terms.tif.GTC? then evs == []
    else evs == [Withdrawn(o.id, o.terms.market, o.userId, Some("unfilled_remainder_canceled"), Some(filled))]
  }

  ghost function FirstPrice(ts: seq<TradeView>): Option<real> {
    if ts == [] then None else Some(ts[0].price)
  }

  lemma MarkIs(o: OrderView, p: Placed, mark: Option<real>)
    ensures var r := WithMark(o, p, mark);
            if FilledAtMark(o, p, mark)
            then r.filled == o.quantity && r.status.Filled? && |r.trades| == |p.trades| + 1 && r.trades[..|p.trades|] == p.trades
                 && TradeAtMark(o, p, mark.value, r.trades[|p.trades|]) && r.book == p.book
            else r == p
    ensures FilledAtMark(o, p, mark) ==> !p.status.Rejected?
  {
    if mark.Some? {
      AcceptsIs(o, mark.value);
    }
    hide Crosses, Accepts;
  }

  lemma FinalIs(o: OrderView, r: Placed)
    requires r.filled <= o.quantity
    ensures LastWord(o, r.filled, r.status.Rejected?, FirstPrice(r.trades), FinalEvents(o, r))
  {
  }

  lemma PartsOf(first: EventView, ts: seq<EventView>, final: seq<EventView>, last: EventView)
    ensures var evs := [first] + ts + final + [last];
            && evs[0] == first && evs[1..|ts| + 1] == ts && evs[|ts| + 1..|evs| - 1] == final && evs[|evs| - 1] == last
  {
  }

  /** The outcome that the events of a usable order report: the placement's, or the remainder filled at the mark. */
  ghost function FilledOf(o: OrderView, p: Placed, mark: Option<real>): real {
    if FilledAtMark(o, p, mark) then o.quantity else p.filled
  }

  /**
   * The events of a usable order on its book: its acceptance, with what it will have filled and its status after that; one
   * trade event per trade, and one at the mark price if it is filled there; the last word; the depth of the book after it.
   */
  lemma PlacementSays(books: Books, o: OrderView, mark: Option<real>) returns (ts: seq<TradeView>)
    requires !Unusable(o) && Inv(BookOf(books, o.terms.market)) && Placeable(BookOf(books, o.terms.market), o)
    ensures var p := Place(BookOf(books, o.terms.market), o);
            && |ts| == (if FilledAtMark(o, p, mark) then |p.trades| + 1 else |p.trades|)
            && ts[..|p.trades|] == p.trades
            && (FilledAtMark(o, p, mark) ==> TradeAtMark(o, p, mark.value, ts[|p.trades|]))
    ensures var p, evs := Place(BookOf(books, o.terms.market), o), PlaceStep(books, o, mark).events;
            var filled := FilledOf(o, p, mark);
            && |ts| + 1 < |evs|
            && evs[0] == Accepted(o.id, o.terms.market, o.userId, o.side, o.terms.kind,
                                  if o.terms.kind.Limit? then Some(o.price) else None, o.quantity, filled,
                                  if p.status.Rejected? then OrderStatus.Rejected else StatusOf(o, filled))
            && (forall k | 0 <= k < |ts| :: evs[1..|ts| + 1][k] == Traded(ts[k]))
            && LastWord(o, filled, p.status.Rejected?, FirstPrice(ts), evs[|ts| + 1..|evs| - 1])
            && evs[|evs| - 1] == DepthEvent(p.book)
  {
    hide Inv, Placeable, WouldTake, TooThin, DepthEvent, Place, WithMark, TradeEvents, FinalEvents, FilledAtMark, TradeAtMark, LastWord,
         FirstPrice, BookOf, AcceptedVolume, Least;
    var b := BookOf(books, o.terms.market);
    var p := Place(b, o);
    OutcomeIs(b, o);
    FillWithin(b, o);
    MarkIs(o, p, mark);
    var r := WithMark(o, p, mark);
    ts := r.trades;
    TradeEventsAre(ts);
    FinalIs(o, r);
    StepEvents(books, o, mark);
    PartsOf(AcceptedEvent(o, r), TradeEvents(ts), FinalEvents(o, r), DepthEvent(r.book));
  }

  lemma FillWithin(b: Book, o: OrderView)
    requires Inv(b) && Placeable(b, o)
    ensures Place(b, o).filled <= o.quantity
  {
    PlaceConserves(b, o);
  }

  lemma StepEvents(books: Books, o: OrderView, mark: Option<real>)
    requires !Unusable(o)
    ensures var r := WithMark(o, Place(BookOf(books, o.terms.market), o), mark);
            PlaceStep(books, o, mark).events == [AcceptedEvent(o, r)] + TradeEvents(r.trades) + FinalEvents(o, r) + [DepthEvent(r.book)]
  {
    hide Place, WithMark, TradeEvents, FinalEvents, DepthEvent, AcceptedEvent;
  }

  /** Canceling an order that rests says so once, with the depth; of any other order nothing is said, and nothing changes. */
  lemma CancelSays(books: Books, m: string, id: string, userId: string)
    ensures var s := CancelStep(books, m, id, userId);
            if m in books && ((exists o :: o in books[m].bids && o.id == id) || (exists o :: o in books[m].asks && o.id == id))
            then s.events == [Withdrawn(id, m, userId, None, None), DepthEvent(Cancel(books[m], id))]
                 && s.books == books[m := Cancel(books[m], id)]
            else s == Stepped(books, [])
  {
    hide DepthEvent, Cancel;
  }

  // ----- depth -----

  /** The rows show a side: the best twenty prices or all there are, strictly worsening, each with the volume resting at it. */
  ghost predicate ShowsBest(side: Side, q: seq<OrderView>, rows: seq<(real, real)>) {
    |rows| <= 20 && Worsening(side, rows) && VolumesOf(q, rows) && PricesOf(q, rows) && AllBest(side, q, rows)
  }

  ghost predicate Worsening(side: Side, rows: seq<(real, real)>) {
    forall i, j | 0 <= i < j < |rows| :: if side.Buy? then rows[i].0 > rows[j].0 else rows[i].0 < rows[j].0
  }

  ghost predicate VolumesOf(q: seq<OrderView>, rows: seq<(real, real)>) {
    forall i | 0 <= i < |rows| :: rows[i].1 == SumAt(q, rows[i].0)
  }

  ghost predicate PricesOf(q: seq<OrderView>, rows: seq<(real, real)>) {
    forall i | 0 <= i < |rows| :: exists k :: 0 <= k < |q| && q[k].price == rows[i].0
  }

  /** A price that is not shown is worse than twenty that are. */
  ghost predicate AllBest(side: Side, q: seq<OrderView>, rows: seq<(real, real)>) {
    forall k | 0 <= k < |q| ::
      || (exists i :: 0 <= i < |rows| && rows[i].0 == q[k].price)
      || (|rows| == 20 && if side.Buy? then q[k].price < rows[19].0 else q[k].price > rows[19].0)
  }

  lemma {:induction false} DepthPrices(q: seq<OrderView>, k: nat)
    requires k < |q|
    ensures exists i :: 0 <= i < |Depths(q)| && Depths(q)[i].0 == q[k].price
    decreases |q|
  {
    DepthsHead(q);
    if k > 0 {
      DepthPrices(q[1..], k - 1);
      var rest := Depths(q[1..]);
      var i :| 0 <= i < |rest| && rest[i].0 == q[1..][k - 1].price;
      if rest[0].0 == q[0].price {
        assert Depths(q)[i].0 == q[k].price;
      } else {
        assert Depths(q)[i + 1] == rest[i];
      }
    }
  }

  lemma {:induction false} DepthFromOrders(q: seq<OrderView>, i: nat)
    requires i < |Depths(q)|
    ensures exists k :: 0 <= k < |q| && q[k].price == Depths(q)[i].0
    decreases |q|
  {
    var rest := Depths(q[1..]);
    if rest != [] && rest[0].0 == q[0].price {
      if i == 0 {
        assert q[0].price == Depths(q)[i].0;
      } else {
        DepthFromOrders(q[1..], i);
        var k :| 0 <= k < |q[1..]| && q[1..][k].price == rest[i].0;
        assert q[k + 1].price == Depths(q)[i].0;
      }
    } else if i == 0 {
      assert q[0].price == Depths(q)[i].0;
    } else {
      DepthFromOrders(q[1..], i - 1);
      var k :| 0 <= k < |q[1..]| && q[1..][k].price == rest[i - 1].0;
      assert q[k + 1].price == Depths(q)[i].0;
    }
  }

  /** In strictly ordered rows the volume at a row's price is that row's. */
  lemma {:induction false} VolumeOfRow(side: Side, d: seq<(real, real)>, i: nat)
    requires Strict(side, d) && i < |d|
    ensures VolumeIn(d, d[i].0) == d[i].1
    decreases |d|
  {
    if i == 0 {
      NoVolume(side, d, d[0].0);
    } else {
      assert d[1..][i - 1] == d[i];
      VolumeOfRow(side, d[1..], i - 1);
    }
  }

  lemma {:induction false} NothingThere(d: seq<(real, real)>, price: real)
    requires forall k | 0 <= k < |d| :: d[k].0 != price
    ensures VolumeIn(d, price) == 0.0
    decreases |d|
  {
    if d != [] {
      NothingThere(d[1..], price);
    }
  }

  lemma NoVolume(side: Side, d: seq<(real, real)>, price: real)
    requires Strict(side, d) && d != [] && d[0].0 == price
    ensures VolumeIn(d, price) == d[0].1
  {
    assert forall k | 0 <= k < |d[1..]| :: d[1..][k] == d[k + 1];
    NothingThere(d[1..], price);
  }

  lemma TopIs(d: seq<(real, real)>)
    ensures |Top(d)| <= 20 && |Top(d)| <= |d| && (|Top(d)| < 20 ==> Top(d) == d) && forall i | 0 <= i < |Top(d)| :: Top(d)[i] == d[i]
  {
  }

  lemma RowIs(side: Side, q: seq<OrderView>, i: nat)
    requires Sorted(side, q) && i < |Depths(q)|
    ensures Depths(q)[i].1 == SumAt(q, Depths(q)[i].0)
  {
    DepthsMeaning(side, q, Depths(q)[i].0);
    VolumeOfRow(side, Depths(q), i);
  }

  /** A price that is not among the first rows is behind the last of them. */
  lemma PriceShown(side: Side, q: seq<OrderView>, k: nat)
    requires Sorted(side, q) && k < |q|
    ensures var rows := Top(Depths(q));
            || (exists i :: 0 <= i < |rows| && rows[i].0 == q[k].price)
            || (|rows| == 20 && if side.Buy? then q[k].price < rows[19].0 else q[k].price > rows[19].0)
  {
    var d, rows := Depths(q), Top(Depths(q));
    DepthsMeaning(side, q, 0.0);
    TopIs(d);
    DepthPrices(q, k);
    hide Depths, VolumeIn, SumAt, Sorted, Top;
    var i :| 0 <= i < |d| && d[i].0 == q[k].price;
    if i < |rows| {
      assert rows[i].0 == q[k].price;
    } else {
      assert Greedy.Ahead(side, d[19].0, d[i].0);
    }
  }

  lemma RowsWorsen(side: Side, q: seq<OrderView>, d: seq<(real, real)>, rows: seq<(real, real)>)
    requires Sorted(side, q) && d == Depths(q) && rows == Top(d)
    ensures Worsening(side, rows)
  {
    DepthsMeaning(side, q, 0.0);
    TopIs(d);
    hide VolumeIn, SumAt, Sorted, Top;
    forall i, j | 0 <= i < j < |rows|
      ensures if side.Buy? then rows[i].0 > rows[j].0 else rows[i].0 < rows[j].0
    {
      assert Greedy.Ahead(side, d[i].0, d[j].0);
    }
  }

  lemma RowsAreVolumes(side: Side, q: seq<OrderView>, d: seq<(real, real)>, rows: seq<(real, real)>)
    requires Sorted(side, q) && d == Depths(q) && rows == Top(d)
    ensures VolumesOf(q, rows) && PricesOf(q, rows)
  {
    TopIs(d);
    forall i | 0 <= i < |rows|
      ensures rows[i].1 == SumAt(q, rows[i].0)
      ensures exists k :: 0 <= k < |q| && q[k].price == rows[i].0
    {
      RowIs(side, q, i);
      DepthFromOrders(q, i);
    }
  }

  lemma AllShown(side: Side, q: seq<OrderView>, d: seq<(real, real)>, rows: seq<(real, real)>)
    requires Sorted(side, q) && d == Depths(q) && rows == Top(d)
    ensures AllBest(side, q, rows)
  {
    forall k | 0 <= k < |q|
      ensures || (exists i :: 0 <= i < |rows| && rows[i].0 == q[k].price)
              || (|rows| == 20 && if side.Buy? then q[k].price < rows[19].0 else q[k].price > rows[19].0)
    {
      PriceShown(side, q, k);
    }
  }

  lemma TopShowsBest(side: Side, q: seq<OrderView>)
    requires Sorted(side, q)
    ensures ShowsBest(side, q, Top(Depths(q)))
  {
    hide Sorted, Top, Worsening, VolumesOf, PricesOf, AllBest;
    var d := Depths(q);
    TopIs(d);
    RowsWorsen(side, q, d, Top(d));
    RowsAreVolumes(side, q, d, Top(d));
    AllShown(side, q, d, Top(d));
  }

  /** The depth last published for a market. */
  ghost function LastDepth(evs: seq<EventView>, m: string): Option<EventView> {
    if evs == [] then None
    else if evs[|evs| - 1].DepthChanged? && evs[|evs| - 1].market == m then Some(evs[|evs| - 1])
    else LastDepth(evs[..|evs| - 1], m)
  }

  lemma {:induction false} LastDepthConcat(p: seq<EventView>, q: seq<EventView>, m: string)
    ensures LastDepth(p + q, m) == if LastDepth(q, m).Some? then LastDepth(q, m) else LastDepth(p, m)
    decreases |q|
  {
    if q == [] {
      assert p + q == p;
    } else {
      assert (p + q)[..|p + q| - 1] == p + q[..|q| - 1];
      LastDepthConcat(p, q[..|q| - 1], m);
    }
  }

  /** A market's book is known by name. */
  ghost predicate NamedBooks(books: Books) {
    forall m | m in books :: books[m].market == m
  }

  lemma {:induction false} NoDepth(evs: seq<EventView>, m: string)
    requires forall k | 0 <= k < |evs| :: !evs[k].DepthChanged? || evs[k].market != m
    ensures LastDepth(evs, m) == None
    decreases |evs|
  {
    if evs != [] {
      NoDepth(evs[..|evs| - 1], m);
    }
  }

  lemma PlaceMarket(b: Book, o: OrderView)
    ensures Place(b, o).book.market == b.market
  {
    hide Match, Available, Insert;
  }

  /** One command publishes the depth of every book it may have changed. */
  lemma StepDepth(books: Books, c: Command, m: string)
    requires NamedBooks(books)
    ensures var s := Step(books, c);
            && NamedBooks(s.books) && books.Keys <= s.books.Keys
            && (if LastDepth(s.events, m).Some? then m in s.books && LastDepth(s.events, m) == Some(DepthEvent(s.books[m]))
                else if m in books then m in s.books && s.books[m] == books[m] else m !in s.books)
  {
    hide Place, Cancel, WithMark, TradeEvents, FinalEvents, DepthEvent;
    var s := Step(books, c);
    if s.events != [] && s.events[|s.events| - 1].DepthChanged? {
      var before := s.events[..|s.events| - 1];
      match c {
        case PlaceCommand(o, mark) =>
          PlaceMarket(BookOf(books, o.terms.market), o);
          DepthIs(Place(BookOf(books, o.terms.market), o).book);
          MarkKeepsBook(o, Place(BookOf(books, o.terms.market), o), mark);
          NoEarlierDepth(books, o, mark, m);
        case CancelCommand(x, id, u) =>
          CancelMarket(books[x], id);
          DepthIs(Cancel(books[x], id));
          NoDepth(before, m);
      }
    } else {
      NoDepthAtAll(books, c, m);
    }
  }

  lemma DepthIs(b: Book)
    ensures DepthEvent(b).DepthChanged? && DepthEvent(b).market == b.market
  {
  }

  lemma CancelMarket(b: Book, id: string)
    ensures Cancel(b, id).market == b.market
  {
  }

  lemma MarkKeepsBook(o: OrderView, p: Placed, mark: Option<real>)
    ensures WithMark(o, p, mark).book == p.book
  {
  }

  lemma NoEarlierDepth(books: Books, o: OrderView, mark: Option<real>, m: string)
    requires !Unusable(o)
    ensures var evs := PlaceStep(books, o, mark).events; evs != [] && LastDepth(evs[..|evs| - 1], m) == None
  {
    var r := WithMark(o, Place(BookOf(books, o.terms.market), o), mark);
    hide Place, WithMark, DepthEvent;
    TradeEventsAre(r.trades);
    hide TradeEvents;
    var evs := PlaceStep(books, o, mark).events;
    assert evs[..|evs| - 1] == [AcceptedEvent(o, r)] + TradeEvents(r.trades) + FinalEvents(o, r);
    NoDepth(evs[..|evs| - 1], m);
  }

  lemma NoDepthAtAll(books: Books, c: Command, m: string)
    requires var evs := Step(books, c).events; evs == [] || !evs[|evs| - 1].DepthChanged?
    ensures LastDepth(Step(books, c).events, m) == None && Step(books, c).books == books
  {
    hide Place, WithMark, TradeEvents, FinalEvents, Cancel;
    NoDepth(Step(books, c).events, m);
  }

  lemma {:induction false} RunDepth(books: Books, cs: seq<Command>, m: string)
    requires NamedBooks(books)
    ensures var r := Run(books, cs);
            && NamedBooks(r.books)
            && (if LastDepth(r.events, m).Some? then m in r.books && LastDepth(r.events, m) == Some(DepthEvent(r.books[m]))
                else if m in books then m in r.books && r.books[m] == books[m] else m !in r.books)
    decreases |cs|
  {
    hide Step, NamedBooks, DepthEvent;
    if cs != [] {
      var first := Step(books, cs[0]);
      StepDepth(books, cs[0], m);
      RunDepth(first.books, cs[1..], m);
      LastDepthConcat(first.events, Run(first.books, cs[1..]).events, m);
    }
  }

  /**
   * Over every run: a market has a book if and only if a depth was published for it, and the one published last shows the
   * best twenty prices of each side of the book as it is, with the volume resting at each.
   */
  lemma DepthIsCurrent(cs: seq<Command>, m: string)
    requires Runs.FreshIds(cs)
    ensures var r := Run(map[], cs);
            && (m in r.books <==> LastDepth(r.events, m).Some?)
            && (m in r.books ==>
                  var d := LastDepth(r.events, m).value;
                  && d.DepthChanged? && d.market == m
                  && ShowsBest(Buy, r.books[m].bids, d.bids) && ShowsBest(Sell, r.books[m].asks, d.asks))
  {
    hide Run, ShowsBest, Depths, Top, LastDepth;
    RunDepth(map[], cs, m);
    var r := Run(map[], cs);
    if m in r.books {
      Arrivals.FreshBook(cs, m);
      TopShowsBest(Buy, r.books[m].bids);
      TopShowsBest(Sell, r.books[m].asks);
    }
  }
}
