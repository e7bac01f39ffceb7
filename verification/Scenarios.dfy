/** Runs that end with money locked although nothing is open: one for each way of getting there. */
module Scenarios {
  import opened Orders
  import opened BookSpec
  import opened Greedy
  import opened Levels
  import opened Exchange
  import opened Discipline
  import opened Ledgers
  import opened Coverage
  import opened Providers
  import opened Margins
  import opened System
  import opened SystemRuns
  import opened Rejections

  const MARKETS: Markets := map["M" := MarketRow(true, "B", "Q", 1.0, 10.0, 10.0, 0, 0)]

  function Request(userId: string, side: Side, price: real, tif: TimeInForce): PlaceInput {
    PlaceInput(userId, "M", side, Limit, Some(price), 1.0, tif, None, "", false, false, None, 0)
  }

  ghost function Start(balances: Balances): Sys {
    Sys(Db(balances, map[]), [], map[], [], map[], [], NO_EVENTS, map[], map[])
  }

  /** The states a run goes through, one by one. */
  lemma {:induction false} Trace(states: seq<Sys>, acts: seq<Action>)
    requires |states| == |acts| + 1
    requires forall i | 0 <= i < |acts| :: states[i + 1] == Do(MARKETS, states[i], acts[i])
    requires forall i | 0 <= i < |acts| && (acts[i].ApiPlace? || acts[i].Inject?) :: Allowed(states[i], acts[i])
    ensures AllAllowed(MARKETS, states[0], acts) && Exec(MARKETS, states[0], acts) == states[|acts|]
    decreases |acts|
  {
    hide Do;
    if acts != [] {
      assert states[1] == Do(MARKETS, states[0], acts[0]);
      var rest := acts[1..];
      assert forall i | 0 <= i < |rest| :: rest[i] == acts[i + 1];
      Trace(states[1..], rest);
    }
  }

  /** Without leverage the margin is the cost. */
  lemma WholeMargin(price: real)
    requires price >= 0.0
    ensures MarginOf(price, 1.0, 1.0) == price == ExactMargin(price, 1.0, 1.0)
  {
    LeverageOne();
    ExactLeverageSuffices(price, 1.0);
    hide Quotient;
  }

  /** One turn of the writer, spelled out. */
  lemma Turn(s: Sys, ev: EventView, rest: seq<EventView>)
    requires s.pending == [ev] + rest
    ensures Do(MARKETS, s, WriterTurn)
            == Sys(Handled(MARKETS, s.db, ev), s.stream, s.books, rest, s.quoted, s.log + [ev], Apply(s.handled, ev),
                   StrandedAfter(MARKETS, UserOrders(s.db.orders), s.stranded, ev),
                   RoundsAfter(MARKETS, UserOrders(s.db.orders), s.rounded, ev))
  {
    hide Handled, Apply, StrandedAfter;
    assert s.pending[1..] == rest;
  }

  /** One turn of the engine on its only command. */
  lemma LastCommand(s: Sys, c: Command)
    requires s.stream == [c]
    ensures Do(MARKETS, s, EngineTurn)
            == s.(stream := [], books := Step(s.books, c).books, pending := s.pending + Step(s.books, c).events)
  {
    hide Step;
    assert s.stream[1..] == [];
  }

  // ----- canceled between acceptance and rejection -----

  const KILLED := Request("u", Buy, 1.0, FOK)
  const FUNDS := Account("u", "Q")
  const SENT := PlaceCommand(OrderSent("o", KILLED), None)
  const EMPTY_BOOK := Book("M", [], [])
  const ACCEPTED := Accepted("o", "M", "u", Buy, Limit, Some(1.0), 1.0, 0.0, OrderStatus.Rejected)
  const TURNED_DOWN := TurnedDown("o", "M", "post_only_would_cross")

  /** A fill-or-kill order on an empty book is accepted and turned down. */
  lemma KilledEvents()
    ensures Step(map[], SENT) == Stepped(map["M" := EMPTY_BOOK], [ACCEPTED, TURNED_DOWN, DepthEvent(EMPTY_BOOK)])
  {
    var o := OrderSent("o", KILLED);
    assert Place(EMPTY_BOOK, o) == Placed(EMPTY_BOOK, [], 0.0, OrderStatus.Rejected);
    hide Place, DepthEvent;
  }

  /** The order's row and its funds, after it was placed. */
  ghost function Reserving(status: OrderStatus): Db {
    Db(map[FUNDS := Balance(9.0, 1.0)], map["o" := RowOf(KILLED).(status := status)])
  }

  lemma KilledPlaced()
    ensures var s := Start(map[FUNDS := Balance(10.0, 0.0)]);
            Initial(s) && Allowed(s, ApiPlace(KILLED, "o"))
            && Do(MARKETS, s, ApiPlace(KILLED, "o")) == s.(db := Reserving(OrderStatus.Open), stream := [SENT])
  {
    WholeMargin(1.0);
    hide MarginOf;
  }

  lemma KilledCanceled(s: Sys)
    requires s.db == Reserving(OrderStatus.Open) && s.stream == []
    ensures Do(MARKETS, s, ApiCancel("o", "u")) == s.(db := Reserving(OrderStatus.Canceled), stream := [CancelCommand("M", "o", "u")])
  {
  }

  lemma KilledAccepted()
    ensures var db := Reserving(OrderStatus.Open);
            Handled(MARKETS, db, ACCEPTED) == db && StrandedAfter(MARKETS, UserOrders(db.orders), map[], ACCEPTED) == map[]
  {
  }

  /** Handling the rejection of a row that is marked canceled releases nothing. */
  lemma KilledRejected()
    ensures var db := Reserving(OrderStatus.Canceled);
            && Handled(MARKETS, db, TURNED_DOWN) == Reserving(OrderStatus.Rejected)
            && StrandedAfter(MARKETS, UserOrders(db.orders), map[], TURNED_DOWN) == map[FUNDS := 1.0]
  {
    WholeMargin(1.0);
    var o := RowOf(KILLED).(status := OrderStatus.Canceled);
    assert Due(o) == 1.0 && ReserveAccount(MARKETS, o) == FUNDS by {
      hide ExactMargin;
    }
    hide MarginOf, ExactMargin, Due, ReserveAccount;
  }

  lemma NothingToCancel(s: Sys)
    requires s.books == map["M" := EMPTY_BOOK]
    ensures Step(s.books, CancelCommand("M", "o", "u")) == Stepped(s.books, [])
  {
  }

  const KILL := [ApiPlace(KILLED, "o"), EngineTurn, WriterTurn, ApiCancel("o", "u"), WriterTurn, EngineTurn, WriterTurn]

  /**
   * A fill-or-kill order that finds an empty book, canceled by its owner after the writer handled its acceptance and
   * before it handled its rejection: nothing is open, nothing is under way, and its whole reservation is still locked.
   */
  lemma RejectionStrands()
    ensures var s0 := Start(map[FUNDS := Balance(10.0, 0.0)]);
            var s := Exec(MARKETS, s0, KILL);
            && Initial(s0) && AllAllowed(MARKETS, s0, KILL)
            && s.stream == [] && s.pending == [] && s.books == map["M" := EMPTY_BOOK]
            && s.db == Reserving(OrderStatus.Rejected) && s.stranded == map[FUNDS := 1.0] && s.quoted == map[]
  {
    hide *;
    var s0 := Start(map[FUNDS := Balance(10.0, 0.0)]);
    StartIs(map[FUNDS := Balance(10.0, 0.0)]);
    KilledPlaced();
    KilledEvents();
    KilledAccepted();
    KilledRejected();
    var a0 := ApiPlace(KILLED, "o");
    var s1 := Do(MARKETS, s0, a0);
    LastCommand(s1, SENT);
    var s2 := Do(MARKETS, s1, EngineTurn);
    Turn(s2, ACCEPTED, [TURNED_DOWN, DepthEvent(EMPTY_BOOK)]);
    var s3 := Do(MARKETS, s2, WriterTurn);
    KilledCanceled(s3);
    var s4 := Do(MARKETS, s3, ApiCancel("o", "u"));
    Turn(s4, TURNED_DOWN, [DepthEvent(EMPTY_BOOK)]);
    var s5 := Do(MARKETS, s4, WriterTurn);
    LastCommand(s5, CancelCommand("M", "o", "u"));
    NothingToCancel(s5);
    var s6 := Do(MARKETS, s5, EngineTurn);
    Turn(s6, DepthEvent(EMPTY_BOOK), []);
    DepthIsQuiet(s6.db, s6.stranded, EMPTY_BOOK);
    var s7 := Do(MARKETS, s6, WriterTurn);
    KillIs();
    Trace([s0, s1, s2, s3, s4, s5, s6, s7], KILL);
  }

  lemma KillIs()
    ensures KILL == [ApiPlace(KILLED, "o"), EngineTurn, WriterTurn, ApiCancel("o", "u"), WriterTurn, EngineTurn, WriterTurn]
  {
  }

  lemma StartIs(balances: Balances)
    ensures Start(balances) == Sys(Db(balances, map[]), [], map[], [], map[], [], NO_EVENTS, map[], map[])
  {
  }

  lemma DepthIsQuiet(db: Db, stranded: map<Account, real>, b: Book)
    ensures Handled(MARKETS, db, DepthEvent(b)) == db && StrandedAfter(MARKETS, UserOrders(db.orders), stranded, DepthEvent(b)) == stranded
  {
    assert DepthEvent(b).DepthChanged?;
  }

  // ----- bought below the limit -----

  const ASK := Request("s", Sell, 9.0, GTC)
  const BID := Request("u", Buy, 10.0, GTC)
  const ASK_VIEW := OrderSent("a", ASK)
  const BID_VIEW := OrderSent("b", BID)
  const GOODS := Account("s", "B")
  const TRADE := TradeView("M", "a", "b", "s", "u", Buy, 9.0, 1.0, 0)
  const ASKED_FIRST := Accepted("a", "M", "s", Sell, Limit, Some(9.0), 1.0, 0.0, OrderStatus.Open)
  const BID_TAKEN := Accepted("b", "M", "u", Buy, Limit, Some(10.0), 1.0, 1.0, OrderStatus.Filled)
  const BID_DONE := Completed("b", "M", "u", 1.0, Some(10.0))
  const ASK_BOOK := Book("M", [], [ASK_VIEW])

  /** An order into an empty book. */
  lemma FirstStep(books: Books, o: OrderView)
    requires WellFormedOrder(o) && Rests(o) && o.filled == 0.0 && BookOf(books, o.terms.market) == Book(o.terms.market, [], [])
    ensures var b := Book(o.terms.market, [], []).With(o.side, [o]);
            PlaceStep(books, o, None)
            == Stepped(books[o.terms.market := b],
                       [AcceptedEvent(o, Placed(b, [], 0.0, OrderStatus.Open)), DepthEvent(b)])
  {
    hide Place, DepthEvent, AcceptedEvent;
    FirstOrderRests(o);
    assert TradeEvents([]) == [];
  }

  lemma AskRests()
    ensures Step(map[], PlaceCommand(ASK_VIEW, None)) == Stepped(map["M" := ASK_BOOK], [ASKED_FIRST, DepthEvent(ASK_BOOK)])
  {
    hide PlaceStep, DepthEvent;
    FirstStep(map[], ASK_VIEW);
  }

  lemma OneMaker(taker: OrderView, m: OrderView, want: real)
    requires Crosses(taker, m.price) && OpenQty(m) == want > 0.0
    ensures Match(taker, [m], want) == Outcome([], [TradeWith(taker, m, want)], 0.0)
  {
    assert [m][1..] == [];
    assert Match(taker, [], 0.0) == Outcome([], [], 0.0);
  }

  lemma BidMatches()
    ensures Match(BID_VIEW, [ASK_VIEW], 1.0) == Outcome([], [TRADE], 0.0)
  {
    hide Match;
    OneMaker(BID_VIEW, ASK_VIEW, 1.0);
  }

  lemma BidPlaced()
    ensures Place(ASK_BOOK, BID_VIEW) == Placed(EMPTY_BOOK, [TRADE], 1.0, OrderStatus.Filled)
  {
    BidMatches();
    hide Match, Available;
    assert ASK_BOOK.On(Opposite(BID_VIEW.side)) == [ASK_VIEW];
  }

  lemma BidTakes()
    ensures Step(map["M" := ASK_BOOK], PlaceCommand(BID_VIEW, None))
            == Stepped(map["M" := EMPTY_BOOK], [BID_TAKEN, Traded(TRADE), BID_DONE, DepthEvent(EMPTY_BOOK)])
  {
    BidPlaced();
    hide Place, DepthEvent;
    assert TradeEvents([]) == [];
    assert [TRADE][1..] == [];
    assert TradeEvents([TRADE]) == [Traded(TRADE)];
    hide TradeEvents;
    assert map["M" := ASK_BOOK]["M" := EMPTY_BOOK] == map["M" := EMPTY_BOOK];
  }

  /** Both orders open, their funds locked. */
  ghost const BOTH_OPEN := Db(map[FUNDS := Balance(0.0, 10.0), GOODS := Balance(0.0, 1.0)],
                              map["a" := RowOf(ASK), "b" := RowOf(BID)])

  /** Both orders filled, one unit of quote too much locked. */
  ghost const BOTH_FILLED := Db(
    map[FUNDS := Balance(0.0, 1.0), GOODS := Balance(0.0, 0.0),
        Account("u", "B") := Balance(1.0, 0.0), Account("s", "Q") := Balance(9.0, 0.0)],
    map["a" := RowOf(ASK).(filled := 1.0, status := OrderStatus.Filled), "b" := RowOf(BID).(filled := 1.0, status := OrderStatus.Filled)])

  lemma AskPlaced()
    ensures var s0 := Start(map[FUNDS := Balance(10.0, 0.0), GOODS := Balance(1.0, 0.0)]);
            var s1 := Do(MARKETS, s0, ApiPlace(ASK, "a"));
            && Initial(s0) && Allowed(s0, ApiPlace(ASK, "a"))
            && s1 == s0.(db := s1.db, stream := [PlaceCommand(ASK_VIEW, None)])
            && s1.db == Db(map[FUNDS := Balance(10.0, 0.0), GOODS := Balance(0.0, 1.0)], map["a" := RowOf(ASK)])
  {
  }

  lemma BidPlacedAfter(s: Sys)
    requires s.db == Db(map[FUNDS := Balance(10.0, 0.0), GOODS := Balance(0.0, 1.0)], map["a" := RowOf(ASK)])
    requires s.stream == [] && s.quoted == map[]
    ensures Allowed(s, ApiPlace(BID, "b"))
    ensures Do(MARKETS, s, ApiPlace(BID, "b")) == s.(db := BOTH_OPEN, stream := [PlaceCommand(BID_VIEW, None)])
  {
    WholeMargin(10.0);
    hide MarginOf;
  }

  lemma OpeningIsQuiet()
    ensures Handled(MARKETS, BOTH_OPEN, ASKED_FIRST) == BOTH_OPEN
    ensures StrandedAfter(MARKETS, UserOrders(BOTH_OPEN.orders), map[], ASKED_FIRST) == map[]
    ensures Handled(MARKETS, BOTH_OPEN, BID_TAKEN) == BOTH_OPEN
    ensures StrandedAfter(MARKETS, UserOrders(BOTH_OPEN.orders), map[], BID_TAKEN) == map[]
  {
  }

  lemma TradeStrands()
    ensures Handled(MARKETS, BOTH_OPEN, Traded(TRADE)) == BOTH_FILLED
    ensures StrandedAfter(MARKETS, UserOrders(BOTH_OPEN.orders), map[], Traded(TRADE)) == map[FUNDS := 1.0, GOODS := 0.0]
  {
    WholeMargin(9.0);
    WholeMargin(10.0);
    hide MarginOf, ExactMargin;
  }

  lemma CompletionIsQuiet(stranded: map<Account, real>)
    ensures Handled(MARKETS, BOTH_FILLED, BID_DONE) == BOTH_FILLED
    ensures StrandedAfter(MARKETS, UserOrders(BOTH_FILLED.orders), stranded, BID_DONE) == stranded
  {
  }

  const TURNS := [WriterTurn, WriterTurn, WriterTurn, WriterTurn, WriterTurn, WriterTurn]

  /** The writer's turns on what two orders publish that trade with each other: only the trade changes anything. */
  lemma SixTurns(s: Sys, done: Db, left: map<Account, real>, first: EventView, b: Book, second: EventView, trade: EventView,
                 last: EventView, c: Book)
    requires s.pending == [first, DepthEvent(b), second, trade, last, DepthEvent(c)]
    requires Handled(MARKETS, s.db, first) == s.db && StrandedAfter(MARKETS, UserOrders(s.db.orders), s.stranded, first) == s.stranded
    requires Handled(MARKETS, s.db, second) == s.db && StrandedAfter(MARKETS, UserOrders(s.db.orders), s.stranded, second) == s.stranded
    requires Handled(MARKETS, s.db, trade) == done && StrandedAfter(MARKETS, UserOrders(s.db.orders), s.stranded, trade) == left
    requires Handled(MARKETS, done, last) == done && StrandedAfter(MARKETS, UserOrders(done.orders), left, last) == left
    ensures AllAllowed(MARKETS, s, TURNS)
    ensures var e := Exec(MARKETS, s, TURNS);
            e.stream == s.stream && e.pending == [] && e.books == s.books && e.db == done && e.stranded == left
  {
    hide Do, Exec, AllAllowed, Allowed, Handled, StrandedAfter, Apply, DepthEvent, UserOrders, RoundsAfter;
    Turn(s, first, [DepthEvent(b), second, trade, last, DepthEvent(c)]);
    var s1 := Do(MARKETS, s, WriterTurn);
    Turn(s1, DepthEvent(b), [second, trade, last, DepthEvent(c)]);
    DepthIsQuiet(s1.db, s1.stranded, b);
    var s2 := Do(MARKETS, s1, WriterTurn);
    Turn(s2, second, [trade, last, DepthEvent(c)]);
    var s3 := Do(MARKETS, s2, WriterTurn);
    Turn(s3, trade, [last, DepthEvent(c)]);
    var s4 := Do(MARKETS, s3, WriterTurn);
    Turn(s4, last, [DepthEvent(c)]);
    var s5 := Do(MARKETS, s4, WriterTurn);
    Turn(s5, DepthEvent(c), []);
    DepthIsQuiet(s5.db, s5.stranded, c);
    var s6 := Do(MARKETS, s5, WriterTurn);
    Trace([s, s1, s2, s3, s4, s5, s6], TURNS);
  }

  const MEET := [ApiPlace(ASK, "a"), EngineTurn, ApiPlace(BID, "b"), EngineTurn]

  lemma BothPublished()
    ensures var s0 := Start(map[FUNDS := Balance(10.0, 0.0), GOODS := Balance(1.0, 0.0)]);
            var s := Exec(MARKETS, s0, MEET);
            && Initial(s0) && AllAllowed(MARKETS, s0, MEET)
            && s.stream == [] && s.books == map["M" := EMPTY_BOOK] && s.db == BOTH_OPEN && s.stranded == map[]
            && s.pending == [ASKED_FIRST, DepthEvent(ASK_BOOK), BID_TAKEN, Traded(TRADE), BID_DONE, DepthEvent(EMPTY_BOOK)]
  {
    hide Do, Exec, AllAllowed, Allowed, Initial, Step, Handled, RowOf, OrderSent, DepthEvent, UserOrders;
    var s0 := Start(map[FUNDS := Balance(10.0, 0.0), GOODS := Balance(1.0, 0.0)]);
    AskPlaced();
    AskRests();
    BidTakes();
    var s1 := Do(MARKETS, s0, ApiPlace(ASK, "a"));
    LastCommand(s1, PlaceCommand(ASK_VIEW, None));
    var s2 := Do(MARKETS, s1, EngineTurn);
    BidPlacedAfter(s2);
    var s3 := Do(MARKETS, s2, ApiPlace(BID, "b"));
    LastCommand(s3, PlaceCommand(BID_VIEW, None));
    var s4 := Do(MARKETS, s3, EngineTurn);
    Trace([s0, s1, s2, s3, s4], MEET);
  }

  /**
   * A buyer offering 10 takes one unit at 9: both orders are filled, nothing is under way, and the one it did not have
   * to pay is still locked.
   */
  lemma ImprovementStrands()
    ensures var s0 := Start(map[FUNDS := Balance(10.0, 0.0), GOODS := Balance(1.0, 0.0)]);
            var s := Exec(MARKETS, s0, MEET + TURNS);
            && Initial(s0) && AllAllowed(MARKETS, s0, MEET + TURNS)
            && s.stream == [] && s.pending == [] && s.books == map["M" := EMPTY_BOOK]
            && s.db == BOTH_FILLED && AmountIn(s.stranded, FUNDS) == 1.0
  {
    BothPublished();
    OpeningIsQuiet();
    TradeStrands();
    CompletionIsQuiet(map[FUNDS := 1.0, GOODS := 0.0]);
    hide Exec, AllAllowed, Initial, Handled, StrandedAfter, DepthEvent, UserOrders, Start;
    var s0 := Start(map[FUNDS := Balance(10.0, 0.0), GOODS := Balance(1.0, 0.0)]);
    SixTurns(Exec(MARKETS, s0, MEET), BOTH_FILLED, map[FUNDS := 1.0, GOODS := 0.0], ASKED_FIRST, ASK_BOOK, BID_TAKEN, Traded(TRADE),
             BID_DONE, EMPTY_BOOK);
    ExecConcat(MARKETS, s0, MEET, TURNS);
  }
}
