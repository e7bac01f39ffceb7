/** A run in which a market buy spends what an earlier rejection left stranded in its account. */
module Overspent {
  import opened Orders
  import opened BookSpec
  import opened Greedy
  import opened Exchange
  import opened Discipline
  import opened Ledgers
  import opened Coverage
  import opened Providers
  import opened System
  import opened SystemRuns
  import opened Scenarios

  /** An offer at 2, and a market buy that names price 1. */
  const OFFER := Request("s", Sell, 2.0, GTC)
  const TAKE := PlaceInput("u", "M", Buy, OrderType.Market, Some(1.0), 1.0, IOC, None, "", false, false, None, 0)
  const OFFER_VIEW := OrderSent("a", OFFER)
  const TAKE_VIEW := OrderSent("b", TAKE)
  const DEAL := TradeView("M", "a", "b", "s", "u", Buy, 2.0, 1.0, 0)
  const OFFERED := Accepted("a", "M", "s", Sell, Limit, Some(2.0), 1.0, 0.0, OrderStatus.Open)
  const TAKEN := Accepted("b", "M", "u", Buy, OrderType.Market, None, 1.0, 1.0, OrderStatus.Filled)
  const DONE := Completed("b", "M", "u", 1.0, Some(2.0))
  const OFFER_BOOK := Book("M", [], [OFFER_VIEW])

  lemma OfferRests()
    ensures Step(map["M" := EMPTY_BOOK], PlaceCommand(OFFER_VIEW, None))
            == Stepped(map["M" := OFFER_BOOK], [OFFERED, DepthEvent(OFFER_BOOK)])
  {
    hide PlaceStep, DepthEvent;
    FirstStep(map["M" := EMPTY_BOOK], OFFER_VIEW);
    assert map["M" := EMPTY_BOOK]["M" := OFFER_BOOK] == map["M" := OFFER_BOOK];
  }

  lemma TakeMatches()
    ensures Match(TAKE_VIEW, [OFFER_VIEW], 1.0) == Outcome([], [DEAL], 0.0)
  {
    hide Match;
    OneMaker(TAKE_VIEW, OFFER_VIEW, 1.0);
  }

  lemma TakePlaced()
    ensures Place(OFFER_BOOK, TAKE_VIEW) == Placed(EMPTY_BOOK, [DEAL], 1.0, OrderStatus.Filled)
  {
    TakeMatches();
    hide Match, Available;
    assert OFFER_BOOK.On(Opposite(TAKE_VIEW.side)) == [OFFER_VIEW];
  }

  lemma TakeTakes()
    ensures Step(map["M" := OFFER_BOOK], PlaceCommand(TAKE_VIEW, None))
            == Stepped(map["M" := EMPTY_BOOK], [TAKEN, Traded(DEAL), DONE, DepthEvent(EMPTY_BOOK)])
  {
    TakePlaced();
    hide Place, DepthEvent;
    assert TradeEvents([]) == [];
    assert [DEAL][1..] == [];
    assert TradeEvents([DEAL]) == [Traded(DEAL)];
    hide TradeEvents;
    assert map["M" := OFFER_BOOK]["M" := EMPTY_BOOK] == map["M" := EMPTY_BOOK];
  }

  const KILLED_ROW := RowOf(KILLED).(status := OrderStatus.Rejected)

  /** Both orders open: two units locked, one of them stranded. */
  ghost const AT_MARKET := Db(map[FUNDS := Balance(8.0, 2.0), GOODS := Balance(0.0, 1.0)],
                              map["o" := KILLED_ROW, "a" := RowOf(OFFER), "b" := RowOf(TAKE)])

  /** Both filled, at 2: nothing is locked any more. */
  ghost const ALL_SPENT := Db(
    map[FUNDS := Balance(8.0, 0.0), GOODS := Balance(0.0, 0.0),
        Account("u", "B") := Balance(1.0, 0.0), Account("s", "Q") := Balance(2.0, 0.0)],
    map["o" := KILLED_ROW, "a" := RowOf(OFFER).(filled := 1.0, status := OrderStatus.Filled),
        "b" := RowOf(TAKE).(filled := 1.0, status := OrderStatus.Filled)])

  lemma OfferPlaced(s: Sys)
    requires s.db == Reserving(OrderStatus.Rejected) && s.stream == [] && s.quoted == map[]
    ensures var s1 := Do(MARKETS, s, Deposit(GOODS, 1.0));
            var s2 := Do(MARKETS, s1, ApiPlace(OFFER, "a"));
            && s1 == s.(db := s1.db) && Allowed(s1, ApiPlace(OFFER, "a"))
            && s2 == s.(db := s2.db, stream := [PlaceCommand(OFFER_VIEW, None)])
            && s2.db == Db(map[FUNDS := Balance(9.0, 1.0), GOODS := Balance(0.0, 1.0)], map["o" := KILLED_ROW, "a" := RowOf(OFFER)])
  {
  }

  lemma TakePlacedAfter(s: Sys)
    requires s.db == Db(map[FUNDS := Balance(9.0, 1.0), GOODS := Balance(0.0, 1.0)], map["o" := KILLED_ROW, "a" := RowOf(OFFER)])
    requires s.stream == [] && s.quoted == map[]
    ensures Allowed(s, ApiPlace(TAKE, "b"))
    ensures Do(MARKETS, s, ApiPlace(TAKE, "b")) == s.(db := AT_MARKET, stream := [PlaceCommand(TAKE_VIEW, None)])
  {
    WholeMargin(1.0);
    hide MarginOf;
  }

  lemma QuietAtMarket(stranded: map<Account, real>)
    ensures Handled(MARKETS, AT_MARKET, OFFERED) == AT_MARKET && Handled(MARKETS, AT_MARKET, TAKEN) == AT_MARKET
    ensures StrandedAfter(MARKETS, UserOrders(AT_MARKET.orders), stranded, OFFERED) == stranded
    ensures StrandedAfter(MARKETS, UserOrders(AT_MARKET.orders), stranded, TAKEN) == stranded
    ensures Handled(MARKETS, ALL_SPENT, DONE) == ALL_SPENT
    ensures StrandedAfter(MARKETS, UserOrders(ALL_SPENT.orders), stranded, DONE) == stranded
  {
  }

  lemma DealSpends()
    ensures Handled(MARKETS, AT_MARKET, Traded(DEAL)) == ALL_SPENT
    ensures StrandedAfter(MARKETS, UserOrders(AT_MARKET.orders), map[FUNDS := 1.0], Traded(DEAL)) == map[FUNDS := 1.0, GOODS := 0.0]
  {
    WholeMargin(2.0);
    hide MarginOf, ExactMargin;
  }

  const BUY := [Deposit(GOODS, 1.0), ApiPlace(OFFER, "a"), EngineTurn, ApiPlace(TAKE, "b"), EngineTurn]

  /** From the end of the run that strands 1 by a rejection on: offer and market buy meet. */
  lemma TakePublished(s: Sys)
    requires s.stream == [] && s.pending == [] && s.books == map["M" := EMPTY_BOOK] && s.quoted == map[]
    requires s.db == Reserving(OrderStatus.Rejected) && s.stranded == map[FUNDS := 1.0]
    ensures AllAllowed(MARKETS, s, BUY)
    ensures var e := Exec(MARKETS, s, BUY);
            && e.stream == [] && e.books == map["M" := EMPTY_BOOK] && e.db == AT_MARKET && e.stranded == s.stranded
            && e.pending == [OFFERED, DepthEvent(OFFER_BOOK), TAKEN, Traded(DEAL), DONE, DepthEvent(EMPTY_BOOK)]
  {
    hide Do, Exec, AllAllowed, Allowed, Step, Handled, RowOf, OrderSent, DepthEvent, UserOrders, Reserving;
    OfferPlaced(s);
    OfferRests();
    TakeTakes();
    var s1 := Do(MARKETS, s, Deposit(GOODS, 1.0));
    var s2 := Do(MARKETS, s1, ApiPlace(OFFER, "a"));
    LastCommand(s2, PlaceCommand(OFFER_VIEW, None));
    var s3 := Do(MARKETS, s2, EngineTurn);
    TakePlacedAfter(s3);
    var s4 := Do(MARKETS, s3, ApiPlace(TAKE, "b"));
    LastCommand(s4, PlaceCommand(TAKE_VIEW, None));
    var s5 := Do(MARKETS, s4, EngineTurn);
    Trace([s, s1, s2, s3, s4, s5], BUY);
  }

  lemma TakeSpends(s: Sys)
    requires s.stream == [] && s.books == map["M" := EMPTY_BOOK] && s.db == AT_MARKET && s.stranded == map[FUNDS := 1.0]
    requires s.pending == [OFFERED, DepthEvent(OFFER_BOOK), TAKEN, Traded(DEAL), DONE, DepthEvent(EMPTY_BOOK)]
    ensures AllAllowed(MARKETS, s, TURNS)
    ensures var e := Exec(MARKETS, s, TURNS);
            e.stream == [] && e.pending == [] && e.db == ALL_SPENT && AmountIn(e.stranded, FUNDS) == 1.0
  {
    QuietAtMarket(s.stranded);
    DealSpends();
    QuietAtMarket(map[FUNDS := 1.0, GOODS := 0.0]);
    hide Exec, AllAllowed, Handled, StrandedAfter, DepthEvent, UserOrders;
    SixTurns(s, ALL_SPENT, map[FUNDS := 1.0, GOODS := 0.0], OFFERED, OFFER_BOOK, TAKEN, Traded(DEAL), DONE, EMPTY_BOOK);
  }

  /**
   * One unit is stranded by a rejection. Then its owner buys one at market, naming price 1, and pays 2: the settlement takes
   * the stranded unit along. Nothing is locked any more, and what was stranded is gone.
   */
  lemma MarketBuySpendsStranded()
    ensures var s0 := Start(map[FUNDS := Balance(10.0, 0.0)]);
            var s, e := Exec(MARKETS, s0, KILL), Exec(MARKETS, s0, KILL + BUY + TURNS);
            && Initial(s0) && AllAllowed(MARKETS, s0, KILL + BUY + TURNS)
            && LockedOf(s.db.balances, FUNDS) == AmountIn(s.stranded, FUNDS) == 1.0
            && LockedOf(e.db.balances, FUNDS) == 0.0 && AmountIn(e.stranded, FUNDS) == 1.0
            && e.stream == [] && e.pending == []
  {
    RejectionStrands();
    hide Exec, AllAllowed, Initial, Start, KILL, BUY, TURNS;
    var s0 := Start(map[FUNDS := Balance(10.0, 0.0)]);
    var s := Exec(MARKETS, s0, KILL);
    TakePublished(s);
    TakeSpends(Exec(MARKETS, s, BUY));
    ExecConcat(MARKETS, s0, KILL, BUY);
    ExecConcat(MARKETS, s0, KILL + BUY, TURNS);
  }
}
