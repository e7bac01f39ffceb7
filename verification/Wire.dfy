/** The engine's published text as the database writer reads it: the writer's handlers see the numbers the engine meant. */
module Wire {
  import opened Digits
  import opened Decimals
  import opened DecimalText
  import opened Orders
  import opened OrderBooks
  import opened Exchange
  import opened Discipline
  import opened Bigs
  import opened Engines
  import opened Ledgers
  import opened Coverage
  import opened Providers
  import opened System
  import opened SystemRuns
  import Servers

  ghost function NumberOf(s: string): real
    requires Readable(s)
  {
    BVal(FromText(s))
  }

  ghost predicate TradeComplete(e: Event)
    requires e.TradeExecuted?
  {
    && e.market != "" && e.makerOrderId != "" && e.takerOrderId != "" && e.makerUserId != "" && e.takerUserId != ""
    && e.price != "" && e.quantity != "" && e.side != ""
    && Readable(e.price) && Readable(e.quantity)
  }

  /** One message off the channel: incomplete or unreadable ones change nothing. */
  ghost function MessageHandled(markets: Markets, db: Db, e: Event): Db {
    match e
    case OrderAccepted(id, _, _, _, _, _, _, _, _) =>
      if id == "" then db else db.(orders := StatusSet(db.orders, id, OrderStatus.Open))
    case TradeExecuted(market, maker, taker, makerUser, takerUser, side, price, quantity, timestamp) =>
      if !TradeComplete(e) then db
      else
        TradeHandled(markets, db,
          TradeView(market, maker, taker, makerUser, takerUser, if side == "buy" then Buy else Sell,
                    NumberOf(price), NumberOf(quantity), timestamp))
    case OrderFilled(id, _, _, _, _) =>
      if id == "" then db else db.(orders := StatusSet(db.orders, id, OrderStatus.Filled))
    case OrderRejected(id, _, _) => if id == "" then db else RejectedHandled(markets, db, id)
    case OrderCanceled(id, _, _, _, _) => if id == "" then db else CanceledHandled(markets, db, id)
    case OrderBookUpdated(_, _, _) => db
  }

  lemma PrintedIsRead(s: string, v: real)
    requires Prints(s, v)
    ensures s != "" && Readable(s) && NumberOf(s) == v
  {
    hide Parse, Val, ToString, BVal, FromText, Readable, Body;
    var d := Parse(s);
    EventNumbersAgree(d);
    ToStringBody(d);
    var i, f := BodyDenotes(Magnitude(d.unscaled), d.scale);
  }

  /** Every order has an id, an owner and a market. */
  ghost predicate Named(s: Sys) {
    forall id | id in Ordered(s) :: id != "" && Ordered(s)[id].userId != "" && Ordered(s)[id].market != ""
  }

  /** Both orders of the trade, their users and the market have names. */
  ghost predicate NamedEvent(v: EventView) {
    v.Traded? ==> v.trade.market != "" && v.trade.makerOrderId != "" && v.trade.takerOrderId != ""
                  && v.trade.makerUserId != "" && v.trade.takerUserId != ""
  }

  /** Reading the published text of an event has the effect of the event. */
  lemma TextHandled(markets: Markets, db: Db, e: Event, v: EventView)
    requires Publishes(e, v) && NamedEvent(v) && "" !in db.orders
    ensures MessageHandled(markets, db, e) == Handled(markets, db, v)
  {
    hide TradeHandled, RejectedHandled, CanceledHandled, Prints, PrintsOption, PrintsRows, Readable, NumberOf, StatusStr;
    match v
    case Traded(t) =>
      PrintedIsRead(e.price, t.price);
      PrintedIsRead(e.quantity, t.quantity);
    case TurnedDown(id, _, _) => NoRow(markets, db);
    case Withdrawn(id, _, _, _, _) => NoRow(markets, db);
    case _ =>
  }

  lemma NoRow(markets: Markets, db: Db)
    requires "" !in db.orders
    ensures RejectedHandled(markets, db, "") == db && CanceledHandled(markets, db, "") == db
  {
  }

  lemma NamedStep(markets: Markets, s: Sys, a: Action)
    requires Consistent(markets, s) && Allowed(s, a) && Named(s)
    ensures Named(Do(markets, s, a))
  {
    if IsRequest(a) {
      hide Consistent;
      RequestInfos(markets, s, a);
      if Adds(a) {
        NewNamed(markets, s, a);
      }
      hide Do, Allowed, Ordered, IsRequest, Adds, NewId;
    } else if a.WriterTurn? && s.pending != [] {
      WriterTurnKeeps(markets, s);
      hide Do, Consistent, Ordered;
    } else {
      assert Ordered(Do(markets, s, a)) == Ordered(s) by {
        hide Consistent, Step, OrderedIn;
      }
      hide Do, Consistent, Ordered;
    }
  }

  lemma NewNamed(markets: Markets, s: Sys, a: Action)
    requires Adds(a) && Allowed(s, a)
    ensures var s' := Do(markets, s, a); var id := NewId(a);
            id in Ordered(s') && id !in Ordered(s) ==>
              id != "" && Ordered(s')[id].userId != "" && Ordered(s')[id].market != ""
  {
    hide Ledgers.Reserved, IsUuid;
  }

  lemma {:induction false} RunNamed(markets: Markets, s: Sys, acts: seq<Action>)
    requires Reachable(markets, s) && AllAllowed(markets, s, acts) && Named(s)
    ensures Named(Exec(markets, s, acts))
    decreases |acts|
  {
    hide Do, Allowed, Consistent, NoneLost, LogOk, Named;
    if acts != [] {
      ActionReachable(markets, s, acts[0]);
      NamedStep(markets, s, acts[0]);
      RunNamed(markets, Do(markets, s, acts[0]), acts[1..]);
    }
  }

  // ----- over whole runs -----

  ghost function MessagesHandled(markets: Markets, db: Db, es: seq<Event>): Db
    decreases |es|
  {
    if es == [] then db else MessagesHandled(markets, MessageHandled(markets, db, es[0]), es[1..])
  }

  ghost function WriterTurns(n: nat): seq<Action> {
    if n == 0 then [] else [WriterTurn] + WriterTurns(n - 1)
  }

  /** An event about named rows is complete on the wire. */
  lemma FitsNamed(markets: Markets, s: Sys)
    requires Consistent(markets, s) && Named(s) && s.pending != []
    ensures NamedEvent(s.pending[0]) && "" !in s.db.orders
  {
    WriterTurnEvents(Ordered(s), markets, s);
    hide EngineInv, Covered, RowsOk, Idle, IsUuid;
    assert "" !in Ordered(s);
    assert "" in s.db.orders ==> "" in Ordered(s);
    hide QuotesOk, Ordered;
  }

  /**
   * Text that publishes the pending events, read message by message, leaves the database where the writer's turns on the
   * events themselves leave it.
   */
  lemma {:induction false} ChannelHandled(markets: Markets, s: Sys, es: seq<Event>)
    requires Reachable(markets, s) && Named(s) && PublishesAll(es, s.pending)
    ensures AllAllowed(markets, s, WriterTurns(|es|))
    ensures var after := Exec(markets, s, WriterTurns(|es|));
            && after.db == MessagesHandled(markets, s.db, es) == Servers.HandledAll(markets, s.db, s.pending)
            && after.pending == [] && after.log == s.log + s.pending
    decreases |es|
  {
    hide Publishes, Handled, MessageHandled, Consistent, NoneLost, LogOk, Named, StrandedAfter;
    if es != [] {
      assert Publishes(es[0], s.pending[0]);
      FitsNamed(markets, s);
      TextHandled(markets, s.db, es[0], s.pending[0]);
      ActionReachable(markets, s, WriterTurn);
      NamedStep(markets, s, WriterTurn);
      var next := Do(markets, s, WriterTurn);
      ChannelHandled(markets, next, es[1..]);
      assert WriterTurns(|es|)[1..] == WriterTurns(|es| - 1);
      assert s.log + [s.pending[0]] + s.pending[1..] == s.log + s.pending;
    }
  }

  /**
   * Over every run: whatever text publishes the events under way, handling that text message by message is what the
   * server's handlers do on the events themselves, and what the writer's turns do. The ledger's numbers are the engine's.
   */
  lemma PublishedTextSettles(markets: Markets, s0: Sys, acts: seq<Action>, es: seq<Event>)
    requires Initial(s0) && AllAllowed(markets, s0, acts) && PublishesAll(es, Exec(markets, s0, acts).pending)
    ensures var s := Exec(markets, s0, acts);
            && AllAllowed(markets, s0, acts + WriterTurns(|es|))
            && var after := Exec(markets, s0, acts + WriterTurns(|es|));
               after.db == MessagesHandled(markets, s.db, es) == Servers.HandledAll(markets, s.db, s.pending) && after.pending == []
  {
    hide AllAllowed, Exec, Reachable, PublishesAll, Initial;
    InitialReachable(markets, s0);
    InitialNamed(s0);
    EveryRunReachable(markets, s0, acts);
    RunNamed(markets, s0, acts);
    ChannelHandled(markets, Exec(markets, s0, acts), es);
    ExecConcat(markets, s0, acts, WriterTurns(|es|));
  }

  lemma InitialNamed(s: Sys)
    requires Initial(s)
    ensures Named(s)
  {
  }
}
