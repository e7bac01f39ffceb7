/** When a rejected order's funds are released, over whole runs: it depends on when its owner asked to cancel it. */
module Rejections {
  import opened Orders
  import opened BookSpec
  import opened Exchange
  import opened Discipline
  import opened Ledgers
  import opened Coverage
  import opened Providers
  import opened System
  import opened SystemRuns

  /** Every rejection comes right after the acceptance of the same order, and none is for an invalid order. */
  ghost predicate Paired(es: seq<EventView>) {
    forall i | 0 <= i < |es| && es[i].TurnedDown? ::
      i > 0 && es[i - 1].Accepted? && es[i - 1].orderId == es[i].orderId && es[i].reason != "invalid_order"
  }

  ghost predicate StreamWellFormed(cs: seq<Command>) {
    forall i | 0 <= i < |cs| && cs[i].PlaceCommand? :: WellFormedOrder(cs[i].order)
  }

  ghost predicate PairInv(s: Sys) {
    Paired(s.log + s.pending) && StreamWellFormed(s.stream)
  }

  lemma PairedConcat(p: seq<EventView>, q: seq<EventView>)
    requires Paired(p) && Paired(q)
    ensures Paired(p + q)
  {
    var all := p + q;
    forall i | 0 <= i < |all| && all[i].TurnedDown?
      ensures i > 0 && all[i - 1].Accepted? && all[i - 1].orderId == all[i].orderId && all[i].reason != "invalid_order"
    {
      if i >= |p| {
        assert all[i] == q[i - |p|];
        assert all[i - 1] == q[i - |p| - 1];
      }
    }
  }

  lemma {:induction false} OnlyTrades(ts: seq<TradeView>, k: nat)
    requires k < |TradeEvents(ts)|
    ensures TradeEvents(ts)[k].Traded?
    decreases |ts|
  {
    if k > 0 {
      OnlyTrades(ts[1..], k - 1);
    }
  }

  /** A rejected placement has no trades, so its two events are neighbours. */
  lemma PlacementPaired(books: Books, o: OrderView, mark: Option<real>)
    requires WellFormedOrder(o)
    ensures Paired(PlaceStep(books, o, mark).events)
  {
    var b := BookOf(books, o.terms.market);
    var p := WithMark(o, Place(b, o), mark);
    var evs, ts, final := PlaceStep(books, o, mark).events, TradeEvents(p.trades), FinalEvents(o, p);
    assert p.status.Rejected? ==> p.trades == [];
    hide Place, WithMark, TradeEvents;
    assert evs == [AcceptedEvent(o, p)] + ts + final + [DepthEvent(p.book)];
    assert p.status.Rejected? ==> ts == [] by {
      NoTradesNoEvents(p.trades);
    }
    hide DepthEvent;
    forall i | 0 <= i < |evs| && evs[i].TurnedDown?
      ensures i == 1 && evs[0].Accepted? && evs[0].orderId == evs[1].orderId && evs[1].reason != "invalid_order"
    {
      if 1 <= i <= |ts| {
        assert evs[i] == ts[i - 1];
        OnlyTrades(p.trades, i - 1);
      }
    }
  }

  lemma NoTradesNoEvents(ts: seq<TradeView>)
    ensures ts == [] ==> TradeEvents(ts) == []
  {
  }

  lemma StepPaired(books: Books, c: Command)
    requires c.PlaceCommand? ==> WellFormedOrder(c.order)
    ensures Paired(Step(books, c).events)
  {
    hide PlaceStep;
    if c.PlaceCommand? {
      PlacementPaired(books, c.order, c.mark);
    }
  }

  lemma ActionPaired(markets: Markets, s: Sys, a: Action)
    requires PairInv(s) && Allowed(s, a)
    ensures PairInv(Do(markets, s, a))
  {
    hide Handled, StrandedAfter, WithdrawnFrom, Credited, Step;
    match a
    case ApiPlace(i, id) =>
      var r := Placement(markets, s.db, i, id);
      if r.Created? {
        SentWellFormed(markets, s.db, i, id);
      }
    case EngineTurn =>
      if s.stream != [] {
        var evs := Step(s.books, s.stream[0]).events;
        StepPaired(s.books, s.stream[0]);
        PairedConcat(s.log + s.pending, evs);
        assert s.log + (s.pending + evs) == (s.log + s.pending) + evs;
        assert forall i | 0 <= i < |s.stream[1..]| :: s.stream[1..][i] == s.stream[i + 1];
      }
    case WriterTurn =>
      if s.pending != [] {
        assert (s.log + [s.pending[0]]) + s.pending[1..] == s.log + s.pending;
      }
    case _ =>
  }

  lemma SentWellFormed(markets: Markets, db: Db, i: PlaceInput, id: string)
    requires Placement(markets, db, i, id).Created? && id != "" && i.userId != "" && i.market != ""
    ensures WellFormedOrder(OrderSent(id, i))
  {
    hide Ledgers.Reserved;
  }

  lemma {:induction false} RunPaired(markets: Markets, s: Sys, acts: seq<Action>)
    requires PairInv(s) && AllAllowed(markets, s, acts)
    ensures PairInv(Exec(markets, s, acts))
    decreases |acts|
  {
    hide PairInv, Do, Allowed;
    if acts != [] {
      ActionPaired(markets, s, acts[0]);
      RunPaired(markets, Do(markets, s, acts[0]), acts[1..]);
    }
  }

  /**
   * Over every run: what the API and the provider send is never turned down as invalid, and every rejection comes right
   * after the acceptance of the same order. The checks of a request leave the engine nothing to find.
   */
  lemma RejectedAfterAccepted(markets: Markets, s0: Sys, acts: seq<Action>)
    requires Initial(s0) && AllAllowed(markets, s0, acts)
    ensures var s := Exec(markets, s0, acts); Paired(s.log + s.pending)
  {
    hide Exec, AllAllowed, Paired;
    InitialPaired(s0);
    RunPaired(markets, s0, acts);
  }

  // ----- runs, action by action -----

  /** The action handles an event. */
  ghost predicate Handles(s: Sys, a: Action) {
    a.WriterTurn? && s.pending != []
  }

  lemma LogStep(markets: Markets, s: Sys, a: Action)
    ensures Do(markets, s, a).log == if Handles(s, a) then s.log + [s.pending[0]] else s.log
  {
    hide Step, Handled, StrandedAfter, Placement, WithdrawnFrom, Credited;
  }

  /** None of these actions handles an event. */
  ghost predicate Quiet(markets: Markets, s: Sys, acts: seq<Action>)
    decreases |acts|
  {
    acts == [] || (!Handles(s, acts[0]) && Quiet(markets, Do(markets, s, acts[0]), acts[1..]))
  }

  /** A run that has handled an event: up to the last such turn, and the quiet rest. */
  lemma {:induction false} LastTurn(markets: Markets, s: Sys, acts: seq<Action>) returns (k: nat)
    requires |Exec(markets, s, acts).log| > |s.log|
    ensures k < |acts|
    ensures var t := Exec(markets, s, acts[..k]);
            && Handles(t, acts[k])
            && Quiet(markets, Do(markets, t, acts[k]), acts[k + 1..])
            && Exec(markets, Do(markets, t, acts[k]), acts[k + 1..]) == Exec(markets, s, acts)
    decreases |acts|
  {
    hide Do;
    var first := Do(markets, s, acts[0]);
    if |Exec(markets, s, acts).log| > |first.log| {
      var j := LastTurn(markets, first, acts[1..]);
      k := j + 1;
      assert acts[..k] == [acts[0]] + acts[1..][..j] && acts[1..][j + 1..] == acts[k + 1..];
      assert acts[..k][1..] == acts[1..][..j];
    } else {
      LogStep(markets, s, acts[0]);
      QuietRun(markets, first, acts[1..]);
      k := 0;
      assert acts[..0] == [];
      assert Exec(markets, s, []) == s;
    }
  }

  lemma {:induction false} QuietRun(markets: Markets, s: Sys, acts: seq<Action>)
    ensures |Exec(markets, s, acts).log| >= |s.log|
    ensures Exec(markets, s, acts).log == s.log || |Exec(markets, s, acts).log| > |s.log|
    ensures |Exec(markets, s, acts).log| == |s.log| <==> Quiet(markets, s, acts)
    decreases |acts|
  {
    hide Do;
    if acts != [] {
      LogStep(markets, s, acts[0]);
      QuietRun(markets, Do(markets, s, acts[0]), acts[1..]);
    }
  }

  // ----- the status of an order while nothing is handled -----

  /** Requests and engine turns touch a row only by canceling it for its owner. */
  lemma StatusStep(markets: Markets, s: Sys, a: Action, id: string)
    requires id in s.db.orders && Allowed(s, a) && !Handles(s, a)
    requires s.db.orders[id].status.Open? || s.db.orders[id].status.Canceled?
    ensures var o, s' := s.db.orders[id], Do(markets, s, a);
            && id in s'.db.orders
            && s'.db.orders[id] == (if a == ApiCancel(id, o.userId) then o.(status := OrderStatus.Canceled) else o)
            && s'.stranded == s.stranded
  {
    hide Step, Placement, CancelRequested, WithdrawnFrom, Credited, Handled, StrandedAfter, RoundsAfter, WellFormedOrder, IsUuid, InfoOf;
    match a
    case ApiPlace(i, x) =>
      if Placement(markets, s.db, i, x).Created? {
        PlacementIs(markets, s.db, i, x);
      }
    case ApiCancel(x, u) => CancelMarks(s.db, x, u, id);
    case _ =>
  }

  /** A cancel request marks the row it names, if it is its owner's; marked or not before. */
  lemma CancelMarks(db: Db, x: string, userId: string, id: string)
    requires id in db.orders && (db.orders[id].status.Open? || db.orders[id].status.Canceled?)
    ensures var r, o := CancelRequested(db, x, userId), db.orders[id];
            var orders := if r.Ok? then r.value.orders else db.orders;
            id in orders && orders[id] == if x == id && userId == o.userId then o.(status := OrderStatus.Canceled) else o
  {
  }

  lemma {:induction false} StatusMeanwhile(markets: Markets, s: Sys, acts: seq<Action>, id: string)
    requires id in s.db.orders && AllAllowed(markets, s, acts) && Quiet(markets, s, acts)
    requires s.db.orders[id].status.Open? || s.db.orders[id].status.Canceled?
    ensures var o, s' := s.db.orders[id], Exec(markets, s, acts);
            && id in s'.db.orders && s'.stranded == s.stranded
            && s'.db.orders[id] == if ApiCancel(id, o.userId) in acts then o.(status := OrderStatus.Canceled) else o
    decreases |acts|
  {
    hide Do, Allowed;
    if acts != [] {
      StatusStep(markets, s, acts[0], id);
      StatusMeanwhile(markets, Do(markets, s, acts[0]), acts[1..], id);
      var o := s.db.orders[id];
      assert ApiCancel(id, o.userId) in acts <==> acts[0] == ApiCancel(id, o.userId) || ApiCancel(id, o.userId) in acts[1..];
    }
  }

  // ----- when a rejection strands -----

  /** What handling the acceptance of an order does to its row, whatever its status was. */
  lemma AcceptanceOpens(markets: Markets, s: Sys, id: string)
    requires s.pending != [] && s.pending[0].Accepted? && s.pending[0].orderId == id && id in s.db.orders
    ensures var s' := Do(markets, s, WriterTurn);
            id in s'.db.orders && s'.db.orders[id] == s.db.orders[id].(status := OrderStatus.Open) && s'.stranded == s.stranded
  {
  }

  /** The last handled event before a rejection is the acceptance of the same order. */
  lemma AcceptedBefore(s: Sys)
    requires PairInv(s) && s.pending != [] && s.pending[0].TurnedDown?
    ensures s.log != []
    ensures var last := s.log[|s.log| - 1]; last.Accepted? && last.orderId == s.pending[0].orderId
  {
    var all := s.log + s.pending;
    assert all[|s.log|] == s.pending[0];
    assert all[|s.log| - 1] == s.log[|s.log| - 1];
  }

  lemma DuePositive(markets: Markets, o: OrderRow)
    requires RowSane(markets, o) && o.filled == 0.0
    ensures Due(o) > 0.0
  {
    if o.side.Buy? {
      MarginPositive(o.price.value, Remaining(o), o.leverage);
    }
  }

  /** A rejected order of a user has a row, unfilled. */
  lemma RejectedRow(markets: Markets, s: Sys)
    requires Consistent(markets, s) && s.pending != [] && s.pending[0].TurnedDown? && s.pending[0].orderId !in s.quoted
    ensures var id := s.pending[0].orderId;
            id in Rows(s) && id in s.db.orders && RowSane(markets, s.db.orders[id]) && s.db.orders[id].filled == 0.0
  {
    WriterTurnEvents(Ordered(s), markets, s);
    hide EngineInv, Covered, QuotesOk, Idle;
    assert RowOk(markets, s.handled, s.pending[0].orderId, Rows(s)[s.pending[0].orderId]);
  }

  lemma RejectionIs(markets: Markets, s: Sys)
    requires s.pending != [] && s.pending[0].TurnedDown? && s.pending[0].orderId in Rows(s)
    requires s.db.orders[s.pending[0].orderId].market in markets
    ensures var o, after := s.db.orders[s.pending[0].orderId], Do(markets, s, WriterTurn);
            var a := ReserveAccount(markets, o);
            && AmountIn(after.stranded, a) == AmountIn(s.stranded, a) + (if o.status.Canceled? then Due(o) else 0.0)
            && (o.status.Canceled? ==> after.db.balances == s.db.balances)
            && (o.status.Open? ==> after.db.balances == MarginUnlocked(markets, s.db.balances, o))
  {
    hide Due, ReserveAccount, MarginUnlocked;
  }

  /** What such a turn takes from the order's account: nothing, or what the order reserves if that much is locked. */
  lemma RejectionTakes(markets: Markets, s: Sys)
    requires Reachable(markets, s) && s.pending != [] && s.pending[0].TurnedDown? && s.pending[0].orderId in Rows(s)
    requires s.db.orders[s.pending[0].orderId].market in markets
    requires s.db.orders[s.pending[0].orderId].status.Open? || s.db.orders[s.pending[0].orderId].status.Canceled?
    ensures var o := s.db.orders[s.pending[0].orderId];
            var a, asked := ReserveAccount(markets, o), if o.status.Canceled? then 0.0 else ReserveAmount(o);
            var taken := LockedOf(s.db.balances, a) - LockedOf(Do(markets, s, WriterTurn).db.balances, a);
            && taken == Lesser(LockedOf(s.db.balances, a), asked)
            && (Priced(markets, s, a) ==> asked - SlackIn(markets, s, a) <= taken)
  {
    hide Reachable, ReserveAccount, ReserveAmount, LockedOf, Priced, SlackIn, Do;
    var o := s.db.orders[s.pending[0].orderId];
    EventAsks(markets, s, ReserveAccount(markets, o));
  }

  /**
   * Over every run: when the rejection of an order is handled, the turn that handled its acceptance is turn `k`, nothing
   * was handled since, and what the order reserves, a positive amount, is stranded if and only if its owner canceled it in
   * between: nothing is released. Otherwise the turn releases the whole margin it computes, as far as it is locked, which it
   * is up to slack where no market buy reserves. A cancel before the acceptance was handled makes no difference: the
   * acceptance opens the row.
   */
  lemma RejectionStrandsIff(markets: Markets, s0: Sys, acts: seq<Action>, id: string) returns (k: nat)
    requires Initial(s0) && AllAllowed(markets, s0, acts)
    requires var s := Exec(markets, s0, acts);
             s.pending != [] && s.pending[0].TurnedDown? && s.pending[0].orderId == id && id !in s.quoted
    ensures k < |acts| && acts[k].WriterTurn?
    ensures var t := Exec(markets, s0, acts[..k]);
            && t.pending != [] && t.pending[0].Accepted? && t.pending[0].orderId == id
            && Quiet(markets, Do(markets, t, WriterTurn), acts[k + 1..])
    ensures var s := Exec(markets, s0, acts);
            && id in s.db.orders && s.db.orders[id].market in markets && Due(s.db.orders[id]) > 0.0
            && var o, after := s.db.orders[id], Do(markets, s, WriterTurn);
               var canceled := ApiCancel(id, o.userId) in acts[k + 1..];
               && AmountIn(after.stranded, ReserveAccount(markets, o))
                  == AmountIn(s.stranded, ReserveAccount(markets, o)) + (if canceled then Due(o) else 0.0)
               && after.db.balances == (if canceled then s.db.balances else MarginUnlocked(markets, s.db.balances, o))
               && var a := ReserveAccount(markets, o);
                  var released := LockedOf(s.db.balances, a) - LockedOf(after.db.balances, a);
                  && released == (if canceled then 0.0 else Lesser(LockedOf(s.db.balances, a), ReserveAmount(o)))
                  && (!canceled && Priced(markets, s, a) ==> ReserveAmount(o) - SlackIn(markets, s, a) <= released)
  {
    hide *;
    var s := Exec(markets, s0, acts);
    InitialReachable(markets, s0);
    EveryRunReachable(markets, s0, acts);
    InitialPaired(s0);
    RunPaired(markets, s0, acts);
    ReachableConsistent(markets, s);
    RejectedRow(markets, s);
    DuePositive(markets, s.db.orders[id]);
    SaneMarket(markets, s.db.orders[id]);
    AcceptedBefore(s);
    InitialLog(s0);
    k := LastTurn(markets, s0, acts);
    var t, rest := Exec(markets, s0, acts[..k]), acts[k + 1..];
    HandlesMeans(t, acts[k]);
    var reopened := Do(markets, t, WriterTurn);
    LogStep(markets, t, WriterTurn);
    QuietRun(markets, reopened, rest);
    assert s.log == t.log + [t.pending[0]];
    assert t.pending[0] == s.log[|s.log| - 1];
    assert acts == acts[..k] + ([acts[k]] + rest);
    ExecConcat(markets, s0, acts[..k], [acts[k]] + rest);
    ExecConcat(markets, t, [acts[k]], rest);
    ExecOne(markets, t, acts[k]);
    EveryRunReachable(markets, s0, acts[..k]);
    ReachableConsistent(markets, t);
    QuotedStays(markets, t, [acts[k]] + rest);
    AcceptedRow(markets, t);
    AcceptanceOpens(markets, t, id);
    StatusMeanwhile(markets, reopened, rest, id);
    RejectionIs(markets, s);
    RejectionTakes(markets, s);
    NothingTaken(LockedOf(s.db.balances, ReserveAccount(markets, s.db.orders[id])));
    ReachableCovered(markets, s, ReserveAccount(markets, s.db.orders[id]));
  }

  lemma NothingTaken(x: real)
    ensures x >= 0.0 ==> Lesser(x, 0.0) == 0.0
  {
  }

  /**
   * And it stays stranded: whatever run `more` follows, the whole reservation is still locked on top of what open orders
   * reserve, up to slack, as long as no market buy has reserved in the account.
   */
  lemma RejectionStays(markets: Markets, s0: Sys, acts: seq<Action>, more: seq<Action>, id: string) returns (k: nat)
    requires Initial(s0) && AllAllowed(markets, s0, acts + [WriterTurn] + more)
    requires var s := Exec(markets, s0, acts);
             s.pending != [] && s.pending[0].TurnedDown? && s.pending[0].orderId == id && id !in s.quoted
    ensures var s := Exec(markets, s0, acts);
            && k < |acts| && acts[k].WriterTurn? && id in s.db.orders && s.db.orders[id].market in markets
            && Quiet(markets, Exec(markets, s0, acts[..k + 1]), acts[k + 1..])
            && Due(s.db.orders[id]) > 0.0
            && (ApiCancel(id, s.db.orders[id].userId) in acts[k + 1..] ==>
                  var a, e := ReserveAccount(markets, s.db.orders[id]), Exec(markets, s0, acts + [WriterTurn] + more);
                  && AmountIn(e.stranded, a) >= Due(s.db.orders[id])
                  && (Priced(markets, e, a) ==>
                        LockedOf(e.db.balances, a)
                        >= ReservedTotal(markets, e.handled, Rows(e), a) + Due(s.db.orders[id]) - SlackIn(markets, e, a)))
  {
    hide *;
    var s := Exec(markets, s0, acts);
    ExecConcat(markets, s0, acts + [WriterTurn], more);
    ExecConcat(markets, s0, acts, [WriterTurn]);
    ExecOne(markets, s, WriterTurn);
    k := RejectionStrandsIff(markets, s0, acts, id);
    var a := ReserveAccount(markets, s.db.orders[id]);
    InitialReachable(markets, s0);
    EveryRunReachable(markets, s0, acts);
    ReachableCovered(markets, s, a);
    StrandedNonneg(s.stranded, a);
    StrandedStays(markets, s0, acts + [WriterTurn], more, a);
    assert acts[..k + 1] == acts[..k] + [acts[k]];
    ExecConcat(markets, s0, acts[..k], [acts[k]]);
    ExecOne(markets, Exec(markets, s0, acts[..k]), acts[k]);
  }

  lemma {:induction false} QuotedStays(markets: Markets, s: Sys, acts: seq<Action>)
    ensures s.quoted.Keys <= Exec(markets, s, acts).quoted.Keys
    decreases |acts|
  {
    if acts != [] {
      QuotedGrows(markets, s, acts[0]);
      hide Do;
      QuotedStays(markets, Do(markets, s, acts[0]), acts[1..]);
    }
  }

  lemma QuotedGrows(markets: Markets, s: Sys, a: Action)
    ensures s.quoted.Keys <= Do(markets, s, a).quoted.Keys
  {
    hide Step, Handled, StrandedAfter, Placement, WithdrawnFrom, Credited;
  }

  lemma InitialPaired(s: Sys)
    requires Initial(s)
    ensures PairInv(s)
  {
  }

  lemma InitialLog(s: Sys)
    requires Initial(s)
    ensures s.log == []
  {
  }

  lemma ReachableConsistent(markets: Markets, s: Sys)
    requires Reachable(markets, s)
    ensures Consistent(markets, s)
  {
  }

  lemma SaneMarket(markets: Markets, o: OrderRow)
    requires RowSane(markets, o)
    ensures o.market in markets
  {
  }

  lemma HandlesMeans(s: Sys, a: Action)
    requires Handles(s, a)
    ensures a == WriterTurn && s.pending != []
  {
  }

  /** An order whose acceptance is next has a row. */
  lemma AcceptedRow(markets: Markets, s: Sys)
    requires Consistent(markets, s) && s.pending != [] && s.pending[0].Accepted? && s.pending[0].orderId !in s.quoted
    ensures s.pending[0].orderId in s.db.orders
  {
    WriterTurnEvents(Ordered(s), markets, s);
    hide EngineInv, Covered, RowsOk, QuotesOk;
  }
}
