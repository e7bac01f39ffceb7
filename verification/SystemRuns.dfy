/** What holds over every interleaving of requests, engine turns and writer turns, from empty books on. */
module SystemRuns {
  import opened Orders
  import opened BookSpec
  import Greedy
  import opened Exchange
  import opened Discipline
  import opened Sums
  import opened Ledgers
  import opened Coverage
  import opened Providers
  import opened Margins
  import opened System
  import Runs

  ghost function Exec(markets: Markets, s: Sys, acts: seq<Action>): Sys
    decreases |acts|
  {
    if acts == [] then s else Exec(markets, Do(markets, s, acts[0]), acts[1..])
  }

  ghost predicate AllAllowed(markets: Markets, s: Sys, acts: seq<Action>)
    decreases |acts|
  {
    acts == [] || (Allowed(s, acts[0]) && AllAllowed(markets, Do(markets, s, acts[0]), acts[1..]))
  }

  lemma {:induction false} ExecConcat(markets: Markets, s: Sys, p: seq<Action>, q: seq<Action>)
    ensures Exec(markets, s, p + q) == Exec(markets, Exec(markets, s, p), q)
    ensures AllAllowed(markets, s, p + q) <==> AllAllowed(markets, s, p) && AllAllowed(markets, Exec(markets, s, p), q)
    decreases |p|
  {
    hide Do, Allowed;
    if p == [] {
      assert p + q == q;
    } else {
      assert (p + q)[1..] == p[1..] + q;
      ExecConcat(markets, Do(markets, s, p[0]), p[1..], q);
    }
  }

  lemma ExecOne(markets: Markets, s: Sys, a: Action)
    ensures Exec(markets, s, [a]) == Do(markets, s, a)
    ensures AllAllowed(markets, s, [a]) <==> Allowed(s, a)
  {
    hide Do, Allowed;
    assert [a][1..] == [];
    assert Exec(markets, Do(markets, s, a), []) == Do(markets, s, a);
  }

  /** Nothing ordered, nothing locked, nothing under way. */
  ghost predicate Initial(s: Sys) {
    && s.db.orders == map[] && (forall a | a in s.db.balances :: s.db.balances[a].locked == 0.0)
    && s.stream == [] && s.books == map[] && s.pending == [] && s.quoted == map[]
    && s.log == [] && s.handled == NO_EVENTS && s.stranded == map[] && s.rounded == map[]
  }

  ghost predicate Waiting(stream: seq<Command>, id: string) {
    exists i | 0 <= i < |stream| :: stream[i].PlaceCommand? && stream[i].order.id == id
  }

  /** No order gets lost: it waits in the stream, or the engine has settled it. */
  ghost predicate NoneLost(s: Sys) {
    forall id | id in Ordered(s) :: Waiting(s.stream, id) || Runs.Settled(Ordered(s), Published(s), s.books, id)
  }

  /** The handled events fit one another, and `handled` is what they say. */
  ghost predicate LogOk(s: Sys) {
    AllOk(Ordered(s), NO_EVENTS, s.log) && s.handled == ApplyAll(NO_EVENTS, s.log)
  }

  ghost predicate Reachable(markets: Markets, s: Sys) {
    Consistent(markets, s) && NoneLost(s) && LogOk(s)
  }

  lemma InitialReachable(markets: Markets, s: Sys)
    requires Initial(s)
    ensures Reachable(markets, s)
  {
    var users := UserDb(s.db);
    assert users.orders == map[] && Ordered(s) == map[] && users.orders.Keys == {};
    hide EngineInv;
    forall a
      ensures AccountCovered(markets, s.handled, users, s.stranded, s.rounded, a)
    {
      assert ReservedTotal(markets, s.handled, users.orders, a) == 0.0 == Slack(markets, users.orders, a);
    }
    EmptyEngine(s);
  }

  lemma EmptyEngine(s: Sys)
    requires Initial(s)
    ensures EngineInv(map[], s)
  {
  }

  lemma SettledMore(infos: Infos, more: Infos, t: Track, books: Books, id: string)
    requires Runs.Settled(infos, t, books, id) && id in more && more[id] == infos[id]
    ensures Runs.Settled(more, t, books, id)
  {
  }

  ghost predicate IsRequest(a: Action) {
    !a.EngineTurn? && !a.WriterTurn?
  }

  /** The id of the order that an action adds. */
  ghost function NewId(a: Action): string {
    if a.ApiPlace? then a.id else if a.Inject? then a.order.id else ""
  }

  ghost predicate Adds(a: Action) {
    a.ApiPlace? || a.Inject?
  }

  /** A request adds at most one order, and a waiting command for it; it forgets none. */
  lemma RequestInfos(markets: Markets, s: Sys, a: Action)
    requires IsRequest(a) && Allowed(s, a)
    ensures var s' := Do(markets, s, a);
            && s'.log == s.log && s'.handled == s.handled && s'.pending == s.pending && s'.books == s.books && s.stream <= s'.stream
            && (forall id | id in Ordered(s) :: id in Ordered(s') && Ordered(s')[id] == Ordered(s)[id])
            && (forall id | id in Ordered(s') && id !in Ordered(s) ::
                  Adds(a) && id == NewId(a) && s'.stream != [] && s'.stream[|s'.stream| - 1].PlaceCommand?
                  && s'.stream[|s'.stream| - 1].order.id == id)
  {
    hide Do, Placement, InfoOfRow, RowOf, InfoOf, Ordered, Allowed;
    RequestOrders(markets, s, a);
    RequestStream(markets, s, a);
    if Adds(a) {
      NewIdNew(s, a);
      NoUserYet(s, NewId(a));
    }
  }

  lemma NewIdNew(s: Sys, a: Action)
    requires Adds(a) && Allowed(s, a)
    ensures NewId(a) !in s.db.orders && NewId(a) !in s.quoted
  {
    hide IsUuid, WellFormedOrder;
  }

  lemma RequestStream(markets: Markets, s: Sys, a: Action)
    requires IsRequest(a)
    ensures var s' := Do(markets, s, a);
            && s'.log == s.log && s'.handled == s.handled && s'.pending == s.pending && s'.books == s.books && s.stream <= s'.stream
            && (a.Inject? || (a.ApiPlace? && Placement(markets, s.db, a.input, a.id).Created?) ==>
                  s'.stream != [] && s'.stream[|s'.stream| - 1].PlaceCommand? && s'.stream[|s'.stream| - 1].order.id == NewId(a))
  {
    hide Placement, WithdrawnFrom, Credited, Step, Handled, StrandedAfter, RoundsAfter;
  }

  lemma NoUserYet(s: Sys, id: string)
    requires id !in s.db.orders && id !in s.quoted
    ensures id !in Ordered(s)
  {
  }

  /** What was ordered, after a request. */
  lemma RequestOrders(markets: Markets, s: Sys, a: Action)
    requires IsRequest(a) && Allowed(s, a)
    ensures var s' := Do(markets, s, a);
            Ordered(s') == match a
                           case ApiPlace(i, id) =>
                             if Placement(markets, s.db, i, id).Created? then Ordered(s)[id := InfoOfRow(RowOf(i))] else Ordered(s)
                           case Inject(o) => Ordered(s)[o.id := InfoOf(o)]
                           case _ => Ordered(s)
  {
    hide Ledgers.Reserved, InfoOfRow, WithdrawnFrom, Credited, WellFormedOrder, IsUuid, UserOrders, Invalid, InfoOf, Step, Handled,
         StrandedAfter, RoundsAfter, OrderSent;
    match a
    case ApiPlace(i, id) =>
      if Placement(markets, s.db, i, id).Created? {
        PlacementIs(markets, s.db, i, id);
        UserRowAdded(s.db.orders, id, RowOf(i));
        OneMoreRow(s.db, Do(markets, s, a).db, s.quoted, id, RowOf(i));
      }
    case ApiCancel(id, userId) =>
      StatusUsers(s.db.orders, id, OrderStatus.Canceled);
      if CancelRequested(s.db, id, userId).Ok? {
        hide StatusSet;
        StatusKeepsInfos(UserDb(s.db), s.db.balances, id, OrderStatus.Canceled);
        OrderedSame(s.db, Do(markets, s, a).db, s.quoted);
      }
    case Inject(o) => assert InfosOfDb(UserDb(s.db)) + s.quoted[o.id := InfoOf(o)] == Ordered(s)[o.id := InfoOf(o)];
    case _ =>
  }

  lemma UserRowAdded(orders: map<string, OrderRow>, id: string, row: OrderRow)
    requires row.userId != EXTERNAL_USER_ID
    ensures UserOrders(orders[id := row]) == UserOrders(orders)[id := row]
  {
  }

  lemma RequestLosesNone(markets: Markets, s: Sys, a: Action)
    requires NoneLost(s) && IsRequest(a) && Allowed(s, a)
    ensures NoneLost(Do(markets, s, a))
  {
    var s' := Do(markets, s, a);
    RequestInfos(markets, s, a);
    hide Do, Allowed, Ordered, ApplyAll, Runs.Settled;
    forall id | id in Ordered(s')
      ensures Waiting(s'.stream, id) || Runs.Settled(Ordered(s'), Published(s'), s'.books, id)
    {
      if id in Ordered(s) {
        if Waiting(s.stream, id) {
          var i :| 0 <= i < |s.stream| && s.stream[i].PlaceCommand? && s.stream[i].order.id == id;
          assert s'.stream[i] == s.stream[i];
        } else {
          SettledMore(Ordered(s), Ordered(s'), Published(s), s.books, id);
        }
      }
    }
  }

  lemma EngineLosesNone(markets: Markets, s: Sys)
    requires Consistent(markets, s) && NoneLost(s)
    ensures NoneLost(Do(markets, s, EngineTurn))
  {
    if s.stream != [] {
      var infos, u, c, s' := Ordered(s), Published(s), s.stream[0], Do(markets, s, EngineTurn);
      var e := Step(s.books, c);
      AllOkConcat(infos, s.handled, s.pending, e.events);
      EngineTurnIs(markets, s);
      assert Ordered(s') == infos;
      hide Step, Do, ApplyAll, DbInv, AllOk, BooksTracked, Runs.Settled, Ordered;
      forall id | id in infos
        ensures Waiting(s.stream[1..], id) || Runs.Settled(infos, ApplyAll(u, e.events), e.books, id)
      {
        WaitingTail(s.stream, id);
        if !Waiting(s.stream[1..], id) {
          Runs.StepSettles(infos, u, s.books, c, id);
        }
      }
    }
  }

  lemma WaitingTail(stream: seq<Command>, id: string)
    requires stream != []
    ensures Waiting(stream, id) ==> (stream[0].PlaceCommand? && stream[0].order.id == id) || Waiting(stream[1..], id)
  {
    if Waiting(stream, id) {
      var i :| 0 <= i < |stream| && stream[i].PlaceCommand? && stream[i].order.id == id;
      assert i > 0 ==> stream[1..][i - 1] == stream[i];
    }
  }

  lemma EngineTurnIs(markets: Markets, s: Sys)
    requires s.stream != []
    ensures var e := Step(s.books, s.stream[0]);
            Do(markets, s, EngineTurn) == s.(stream := s.stream[1..], books := e.books, pending := s.pending + e.events)
  {
  }

  lemma WriterLosesNone(markets: Markets, s: Sys)
    requires Consistent(markets, s) && NoneLost(s)
    ensures NoneLost(Do(markets, s, WriterTurn))
  {
    if s.pending != [] {
      var s' := Do(markets, s, WriterTurn);
      WriterTurnKeeps(markets, s);
      assert Published(s') == Published(s);
      hide Handled, StrandedAfter, ApplyAll, Consistent, Runs.Settled, Ordered;
    }
  }

  lemma LogStays(markets: Markets, s: Sys, a: Action)
    requires Consistent(markets, s) && LogOk(s) && Allowed(s, a)
    ensures LogOk(Do(markets, s, a))
  {
    var s' := Do(markets, s, a);
    if a.WriterTurn? {
      if s.pending != [] {
        WriterTurnEvents(Ordered(s), markets, s);
        WriterTurnKeeps(markets, s);
        OneEvent(Ordered(s), s.handled, s.pending[0]);
        AllOkConcat(Ordered(s), NO_EVENTS, s.log, [s.pending[0]]);
        hide Handled, StrandedAfter, Consistent, AllOk, ApplyAll, Ordered;
      }
    } else if a.EngineTurn? {
      hide Step, Consistent;
    } else {
      RequestInfos(markets, s, a);
      hide Do, Consistent, ApplyAll, AllOk, Ordered, Allowed;
      AllOkMoreInfos(Ordered(s), Ordered(s'), NO_EVENTS, s.log);
    }
  }

  lemma ActionReachable(markets: Markets, s: Sys, a: Action)
    requires Reachable(markets, s) && Allowed(s, a)
    ensures Reachable(markets, Do(markets, s, a))
  {
    hide Consistent, NoneLost, Do, LogOk;
    ActionKeepsInv(markets, s, a);
    LogStays(markets, s, a);
    match a
    case EngineTurn => EngineLosesNone(markets, s);
    case WriterTurn => WriterLosesNone(markets, s);
    case _ => RequestLosesNone(markets, s, a);
  }

  /** Every interleaving keeps the whole invariant. */
  lemma {:induction false} EveryRunReachable(markets: Markets, s: Sys, acts: seq<Action>)
    requires Reachable(markets, s) && AllAllowed(markets, s, acts)
    ensures Reachable(markets, Exec(markets, s, acts))
    decreases |acts|
  {
    hide Reachable, Do, Allowed;
    if acts != [] {
      ActionReachable(markets, s, acts[0]);
      EveryRunReachable(markets, Do(markets, s, acts[0]), acts[1..]);
    }
  }

  // ----- lock coverage -----

  /** What account `a` owes its user: the reservations of the open orders, and what is stranded in it. */
  ghost function OwedIn(markets: Markets, s: Sys, a: Account): real {
    ReservedTotal(markets, s.handled, Rows(s), a) + AmountIn(s.stranded, a)
  }

  ghost function SlackIn(markets: Markets, s: Sys, a: Account): real {
    Slack(markets, Rows(s), a)
  }

  /** No market buy reserves in this account. */
  ghost predicate Priced(markets: Markets, s: Sys, a: Account) {
    !Unbounded(markets, Rows(s), a)
  }

  lemma ReachableCovered(markets: Markets, s: Sys, a: Account)
    requires Reachable(markets, s)
    ensures AllSane(markets, Rows(s)) && Nonneg(s.stranded)
    ensures LockedOf(s.db.balances, a) >= 0.0 && SlackIn(markets, s, a) >= 0.0
    ensures OwedIn(markets, s, a) >= ReservedTotal(markets, s.handled, Rows(s), a) >= 0.0
    ensures Priced(markets, s, a) ==>
              && CloseTo(LockedOf(s.db.balances, a), OwedIn(markets, s, a), SlackIn(markets, s, a), RoundsIn(s.rounded, a))
              && OwedIn(markets, s, a) - SlackIn(markets, s, a) <= LockedOf(s.db.balances, a)
              && LockedOf(s.db.balances, a) <= OwedIn(markets, s, a) + DUST * RoundsIn(s.rounded, a) as real
              && (SlackIn(markets, s, a) == 0.0 ==> LockedOf(s.db.balances, a) == OwedIn(markets, s, a))
  {
    hide EngineInv, NoneLost, LogOk, LockedOf, Unbounded, Slack, ReservedTotal, CloseTo, DUST, QuotesOk, Idle, UserOrders;
    RowsSane(markets, s.handled, Rows(s));
    AllReservesNonneg(markets, s.handled, Rows(s), a);
    SlackNonneg(markets, Rows(s), a);
    assert AccountCovered(markets, s.handled, UserDb(s.db), s.stranded, s.rounded, a);
    if Priced(markets, s, a) {
      CloseToMeans(LockedOf(s.db.balances, a), OwedIn(markets, s, a), SlackIn(markets, s, a), RoundsIn(s.rounded, a));
    }
  }

  /**
   * Over every run, market buys and the provider's quotes and all: no locked balance is negative; and on every account
   * without market buys the locked balance is what its open orders reserve plus what is stranded in it, up to the
   * truncation of margins: short by at most one unit of the 18th decimal for each of its uneven buy orders, and exact if
   * there are none.
   */
  lemma LocksCoverOpenOrders(markets: Markets, s0: Sys, acts: seq<Action>, a: Account)
    requires Initial(s0) && AllAllowed(markets, s0, acts)
    ensures var s := Exec(markets, s0, acts);
            var locked, owed, slack := LockedOf(s.db.balances, a), OwedIn(markets, s, a), SlackIn(markets, s, a);
            && locked >= 0.0 && owed >= ReservedTotal(markets, s.handled, Rows(s), a) >= 0.0 && slack >= 0.0
            && (Priced(markets, s, a) ==>
                  && owed - slack <= locked <= owed + DUST * RoundsIn(s.rounded, a) as real
                  && (slack == 0.0 ==> locked == owed))
  {
    hide *;
    InitialReachable(markets, s0);
    EveryRunReachable(markets, s0, acts);
    ReachableCovered(markets, Exec(markets, s0, acts), a);
  }

  /** And so it covers, up to the same shortage, each open order. */
  lemma LocksCoverEachOrder(markets: Markets, s0: Sys, acts: seq<Action>, id: string)
    requires Initial(s0) && AllAllowed(markets, s0, acts)
    requires var s := Exec(markets, s0, acts); id in Rows(s) && id !in s.handled.closed
    ensures var s := Exec(markets, s0, acts);
            && Rows(s)[id].market in markets
            && var a := ReserveAccount(markets, Rows(s)[id]);
            && (Priced(markets, s, a) ==> 0.0 <= Due(Rows(s)[id]) <= LockedOf(s.db.balances, a) + SlackIn(markets, s, a))
  {
    hide *;
    InitialReachable(markets, s0);
    EveryRunReachable(markets, s0, acts);
    var s := Exec(markets, s0, acts);
    EachCovered(markets, s, id);
  }

  lemma EachCovered(markets: Markets, s: Sys, id: string)
    requires Reachable(markets, s) && id in Rows(s) && id !in s.handled.closed
    ensures Rows(s)[id].market in markets
    ensures var a := ReserveAccount(markets, Rows(s)[id]);
            Priced(markets, s, a) ==> 0.0 <= Due(Rows(s)[id]) <= LockedOf(s.db.balances, a) + SlackIn(markets, s, a)
  {
    hide Reachable, ReservedTotal, Slack, Unbounded, LockedOf, ReserveAccount, Due, CloseTo, UserOrders, DUST;
    ReachableCovered(markets, s, Account("", ""));
    SaneUser(markets, Rows(s), id);
    assert RowSane(markets, Rows(s)[id]);
    ReachableCovered(markets, s, ReserveAccount(markets, Rows(s)[id]));
    DueNonneg(markets, Rows(s)[id]);
    DueWithin(markets, s.handled, Rows(s), id);
  }

  /**
   * In every reachable state the next event takes from every account what it asks, or all that is locked. From an account
   * without market buys it takes what it asks, less at most the account's slack: where leverage divides evenly no debit and
   * no release is clamped.
   */
  lemma NextEventTakes(markets: Markets, s0: Sys, acts: seq<Action>, a: Account)
    requires Initial(s0) && AllAllowed(markets, s0, acts) && Exec(markets, s0, acts).pending != []
    ensures var s := Exec(markets, s0, acts);
            var taken := LockedOf(s.db.balances, a) - LockedOf(Do(markets, s, WriterTurn).db.balances, a);
            var asked, slack := AskedBy(markets, Rows(s), s.pending[0], a), SlackIn(markets, s, a);
            && asked >= 0.0 && taken == Lesser(LockedOf(s.db.balances, a), asked)
            && (Priced(markets, s, a) ==> asked - slack <= taken <= asked && (slack == 0.0 ==> taken == asked))
  {
    hide *;
    InitialReachable(markets, s0);
    EveryRunReachable(markets, s0, acts);
    EventAsks(markets, Exec(markets, s0, acts), a);
  }

  lemma WriterBalances(markets: Markets, s: Sys)
    requires s.pending != []
    ensures Do(markets, s, WriterTurn).db == Handled(markets, s.db, s.pending[0])
    ensures Do(markets, s, WriterTurn).stranded == StrandedAfter(markets, Rows(s), s.stranded, s.pending[0])
  {
    hide Handled, StrandedAfter, RoundsAfter;
  }

  lemma EventAsks(markets: Markets, s: Sys, a: Account)
    requires Reachable(markets, s) && s.pending != []
    ensures var taken := LockedOf(s.db.balances, a) - LockedOf(Do(markets, s, WriterTurn).db.balances, a);
            var asked, slack := AskedBy(markets, Rows(s), s.pending[0], a), SlackIn(markets, s, a);
            && asked >= 0.0 && taken == Lesser(LockedOf(s.db.balances, a), asked)
            && (Priced(markets, s, a) ==> asked - slack <= taken <= asked && (slack == 0.0 ==> taken == asked))
  {
    ReachableCovered(markets, s, a);
    hide EventOk, Covered, Unbounded, Slack, AskedBy, LockedOf, RowsOk, QuotesOk, Idle, UserOrders, Handled, ReservedTotal,
         OrderedIn, EngineInv, NoneLost, LogOk, Do, CloseTo, DUST;
    WriterTurnEvents(Ordered(s), markets, s);
    WriterBalances(markets, s);
    EventTakes(markets, s.handled, s.db, s.quoted, s.stranded, s.rounded, s.pending[0], a);
    if Priced(markets, s, a) {
      AskedByWithin(markets, s.handled, s.db, s.quoted, s.pending[0], a);
    }
  }

  // ----- what is stranded -----

  /** No request takes from a locked balance, and only events strand. */
  lemma RequestKeepsLocks(markets: Markets, s: Sys, a: Action, x: Account)
    requires Reachable(markets, s) && Allowed(s, a) && !a.WriterTurn?
    ensures LockedOf(Do(markets, s, a).db.balances, x) >= LockedOf(s.db.balances, x)
    ensures Do(markets, s, a).stranded == s.stranded
  {
    hide Reachable, Step, InfoOf, Invalid, RowOf;
    if a.ApiPlace? && Placement(markets, s.db, a.input, a.id).Created? {
      PlacementIs(markets, s.db, a.input, a.id);
      hide Placement;
      ReservationAdds(markets, s.db.balances, a.input, x);
    } else if a.Deposit? || a.Withdraw? {
      FundsOnly(markets, s, a);
    }
  }

  lemma ReservationAdds(markets: Markets, b: Balances, i: PlaceInput, x: Account)
    requires i.market in markets && Ledgers.Reserved(markets, b, i).Ok?
    ensures LockedOf(Ledgers.Reserved(markets, b, i).value, x) >= LockedOf(b, x)
  {
    hide MarginOf;
  }

  lemma StrandedStep(markets: Markets, s: Sys, a: Action, x: Account)
    requires Reachable(markets, s) && Allowed(s, a)
    ensures AmountIn(Do(markets, s, a).stranded, x) >= AmountIn(s.stranded, x)
  {
    if a.WriterTurn? {
      if s.pending != [] {
        hide Do, EngineInv, NoneLost, LogOk, Covered, Idle, RowsOk, QuotesOk, EventOk, StrandedAfter, AmountIn, OrderedIn, UserOrders;
        WriterTurnEvents(Ordered(s), markets, s);
        WriterBalances(markets, s);
        EventStrands(markets, s.handled, s.db, s.quoted, s.stranded, s.pending[0], x);
      }
    } else {
      hide Do, Reachable, Allowed;
      RequestKeepsLocks(markets, s, a, x);
    }
  }

  lemma {:induction false} StrandedNeverFalls(markets: Markets, s: Sys, acts: seq<Action>, x: Account)
    requires Reachable(markets, s) && AllAllowed(markets, s, acts)
    ensures AmountIn(Exec(markets, s, acts).stranded, x) >= AmountIn(s.stranded, x)
    decreases |acts|
  {
    hide Reachable, Do, Allowed, AmountIn;
    if acts != [] {
      ActionReachable(markets, s, acts[0]);
      StrandedStep(markets, s, acts[0], x);
      StrandedNeverFalls(markets, Do(markets, s, acts[0]), acts[1..], x);
    }
  }

  /**
   * What is stranded after `acts` is still locked after any further run `more`, on top of what open orders reserve and up
   * to truncation, as long as no market buy has reserved in the account: nothing that is requested or handled returns it.
   */
  lemma StrandedStays(markets: Markets, s0: Sys, acts: seq<Action>, more: seq<Action>, a: Account)
    requires Initial(s0) && AllAllowed(markets, s0, acts + more)
    ensures var s, e := Exec(markets, s0, acts), Exec(markets, s0, acts + more);
            && AmountIn(e.stranded, a) >= AmountIn(s.stranded, a) >= 0.0
            && (Priced(markets, e, a) ==>
                  LockedOf(e.db.balances, a)
                  >= ReservedTotal(markets, e.handled, Rows(e), a) + AmountIn(s.stranded, a) - SlackIn(markets, e, a))
  {
    hide *;
    ExecConcat(markets, s0, acts, more);
    InitialReachable(markets, s0);
    EveryRunReachable(markets, s0, acts);
    EveryRunReachable(markets, s0, acts + more);
    var s, e := Exec(markets, s0, acts), Exec(markets, s0, acts + more);
    StrandedNeverFalls(markets, s, more, a);
    ReachableCovered(markets, s, a);
    ReachableCovered(markets, e, a);
    StrandedNonneg(s.stranded, a);
    OwedIs(markets, e, a);
  }

  lemma OwedIs(markets: Markets, s: Sys, a: Account)
    ensures OwedIn(markets, s, a) == ReservedTotal(markets, s.handled, Rows(s), a) + AmountIn(s.stranded, a)
  {
  }

  lemma StrandedNonneg(s: map<Account, real>, a: Account)
    requires Nonneg(s)
    ensures AmountIn(s, a) >= 0.0
  {
  }

  /**
   * With market buys too: requests and engine turns never lower a locked balance, and the next event leaves all that is
   * stranded in an account locked if and only if what it asks is locked on top of that. A market buy that executes above the
   * price it named can ask for more.
   */
  lemma EventSparesStrandedIff(markets: Markets, s0: Sys, acts: seq<Action>, a: Account)
    requires Initial(s0) && AllAllowed(markets, s0, acts) && Exec(markets, s0, acts).pending != []
    requires AmountIn(Do(markets, Exec(markets, s0, acts), WriterTurn).stranded, a) > 0.0
    ensures var s := Exec(markets, s0, acts);
            var after := Do(markets, s, WriterTurn);
            LockedOf(after.db.balances, a) >= AmountIn(after.stranded, a)
            <==> AskedBy(markets, Rows(s), s.pending[0], a) + AmountIn(after.stranded, a) <= LockedOf(s.db.balances, a)
  {
    hide *;
    NextEventTakes(markets, s0, acts, a);
    LesserIs(LockedOf(Exec(markets, s0, acts).db.balances, a),
             AskedBy(markets, Rows(Exec(markets, s0, acts)), Exec(markets, s0, acts).pending[0], a));
  }

  lemma LesserIs(x: real, y: real)
    ensures Lesser(x, y) == if x >= y then y else x
  {
  }

  // ----- the replica -----

  /**
   * Every order row, the provider's included, has been filled by exactly the sum of its trades among the events handled so
   * far; a user's row within its quantity.
   */
  lemma RowsFollowEvents(markets: Markets, s0: Sys, acts: seq<Action>, id: string)
    requires Initial(s0) && AllAllowed(markets, s0, acts) && id in Exec(markets, s0, acts).db.orders
    ensures var s := Exec(markets, s0, acts);
            var o := s.db.orders[id];
            && o.filled == Runs.TradedFor(s.log, id)
            && (o.userId != EXTERNAL_USER_ID ==>
                  && 0.0 <= o.filled <= o.quantity
                  && (o.status.Filled? <==> o.filled == o.quantity)
                  && (o.status.PartiallyFilled? ==> 0.0 < o.filled < o.quantity)
                  && (o.status.Open? || o.status.Rejected? ==> o.filled == 0.0)
                  && (o.status.Rejected? ==> id in s.handled.closed)
                  && (id in s.handled.closed ==> o.status.Filled? || o.status.Canceled? || o.status.Rejected?))
  {
    hide *;
    InitialReachable(markets, s0);
    EveryRunReachable(markets, s0, acts);
    RowFollowsEvents(markets, Exec(markets, s0, acts), id);
  }

  lemma RowFollowsEvents(markets: Markets, s: Sys, id: string)
    requires Reachable(markets, s) && id in s.db.orders
    ensures var o := s.db.orders[id];
            && o.filled == Runs.TradedFor(s.log, id)
            && (o.userId != EXTERNAL_USER_ID ==>
                  && 0.0 <= o.filled <= o.quantity
                  && (o.status.Filled? <==> o.filled == o.quantity)
                  && (o.status.PartiallyFilled? ==> 0.0 < o.filled < o.quantity)
                  && (o.status.Open? || o.status.Rejected? ==> o.filled == 0.0)
                  && (o.status.Rejected? ==> id in s.handled.closed)
                  && (id in s.handled.closed ==> o.status.Filled? || o.status.Canceled? || o.status.Rejected?))
  {
    hide EngineInv, NoneLost, Covered, IsUuid, AllOk, ApplyAll;
    var o := s.db.orders[id];
    if o.userId == EXTERNAL_USER_ID {
      assert QuoteRow(markets, s.handled, id, o, s.quoted[id]);
    } else {
      assert RowOk(markets, s.handled, id, Rows(s)[id]);
    }
    assert id in Ordered(s);
    Runs.FilledIsTraded(Ordered(s), NO_EVENTS, s.log, id);
  }

  /** The mark an event about a user's order leaves on its row, over every run and whatever the row was marked before. */
  lemma EventMarks(markets: Markets, s0: Sys, acts: seq<Action>, id: string)
    requires Initial(s0) && AllAllowed(markets, s0, acts)
    requires var s := Exec(markets, s0, acts); s.pending != [] && AboutOne(s.pending[0]) && s.pending[0].orderId == id && id in Rows(s)
    ensures var s := Exec(markets, s0, acts); var after := Do(markets, s, WriterTurn).db.orders;
            && id in after
            && after[id] == s.db.orders[id].(status :=
                 match s.pending[0]
                 case Accepted(_, _, _, _, _, _, _, _, _) => OrderStatus.Open
                 case Completed(_, _, _, _, _) => OrderStatus.Filled
                 case TurnedDown(_, _, _) => OrderStatus.Rejected
                 case _ => OrderStatus.Canceled)
            && (forall x | x in s.db.orders && x != id :: x in after && after[x] == s.db.orders[x])
  {
    hide *;
    InitialReachable(markets, s0);
    EveryRunReachable(markets, s0, acts);
    NextMarks(markets, Exec(markets, s0, acts), id);
  }

  lemma NextMarks(markets: Markets, s: Sys, id: string)
    requires Reachable(markets, s)
    requires s.pending != [] && AboutOne(s.pending[0]) && s.pending[0].orderId == id && id in Rows(s)
    ensures var after := Do(markets, s, WriterTurn).db.orders;
            && id in after
            && after[id] == s.db.orders[id].(status :=
                 match s.pending[0]
                 case Accepted(_, _, _, _, _, _, _, _, _) => OrderStatus.Open
                 case Completed(_, _, _, _, _) => OrderStatus.Filled
                 case TurnedDown(_, _, _) => OrderStatus.Rejected
                 case _ => OrderStatus.Canceled)
            && (forall x | x in s.db.orders && x != id :: x in after && after[x] == s.db.orders[x])
  {
    if s.pending[0].Withdrawn? {
      WithdrawnStatus(markets, s, id);
    }
    UserRow(s, id);
    hide Reachable, Do, Handled, Rows;
    WriterBalances(markets, s);
    HandledMarks(markets, s.db, s.pending[0], id);
  }

  lemma UserRow(s: Sys, id: string)
    requires id in Rows(s)
    ensures id in s.db.orders
  {
  }

  /** An order that is canceled is neither filled nor turned down. */
  lemma WithdrawnStatus(markets: Markets, s: Sys, id: string)
    requires Reachable(markets, s) && s.pending != [] && s.pending[0].Withdrawn? && s.pending[0].orderId == id && id in Rows(s)
    ensures var status := Rows(s)[id].status; !status.Filled? && !status.Rejected? && !status.Expired?
  {
    hide EngineInv, NoneLost, LogOk, Covered, QuotesOk, Idle;
    WriterTurnEvents(Ordered(s), markets, s);
    OrderedUser(markets, s.handled, s.db, s.quoted, id);
    assert RowOk(markets, s.handled, id, Rows(s)[id]);
  }

  lemma HandledMarks(markets: Markets, db: Db, ev: EventView, id: string)
    requires AboutOne(ev) && ev.orderId == id && id in db.orders
    requires ev.Withdrawn? ==> var status := db.orders[id].status; !status.Filled? && !status.Rejected? && !status.Expired?
    ensures var after := Handled(markets, db, ev).orders;
            && id in after
            && after[id] == db.orders[id].(status :=
                 match ev
                 case Accepted(_, _, _, _, _, _, _, _, _) => OrderStatus.Open
                 case Completed(_, _, _, _, _) => OrderStatus.Filled
                 case TurnedDown(_, _, _) => OrderStatus.Rejected
                 case _ => OrderStatus.Canceled)
            && (forall x | x in db.orders && x != id :: x in after && after[x] == db.orders[x])
  {
    hide MarginUnlocked;
  }

  /**
   * Once the writer has caught up, every resting order of a user and its row agree; and a resting order of the provider
   * agrees with its row on the fill, or has none and has not traded.
   */
  lemma ReplicaAgrees(markets: Markets, s0: Sys, acts: seq<Action>, m: string, side: Side, i: nat)
    requires Initial(s0) && AllAllowed(markets, s0, acts)
    requires var s := Exec(markets, s0, acts); s.pending == [] && m in s.books && i < |s.books[m].On(side)|
    ensures var s := Exec(markets, s0, acts);
            var o := s.books[m].On(side)[i];
            if o.userId == EXTERNAL_USER_ID
            then
              && o.id in s.quoted
              && (if o.id in s.db.orders then s.db.orders[o.id].filled == o.filled else m in markets ==> o.filled == 0.0)
            else
              && o.id in s.db.orders && o.id !in s.handled.closed
              && s.db.orders[o.id].filled == o.filled && s.db.orders[o.id].quantity == o.quantity
              && s.db.orders[o.id].price == Some(o.price) && s.db.orders[o.id].side == side
  {
    hide *;
    InitialReachable(markets, s0);
    EveryRunReachable(markets, s0, acts);
    RestingRow(markets, Exec(markets, s0, acts), m, side, i);
  }

  lemma RestingRow(markets: Markets, s: Sys, m: string, side: Side, i: nat)
    requires Reachable(markets, s) && s.pending == [] && m in s.books && i < |s.books[m].On(side)|
    ensures var o := s.books[m].On(side)[i];
            if o.userId == EXTERNAL_USER_ID
            then
              && o.id in s.quoted
              && (if o.id in s.db.orders then s.db.orders[o.id].filled == o.filled else m in markets ==> o.filled == 0.0)
            else
              && o.id in s.db.orders && o.id !in s.handled.closed
              && s.db.orders[o.id].filled == o.filled && s.db.orders[o.id].quantity == o.quantity
              && s.db.orders[o.id].price == Some(o.price) && s.db.orders[o.id].side == side
  {
    hide NoneLost, LogOk, Covered, RunReady, AllOk, Greedy.Sorted, BookSpec.DistinctIds, DisjointIds, BookSpec.Uncrossed, IsUuid, FilledOf;
    assert Published(s) == s.handled;
    var infos, o := Ordered(s), s.books[m].On(side)[i];
    assert BookTracked(infos, s.handled, s.books[m]);
    assert Tracked(infos, s.handled, o);
    OrderedUser(markets, s.handled, s.db, s.quoted, o.id);
    if o.id in s.quoted {
      if o.id in s.db.orders {
        assert QuoteRow(markets, s.handled, o.id, s.db.orders[o.id], s.quoted[o.id]);
      }
    } else {
      assert RowOk(markets, s.handled, o.id, Rows(s)[o.id]);
    }
  }

  // ----- when everything has been processed -----

  ghost predicate Drained(s: Sys) {
    s.stream == [] && s.pending == []
  }

  ghost function RestingReserve(markets: Markets, s: Sys, a: Account, id: string): real {
    if id in Rows(s) && Rows(s)[id].market in markets && ReserveAccount(markets, Rows(s)[id]) == a
       && BookOf(s.books, Rows(s)[id].market).Has(id)
    then Due(Rows(s)[id]) else 0.0
  }

  /**
   * End to end: once all commands and events are processed, an account without market buys has locked what its orders
   * resting in the engine's books reserve, plus what is stranded; exactly, if leverage divides evenly.
   */
  lemma DrainedLocksAreResting(markets: Markets, s0: Sys, acts: seq<Action>, a: Account)
    requires Initial(s0) && AllAllowed(markets, s0, acts) && Drained(Exec(markets, s0, acts))
    requires Priced(markets, Exec(markets, s0, acts), a)
    ensures var s := Exec(markets, s0, acts);
            var resting := Sum(Rows(s).Keys, id => RestingReserve(markets, s, a, id)) + AmountIn(s.stranded, a);
            CloseTo(LockedOf(s.db.balances, a), resting, SlackIn(markets, s, a), RoundsIn(s.rounded, a))
            && (SlackIn(markets, s, a) == 0.0 ==> LockedOf(s.db.balances, a) == resting)
  {
    hide *;
    InitialReachable(markets, s0);
    EveryRunReachable(markets, s0, acts);
    ReservedIsResting(markets, Exec(markets, s0, acts), a);
  }

  lemma ReservedIsResting(markets: Markets, s: Sys, a: Account)
    requires Reachable(markets, s) && Drained(s) && Priced(markets, s, a)
    ensures var resting := Sum(Rows(s).Keys, id => RestingReserve(markets, s, a, id)) + AmountIn(s.stranded, a);
            CloseTo(LockedOf(s.db.balances, a), resting, SlackIn(markets, s, a), RoundsIn(s.rounded, a))
            && (SlackIn(markets, s, a) == 0.0 ==> LockedOf(s.db.balances, a) == resting)
  {
    hide Reachable, LockedOf, SlackIn, Priced, CloseTo, DUST, ReservedTotal, RestingReserve, Rows, Drained;
    SumsAgree(markets, s, a);
    ReachableCovered(markets, s, a);
  }

  lemma SumsAgree(markets: Markets, s: Sys, a: Account)
    requires Reachable(markets, s) && Drained(s)
    ensures ReservedTotal(markets, s.handled, Rows(s), a) == Sum(Rows(s).Keys, id => RestingReserve(markets, s, a, id))
  {
    hide RunReady, AllOk, LogOk, BooksTracked, Covered, QuotesOk, Runs.Settled;
    assert Published(s) == s.handled;
    var f: string -> real := id => ReserveIn(markets, s.handled, Rows(s), a, id);
    var g: string -> real := id => RestingReserve(markets, s, a, id);
    forall id | id in Rows(s).Keys
      ensures f(id) == g(id)
    {
      assert !Waiting(s.stream, id);
      assert id in Ordered(s);
      assert RowOk(markets, s.handled, id, Rows(s)[id]);
      OpenIsResting(markets, s, a, id);
    }
    SumSame(Rows(s).Keys, f, g);
  }

  lemma OpenIsResting(markets: Markets, s: Sys, a: Account, id: string)
    requires BooksTracked(Ordered(s), s.handled, s.books) && id in Rows(s) && QuotesOk(markets, s.handled, s.db.orders, s.quoted)
    requires Runs.Settled(Ordered(s), s.handled, s.books, id) && RowOk(markets, s.handled, id, Rows(s)[id])
    ensures ReserveIn(markets, s.handled, Rows(s), a, id) == RestingReserve(markets, s, a, id)
  {
    var infos, o := Ordered(s), Rows(s)[id];
    OrderedUser(markets, s.handled, s.db, s.quoted, id);
    hide QuotesOk, Ordered, Rows;
    var b := BookOf(s.books, o.market);
    hide BookTracked;
    if b.Has(id) {
      assert BookTracked(infos, s.handled, b);
      HasInfo(infos, s.handled, b, id);
    } else if id !in s.handled.closed {
      assert o.filled == o.quantity;
      assert Due(o) == 0.0;
    }
  }
}
