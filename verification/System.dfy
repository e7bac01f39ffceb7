/**
 * API, liquidity provider, engine and database writer as one system: requests and quotes append to the command stream, the
 * engine consumes it and appends to the event channel, the writer consumes that. Every interleaving of their turns is a
 * sequence of actions.
 */
module System {
  import opened Orders
  import opened BookSpec
  import opened Exchange
  import opened Discipline
  import opened Sums
  import opened Ledgers
  import opened Coverage
  import opened Providers
  import Runs

  /**
   * `quoted`, `log`, `handled`, `stranded` and `rounded` are history: the provider's orders, the handled events, what they
   * say, what they took out of reservations without releasing it, and how many of their debits and releases were rounded.
   * `stranded` never falls, and its amount stays locked as long as no market buy reserves in the account; one that executes
   * above the price it named can spend it.
   */
  datatype Sys = Sys(
    db: Db, stream: seq<Command>, books: Books, pending: seq<EventView>,
    quoted: Infos, log: seq<EventView>, handled: Track, stranded: map<Account, real>, rounded: Rounds)

  datatype Action =
    | ApiPlace(input: PlaceInput, id: string)
    | ApiCancel(orderId: string, userId: string)
    | Deposit(account: Account, amount: real)
    | Withdraw(account: Account, amount: real)
    | Inject(order: OrderView)
    | InjectCancel(market: string, quoteId: string)
    | EngineTurn
    | WriterTurn

  ghost function Do(markets: Markets, s: Sys, a: Action): Sys {
    match a
    case ApiPlace(input, id) =>
      var r := Placement(markets, s.db, input, id);
      if r.Created? then s.(db := r.db, stream := s.stream + [PlaceCommand(OrderSent(id, input), None)]) else s
    case ApiCancel(id, userId) =>
      var r := CancelRequested(s.db, id, userId);
      if r.Ok? then s.(db := r.value, stream := s.stream + [CancelCommand(s.db.orders[id].market, id, userId)]) else s
    case Deposit(account, amount) =>
      if amount > 0.0 then s.(db := s.db.(balances := Credited(s.db.balances, account, amount))) else s
    case Withdraw(account, amount) =>
      s.(db := s.db.(balances := WithdrawnFrom(s.db.balances, account, amount)))
    case Inject(o) => s.(quoted := s.quoted[o.id := InfoOf(o)], stream := s.stream + [PlaceCommand(o, None)])
    case InjectCancel(m, id) => s.(stream := s.stream + [CancelCommand(m, id, EXTERNAL_USER_ID)])
    case EngineTurn =>
      if s.stream == [] then s
      else
        var e := Step(s.books, s.stream[0]);
        s.(stream := s.stream[1..], books := e.books, pending := s.pending + e.events)
    case WriterTurn =>
      if s.pending == [] then s
      else
        s.(db := Handled(markets, s.db, s.pending[0]), pending := s.pending[1..], log := s.log + [s.pending[0]],
           handled := Apply(s.handled, s.pending[0]),
           stranded := StrandedAfter(markets, UserOrders(s.db.orders), s.stranded, s.pending[0]),
           rounded := RoundsAfter(markets, UserOrders(s.db.orders), s.rounded, s.pending[0]))
  }

  /**
   * What the request schema and the id generators see to: ids are new, nothing is empty, leverage is not negative. The
   * provider quotes with limit orders under its own user, which no request comes from.
   */
  ghost predicate Allowed(s: Sys, a: Action) {
    && (a.ApiPlace? ==>
          && a.id !in s.db.orders && a.id !in s.quoted && a.id != "" && a.input.userId != "" && a.input.market != ""
          && LeverageOf(a.input) >= 0.0 && a.input.userId != EXTERNAL_USER_ID)
    && (a.Inject? ==>
          && a.order.id !in s.db.orders && a.order.id !in s.quoted && IsUuid(a.order.id) && a.order.userId == EXTERNAL_USER_ID
          && WellFormedOrder(a.order) && a.order.filled == 0.0 && a.order.terms.kind.Limit? && a.order.price > 0.0)
  }

  /** What the events published so far say, handled or not. */
  ghost function Published(s: Sys): Track {
    ApplyAll(s.handled, s.pending)
  }

  ghost predicate TrackWithin(infos: Infos, t: Track) {
    forall id | id !in infos :: FilledOf(t, id) == 0.0 && id !in t.closed
  }

  ghost predicate DbInv(markets: Markets, s: Sys) {
    DbOk(markets, s.handled, s.db, s.quoted, s.stranded, s.rounded)
  }

  /** The order rows of the users. */
  ghost function Rows(s: Sys): map<string, OrderRow> {
    UserOrders(s.db.orders)
  }

  /** What was ordered so far. */
  ghost function Ordered(s: Sys): Infos {
    OrderedIn(s.db, s.quoted)
  }

  ghost predicate EngineInv(infos: Infos, s: Sys) {
    && TrackWithin(infos, s.handled)
    && AllOk(infos, s.handled, s.pending)
    && BooksTracked(infos, Published(s), s.books)
    && RunReady(infos, Published(s), s.books, s.stream)
  }

  ghost predicate Consistent(markets: Markets, s: Sys) {
    DbInv(markets, s) && EngineInv(Ordered(s), s)
  }

  // ----- the engine's part, when an order becomes known -----

  lemma {:induction false} TrackWithinAll(infos: Infos, t: Track, evs: seq<EventView>)
    requires TrackWithin(infos, t) && AllOk(infos, t, evs)
    ensures TrackWithin(infos, ApplyAll(t, evs))
    decreases |evs|
  {
    if evs != [] {
      TrackWithinAll(infos, Apply(t, evs[0]), evs[1..]);
    }
  }

  lemma BooksTrackedMore(infos: Infos, more: Infos, t: Track, books: Books)
    requires BooksTracked(infos, t, books) && forall id | id in infos :: id in more && more[id] == infos[id]
    ensures BooksTracked(more, t, books)
  {
    hide BookSpec.Inv, InfoOf;
    forall m | m in books
      ensures BookTracked(more, t, books[m])
    {
      assert BookTracked(infos, t, books[m]);
      AllTrackedMore(infos, more, t, books[m].bids);
      AllTrackedMore(infos, more, t, books[m].asks);
    }
  }

  lemma AllTrackedMore(infos: Infos, more: Infos, t: Track, q: seq<OrderView>)
    requires AllTracked(infos, t, q) && forall id | id in infos :: id in more && more[id] == infos[id]
    ensures AllTracked(more, t, q)
  {
    forall i | 0 <= i < |q|
      ensures Tracked(more, t, q[i])
    {
      assert Tracked(infos, t, q[i]);
    }
  }

  /** A placement request leaves the engine's part in order: one more known, unprocessed order. */
  lemma KnownOrder(infos: Infos, s: Sys, o: OrderView, s': Sys)
    requires EngineInv(infos, s) && o.id !in infos && o.filled == 0.0
    requires s' == s.(db := s'.db, quoted := s'.quoted, stream := s.stream + [PlaceCommand(o, None)])
    ensures EngineInv(infos[o.id := InfoOf(o)], s')
  {
    var more, u := infos[o.id := InfoOf(o)], Published(s);
    AllOkMoreInfos(infos, more, s.handled, s.pending);
    TrackWithinAll(infos, s.handled, s.pending);
    BooksTrackedMore(infos, more, u, s.books);
    hide AllOk, ApplyAll, BookTracked, InfoOf;
    forall i | 0 <= i < |s'.stream| && s'.stream[i].PlaceCommand?
      ensures s'.stream[i].mark.None? && Unprocessed(more, u, s.books, s'.stream[i].order)
      ensures i < |s.stream| ==> s'.stream[i].order.id != o.id
    {
      if i < |s.stream| {
        assert s'.stream[i] == s.stream[i];
        assert Unprocessed(infos, u, s.books, s.stream[i].order);
      } else {
        NotOnBook(infos, u, s.books, o.terms.market, o.id);
      }
    }
  }

  lemma NotOnBook(infos: Infos, u: Track, books: Books, m: string, id: string)
    requires BooksTracked(infos, u, books) && id !in infos
    ensures !BookOf(books, m).Has(id)
  {
    if BookOf(books, m).Has(id) {
      HasInfo(infos, u, books[m], id);
    }
  }

  lemma CancelQueued(infos: Infos, s: Sys, c: Command, s': Sys)
    requires EngineInv(infos, s) && c.CancelCommand?
    requires s' == s.(db := s'.db, stream := s.stream + [c])
    ensures EngineInv(infos, s')
  {
    hide AllOk, ApplyAll, BooksTracked, Unprocessed;
    assert forall i | 0 <= i < |s.stream| :: s'.stream[i] == s.stream[i];
  }

  lemma EngineTurnKeeps(infos: Infos, markets: Markets, s: Sys)
    requires EngineInv(infos, s)
    ensures EngineInv(infos, Do(markets, s, EngineTurn))
  {
    if s.stream != [] {
      var u := Published(s);
      var e := Step(s.books, s.stream[0]);
      StepTracked(infos, u, s.books, s.stream[0]);
      Runs.RunReadyTail(infos, u, s.books, s.stream);
      AllOkConcat(infos, s.handled, s.pending, e.events);
    }
  }

  lemma WriterTurnEvents(infos: Infos, markets: Markets, s: Sys)
    requires EngineInv(infos, s) && s.pending != []
    ensures EventOk(infos, s.handled, s.pending[0])
    ensures EngineInv(infos, Do(markets, s, WriterTurn))
  {
    var ev := s.pending[0];
    assert [ev][1..] == [];
    OneEvent(infos, s.handled, ev);
    TrackWithinAll(infos, s.handled, [ev]);
  }

  // ----- the database's part -----

  lemma WriterTurnKeeps(markets: Markets, s: Sys)
    requires Consistent(markets, s) && s.pending != []
    ensures DbInv(markets, Do(markets, s, WriterTurn))
    ensures Ordered(Do(markets, s, WriterTurn)) == Ordered(s)
  {
    WriterTurnEvents(Ordered(s), markets, s);
    hide EngineInv, DbOk, OrderedIn, Handled, StrandedAfter, UserOrders, Apply, EventOk;
    EventHandled(markets, s.handled, s.db, s.quoted, s.stranded, s.rounded, s.pending[0]);
  }

  /** A row a valid request creates is in step with the events: there are none for it yet. */
  lemma NewRowOk(markets: Markets, t: Track, db: Db, i: PlaceInput, id: string)
    requires Placement(markets, db, i, id).Created?
    requires LeverageOf(i) >= 0.0 && i.userId != EXTERNAL_USER_ID
    requires FilledOf(t, id) == 0.0 && id !in t.closed
    ensures RowOk(markets, t, id, RowOf(i)) && InfoOfRow(RowOf(i)) == InfoOf(OrderSent(id, i))
  {
  }

  /** A placement request does to the users' part what it does to the whole. */
  lemma PlacementAmongUsers(markets: Markets, db: Db, i: PlaceInput, id: string)
    requires Placement(markets, db, i, id).Created? && i.userId != EXTERNAL_USER_ID && id !in db.orders
    ensures Placement(markets, UserDb(db), i, id).Created?
    ensures UserDb(Placement(markets, db, i, id).db) == Placement(markets, UserDb(db), i, id).db
    ensures Placement(markets, db, i, id).db.orders == db.orders[id := RowOf(i)]
  {
    hide Ledgers.Reserved;
    assert forall x | x in UserOrders(db.orders) :: !SameClient(db.orders[x], i);
    assert UserOrders(db.orders[id := RowOf(i)]) == UserOrders(db.orders)[id := RowOf(i)];
  }

  lemma PlacementQuotes(markets: Markets, t: Track, orders: map<string, OrderRow>, quoted: Infos, id: string, row: OrderRow)
    requires QuotesOk(markets, t, orders, quoted) && id !in quoted && row.userId != EXTERNAL_USER_ID
    ensures QuotesOk(markets, t, orders[id := row], quoted)
  {
    hide IsUuid, FilledOf;
    forall x | x in quoted && x in orders[id := row]
      ensures QuoteRow(markets, t, x, orders[id := row][x], quoted[x])
    {
      assert QuoteRow(markets, t, x, orders[x], quoted[x]);
    }
  }

  lemma PlacementIdle(markets: Markets, db: Db, i: PlaceInput, id: string)
    requires Placement(markets, db, i, id).Created? && i.userId != EXTERNAL_USER_ID && Idle(db.balances)
    ensures Idle(Placement(markets, db, i, id).db.balances)
  {
    hide MarginOf;
  }

  lemma OneMoreRow(db: Db, db': Db, quoted: Infos, id: string, row: OrderRow)
    requires UserOrders(db'.orders) == UserOrders(db.orders)[id := row] && id !in quoted
    ensures OrderedIn(db', quoted) == OrderedIn(db, quoted)[id := InfoOfRow(row)]
  {
    hide UserOrders, InfoOfRow;
  }

  lemma ApiPlaceKeeps(markets: Markets, s: Sys, i: PlaceInput, id: string)
    requires Consistent(markets, s) && Allowed(s, ApiPlace(i, id))
    ensures Consistent(markets, Do(markets, s, ApiPlace(i, id)))
  {
    var s' := Do(markets, s, ApiPlace(i, id));
    if Placement(markets, s.db, i, id).Created? {
      NotOrdered(markets, s, id);
      NewRowOk(markets, s.handled, s.db, i, id);
      assert RowOf(i).userId != EXTERNAL_USER_ID;
      hide Placement, Covered, RowOk, AllOk, BooksTracked, RunReady, QuotesOk, Idle, OrderedIn, UserOrders, RowsOk, RowOf, IsUuid;
      PlacementAmongUsers(markets, s.db, i, id);
      PlacementIs(markets, s.db, i, id);
      PlacementIs(markets, UserDb(s.db), i, id);
      PlacementCovered(markets, s.handled, UserDb(s.db), s.stranded, s.rounded, i, id);
      PlacementQuotes(markets, s.handled, s.db.orders, s.quoted, id, RowOf(i));
      PlacementIdle(markets, s.db, i, id);
      OneMoreRow(s.db, s'.db, s.quoted, id, RowOf(i));
      KnownOrder(Ordered(s), s, OrderSent(id, i), s');
    }
  }

  lemma NotOrdered(markets: Markets, s: Sys, id: string)
    requires Consistent(markets, s) && id !in s.db.orders && id !in s.quoted
    ensures id !in Ordered(s) && FilledOf(s.handled, id) == 0.0 && id !in s.handled.closed && id !in UserOrders(s.db.orders)
  {
    hide DbInv, AllOk, BooksTracked, RunReady;
  }

  lemma QuoteAdded(markets: Markets, t: Track, db: Db, quoted: Infos, id: string, i: Info)
    requires QuotesOk(markets, t, db.orders, quoted) && Quote(i) && IsUuid(id) && id !in db.orders && FilledOf(t, id) == 0.0
    ensures QuotesOk(markets, t, db.orders, quoted[id := i])
  {
    hide IsUuid, FilledOf, Quote, QuoteRow;
  }

  lemma QuoteOrdered(db: Db, quoted: Infos, id: string, i: Info)
    ensures OrderedIn(db, quoted[id := i]) == OrderedIn(db, quoted)[id := i]
  {
    hide UserOrders, InfosOfDb;
  }

  lemma QuoteInfo(s: Sys, o: OrderView)
    requires Allowed(s, Inject(o))
    ensures Quote(InfoOf(o)) && IsUuid(o.id) && o.id !in s.db.orders && o.id !in s.quoted && o.filled == 0.0
  {
    hide IsUuid;
  }

  /** A quote reserves nothing: it is one more known order without a row. */
  lemma InjectKeeps(markets: Markets, s: Sys, o: OrderView)
    requires Consistent(markets, s) && Allowed(s, Inject(o))
    ensures Consistent(markets, Do(markets, s, Inject(o)))
  {
    hide Covered, RowsOk, EngineInv, Idle, IsUuid, FilledOf, QuotesOk, UserOrders, OrderedIn, Allowed, Quote, InfoOf, Nonneg;
    var s' := Do(markets, s, Inject(o));
    QuoteInfo(s, o);
    NotOrdered(markets, s, o.id);
    QuoteAdded(markets, s.handled, s.db, s.quoted, o.id, InfoOf(o));
    QuoteOrdered(s.db, s.quoted, o.id, InfoOf(o));
    KnownOrder(Ordered(s), s, o, s');
  }

  lemma InjectCancelKeeps(markets: Markets, s: Sys, m: string, id: string)
    requires Consistent(markets, s)
    ensures Consistent(markets, Do(markets, s, InjectCancel(m, id)))
  {
    hide DbOk;
    CancelQueued(Ordered(s), s, CancelCommand(m, id, EXTERNAL_USER_ID), Do(markets, s, InjectCancel(m, id)));
  }

  lemma CanceledFits(markets: Markets, t: Track, db: Db, id: string)
    requires RowsOk(markets, t, UserOrders(db.orders)) && (id in db.orders ==> !db.orders[id].status.Filled?)
    ensures id in UserOrders(db.orders) ==> StatusFits(UserOrders(db.orders)[id].(status := OrderStatus.Canceled))
  {
    if id in UserOrders(db.orders) {
      assert RowOk(markets, t, id, UserOrders(db.orders)[id]);
    }
  }

  lemma CanceledRow(markets: Markets, t: Track, db: Db, quoted: Infos, stranded: map<Account, real>, rounds: Rounds, id: string)
    requires DbOk(markets, t, db, quoted, stranded, rounds) && (id in db.orders ==> !db.orders[id].status.Filled?)
    ensures var db' := db.(orders := StatusSet(db.orders, id, OrderStatus.Canceled));
            DbOk(markets, t, db', quoted, stranded, rounds) && OrderedIn(db', quoted) == OrderedIn(db, quoted)
  {
    hide Covered, RowsOk, QuotesOk, Idle, StatusSet, OrderedIn, Nonneg, UserOrders;
    StatusUsers(db.orders, id, OrderStatus.Canceled);
    CanceledFits(markets, t, db, id);
    StatusCovered(markets, t, UserDb(db), stranded, rounds, id, OrderStatus.Canceled);
    StatusQuotes(markets, t, t, db.orders, quoted, id, OrderStatus.Canceled);
    OrderedSame(db, db.(orders := StatusSet(db.orders, id, OrderStatus.Canceled)), quoted);
  }

  lemma ApiCancelKeeps(markets: Markets, s: Sys, id: string, userId: string)
    requires Consistent(markets, s)
    ensures Consistent(markets, Do(markets, s, ApiCancel(id, userId)))
  {
    hide EngineInv, DbOk, StatusSet, OrderedIn;
    if CancelRequested(s.db, id, userId).Ok? {
      CanceledRow(markets, s.handled, s.db, s.quoted, s.stranded, s.rounded, id);
      CancelQueued(Ordered(s), s, CancelCommand(s.db.orders[id].market, id, userId), Do(markets, s, ApiCancel(id, userId)));
    }
  }

  lemma FundsKeep(markets: Markets, s: Sys, a: Action)
    requires Consistent(markets, s) && (a.Deposit? || a.Withdraw?)
    ensures Consistent(markets, Do(markets, s, a))
  {
    hide EngineInv, RowsOk, Covered, Do, LockedOf, QuotesOk, Nonneg;
    var s' := Do(markets, s, a);
    FundsOnly(markets, s, a);
    CoveredFrame(markets, s.handled, s.handled, UserDb(s.db), s'.db.balances, s.stranded, s.rounded);
    SameUserOrders(s.db, s'.db, s.quoted);
    EngineInvFrame(Ordered(s), s, s');
  }

  lemma FundsOnly(markets: Markets, s: Sys, a: Action)
    requires a.Deposit? || a.Withdraw?
    ensures var s' := Do(markets, s, a);
            s' == s.(db := s'.db) && s'.db.orders == s.db.orders && SameLocks(s.db.balances, s'.db.balances)
  {
    CreditKeeps(s.db.balances, a.account, a.amount);
  }

  lemma EngineInvFrame(infos: Infos, s: Sys, s': Sys)
    requires EngineInv(infos, s) && s' == s.(db := s'.db)
    ensures EngineInv(infos, s')
  {
    hide AllOk, ApplyAll, BooksTracked, RunReady;
  }

  /** Every action keeps the invariant. */
  lemma ActionKeepsInv(markets: Markets, s: Sys, a: Action)
    requires Consistent(markets, s) && Allowed(s, a)
    ensures Consistent(markets, Do(markets, s, a))
  {
    match a
    case ApiPlace(i, id) => ApiPlaceKeeps(markets, s, i, id);
    case ApiCancel(id, userId) => ApiCancelKeeps(markets, s, id, userId);
    case Deposit(_, _) => FundsKeep(markets, s, a);
    case Withdraw(_, _) => FundsKeep(markets, s, a);
    case Inject(o) => InjectKeeps(markets, s, o);
    case InjectCancel(m, id) => InjectCancelKeeps(markets, s, m, id);
    case EngineTurn => EngineTurnKeeps(Ordered(s), markets, s);
    case WriterTurn =>
      if s.pending != [] {
        WriterTurnEvents(Ordered(s), markets, s);
        WriterTurnKeeps(markets, s);
      }
  }
}
