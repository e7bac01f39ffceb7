/**
 * The liquidity provider beside the users. Its orders go to the engine without a request: they reserve nothing, and have
 * no row before their first trade. The users' part of the database is kept as if the provider's rows were not there.
 */
module Providers {
  import opened Orders
  import opened Exchange
  import opened Discipline
  import opened Ledgers
  import opened Coverage
  import opened Sums

  ghost function UserOrders(orders: map<string, OrderRow>): map<string, OrderRow> {
    map id | id in orders && orders[id].userId != EXTERNAL_USER_ID :: orders[id]
  }

  /** The database without the provider's rows. */
  ghost function UserDb(db: Db): Db {
    Db(db.balances, UserOrders(db.orders))
  }

  /** What was ordered, by users and by the provider. */
  ghost function OrderedIn(db: Db, quoted: Infos): Infos {
    InfosOfDb(UserDb(db)) + quoted
  }

  /** The provider has nothing locked. */
  ghost predicate Idle(b: Balances) {
    forall a: Account | a.userId == EXTERNAL_USER_ID :: LockedOf(b, a) == 0.0
  }

  /** An order of the provider. */
  ghost predicate Quote(i: Info) {
    i.userId == EXTERNAL_USER_ID && i.limit.Some? && i.limit.value > 0.0
  }

  /** A row of the provider: born with a trade, filled by all trades of its order. */
  ghost predicate QuoteRow(markets: Markets, t: Track, id: string, o: OrderRow, i: Info) {
    && o.userId == EXTERNAL_USER_ID && o.market == i.market && o.side == i.side && o.market in markets && o.price.Some?
    && o.filled == FilledOf(t, id)
  }

  /** The provider's rows are in step with the events; an order without a row has not traded. */
  ghost predicate QuotesOk(markets: Markets, t: Track, orders: map<string, OrderRow>, quoted: Infos) {
    && (forall id | id in quoted :: IsUuid(id) && Quote(quoted[id]))
    && (forall id | id in quoted && id in orders :: QuoteRow(markets, t, id, orders[id], quoted[id]))
    && (forall id | id in orders && orders[id].userId == EXTERNAL_USER_ID :: id in quoted)
    && (forall id | id in quoted && id !in orders && quoted[id].market in markets :: FilledOf(t, id) == 0.0)
  }

  ghost predicate DbOk(markets: Markets, t: Track, db: Db, quoted: Infos, stranded: map<Account, real>, rounds: Rounds) {
    && RowsOk(markets, t, UserOrders(db.orders))
    && Covered(markets, t, UserDb(db), stranded, rounds) && Nonneg(stranded)
    && QuotesOk(markets, t, db.orders, quoted) && Idle(db.balances)
  }

  // ----- events about users only -----

  /** An event about one order that is not a trade. */
  ghost predicate AboutOne(ev: EventView) {
    ev.Accepted? || ev.Completed? || ev.TurnedDown? || ev.Withdrawn?
  }

  /** What one event strands in the accounts of the users whose orders it is about. */
  ghost function StrandedAfter(markets: Markets, orders: map<string, OrderRow>, s: map<Account, real>, ev: EventView): map<Account, real> {
    if ev.Traded? then StrandedByTrade(markets, orders, s, ev.trade)
    else if ev.TurnedDown? then StrandedByRejection(markets, orders, s, ev.orderId)
    else s
  }

  /** Among users only: every handler keeps rows, reservations and stranded amounts in step with the events. */
  lemma UserEventHandled(markets: Markets, t: Track, db: Db, stranded: map<Account, real>, rounds: Rounds, ev: EventView)
    requires RowsOk(markets, t, db.orders) && Covered(markets, t, db, stranded, rounds) && Nonneg(stranded)
    requires EventOk(InfosOfDb(db), t, ev) && AboutOne(ev)
    ensures var db' := Handled(markets, db, ev); var s := StrandedAfter(markets, db.orders, stranded, ev);
            && RowsOk(markets, Apply(t, ev), db'.orders)
            && Covered(markets, Apply(t, ev), db', s, RoundsAfter(markets, db.orders, rounds, ev)) && Nonneg(s)
            && InfosOfDb(db') == InfosOfDb(db)
  {
    hide Covered, AccountCovered;
    match ev
    case Accepted(id, _, _, _, _, _, _, _, _) =>
      StatusCovered(markets, t, db, stranded, rounds, id, OrderStatus.Open);
    case Completed(id, _, _, _, _) =>
      CompleteCovered(markets, t, db, stranded, rounds, ev);
    case TurnedDown(id, _, _) =>
      assert RowOk(markets, t, id, db.orders[id]);
      RejectCovered(markets, t, db, stranded, rounds, ev);
    case Withdrawn(id, _, _, _, _) => CancelCovered(markets, t, db, stranded, rounds, ev);
  }

  // ----- frames -----

  ghost predicate SameLocks(b: Balances, c: Balances) {
    forall a :: LockedOf(c, a) == LockedOf(b, a)
  }

  /** Coverage looks at locked balances, the rows, and which of the rows' orders are closed. */
  lemma CoveredFrame(markets: Markets, t: Track, u: Track, db: Db, c: Balances, stranded: map<Account, real>, rounds: Rounds)
    requires Covered(markets, t, db, stranded, rounds) && SameLocks(db.balances, c)
    requires forall id | id in db.orders :: id in u.closed <==> id in t.closed
    ensures Covered(markets, u, Db(c, db.orders), stranded, rounds)
  {
    hide LockedOf, CloseTo, Slack, Unbounded, Due, ReserveAccount;
    forall x
      ensures AccountCovered(markets, u, Db(c, db.orders), stranded, rounds, x)
    {
      assert AccountCovered(markets, t, db, stranded, rounds, x);
      SumSame(db.orders.Keys, id => ReserveIn(markets, t, db.orders, x, id), id => ReserveIn(markets, u, db.orders, x, id));
    }
  }

  lemma RowsFrame(markets: Markets, t: Track, u: Track, orders: map<string, OrderRow>)
    requires RowsOk(markets, t, orders)
    requires forall id | id in orders :: FilledOf(u, id) == FilledOf(t, id) && (id in u.closed <==> id in t.closed)
    ensures RowsOk(markets, u, orders)
  {
    forall id | id in orders
      ensures RowOk(markets, u, id, orders[id])
    {
      assert RowOk(markets, t, id, orders[id]);
    }
  }

  /** What a debit or release takes from an account of the provider: nothing. */
  lemma IdleTakes(b: Balances, c: Balances, a: Account, amount: real)
    requires Idle(b) && a.userId == EXTERNAL_USER_ID && Shifted(b, c, a, Taken(b, a, amount))
    ensures SameLocks(b, c)
  {
    assert LockedOf(b, a) == 0.0;
  }

  lemma StaysIdle(b: Balances, c: Balances, a: Account, taken: real)
    requires Idle(b) && a.userId != EXTERNAL_USER_ID && Shifted(b, c, a, taken)
    ensures Idle(c)
  {
  }

  lemma OrderedUser(markets: Markets, t: Track, db: Db, quoted: Infos, id: string)
    requires QuotesOk(markets, t, db.orders, quoted) && id in OrderedIn(db, quoted)
    ensures if id in quoted then id !in UserOrders(db.orders) && OrderedIn(db, quoted)[id] == quoted[id]
            else id in UserOrders(db.orders) && OrderedIn(db, quoted)[id] == InfoOfRow(UserOrders(db.orders)[id])
                 == InfosOfDb(UserDb(db))[id]
  {
    hide IsUuid;
  }

  // ----- acceptance and closing -----

  lemma StatusUsers(orders: map<string, OrderRow>, id: string, status: OrderStatus)
    ensures UserOrders(StatusSet(orders, id, status)) == StatusSet(UserOrders(orders), id, status)
  {
  }

  lemma StatusQuotes(markets: Markets, t: Track, u: Track, orders: map<string, OrderRow>, quoted: Infos, id: string, status: OrderStatus)
    requires QuotesOk(markets, t, orders, quoted) && u.filled == t.filled
    ensures QuotesOk(markets, u, StatusSet(orders, id, status), quoted)
  {
    hide IsUuid;
    var after := StatusSet(orders, id, status);
    forall x | x in quoted && x in after
      ensures QuoteRow(markets, u, x, after[x], quoted[x])
    {
      assert QuoteRow(markets, t, x, orders[x], quoted[x]);
    }
  }

  /** Such an event changes at most one row's status, and releases at most from that row's account. */
  lemma AboutOneIs(markets: Markets, db: Db, ev: EventView) returns (status: OrderStatus)
    requires AboutOne(ev)
    ensures var db' := Handled(markets, db, ev);
            && db'.orders == StatusSet(db.orders, ev.orderId, status)
            && (db'.balances == db.balances
                || (ev.orderId in db.orders && db'.balances == MarginUnlocked(markets, db.balances, db.orders[ev.orderId])))
  {
    hide MarginUnlocked;
    var id := ev.orderId;
    status :=
      if Handled(markets, db, ev).orders == db.orders then if id in db.orders then db.orders[id].status else OrderStatus.Open
      else Handled(markets, db, ev).orders[id].status;
  }

  lemma UserEventSame(markets: Markets, db: Db, ev: EventView)
    requires AboutOne(ev) && ev.orderId in UserOrders(db.orders)
    ensures UserDb(Handled(markets, db, ev)) == Handled(markets, UserDb(db), ev)
  {
    hide MarginUnlocked, StatusSet;
    StatusUsers(db.orders, ev.orderId, OrderStatus.Open);
    StatusUsers(db.orders, ev.orderId, OrderStatus.Filled);
    StatusUsers(db.orders, ev.orderId, OrderStatus.Rejected);
    StatusUsers(db.orders, ev.orderId, OrderStatus.Canceled);
  }

  lemma ReleaseIdle(markets: Markets, b: Balances, o: OrderRow)
    requires Idle(b)
    ensures Idle(MarginUnlocked(markets, b, o))
    ensures o.userId == EXTERNAL_USER_ID ==> SameLocks(b, MarginUnlocked(markets, b, o))
  {
    if o.market in markets {
      hide MarginUnlocked, ReserveAmount, LockedOf;
      var a, c := ReserveAccount(markets, o), MarginUnlocked(markets, b, o);
      UnlockShifts(markets, b, o);
      if o.userId == EXTERNAL_USER_ID {
        IdleTakes(b, c, a, ReserveAmount(o));
      } else {
        StaysIdle(b, c, a, Taken(b, a, ReserveAmount(o)));
      }
    }
  }

  lemma EventAmongUsers(markets: Markets, t: Track, db: Db, quoted: Infos, ev: EventView)
    requires QuotesOk(markets, t, db.orders, quoted) && EventOk(OrderedIn(db, quoted), t, ev)
    requires AboutOne(ev) && ev.orderId in UserOrders(db.orders)
    ensures EventOk(InfosOfDb(UserDb(db)), t, ev) && Apply(t, ev).filled == t.filled
  {
    OrderedUser(markets, t, db, quoted, ev.orderId);
    hide QuotesOk, OrderedIn, InfosOfDb, UserOrders;
  }

  lemma UserStatusEvent(markets: Markets, t: Track, db: Db, quoted: Infos, stranded: map<Account, real>, rounds: Rounds, ev: EventView)
    requires DbOk(markets, t, db, quoted, stranded, rounds) && EventOk(OrderedIn(db, quoted), t, ev)
    requires AboutOne(ev) && ev.orderId in UserOrders(db.orders)
    ensures var db', s := Handled(markets, db, ev), StrandedAfter(markets, UserOrders(db.orders), stranded, ev);
            DbOk(markets, Apply(t, ev), db', quoted, s, RoundsAfter(markets, UserOrders(db.orders), rounds, ev))
            && OrderedIn(db', quoted) == OrderedIn(db, quoted)
  {
    hide Handled, StrandedAfter, Covered, RowsOk, QuotesOk, Idle, Nonneg, EventOk, Apply, InfosOfDb, StatusSet, MarginUnlocked, OrderedIn,
         UserOrders, SameLocks;
    EventAmongUsers(markets, t, db, quoted, ev);
    UserEventHandled(markets, t, UserDb(db), stranded, rounds, ev);
    UserEventSame(markets, db, ev);
    var status := AboutOneIs(markets, db, ev);
    StatusQuotes(markets, t, Apply(t, ev), db.orders, quoted, ev.orderId, status);
    if ev.orderId in db.orders {
      ReleaseIdle(markets, db.balances, db.orders[ev.orderId]);
    }
    OrderedSame(db, Handled(markets, db, ev), quoted);
  }

  lemma OrderedSame(db: Db, db': Db, quoted: Infos)
    requires InfosOfDb(UserDb(db')) == InfosOfDb(UserDb(db))
    ensures OrderedIn(db', quoted) == OrderedIn(db, quoted)
  {
  }

  lemma EventOfProvider(markets: Markets, t: Track, db: Db, quoted: Infos, stranded: map<Account, real>, ev: EventView)
    requires QuotesOk(markets, t, db.orders, quoted) && AboutOne(ev) && ev.orderId in quoted
    ensures ev.orderId !in UserOrders(db.orders)
    ensures ev.orderId in db.orders ==> db.orders[ev.orderId].userId == EXTERNAL_USER_ID
    ensures var u := Apply(t, ev); u.filled == t.filled && t.closed <= u.closed <= t.closed + {ev.orderId}
    ensures StrandedAfter(markets, UserOrders(db.orders), stranded, ev) == stranded
    ensures forall id :: FilledOf(Apply(t, ev), id) == FilledOf(t, id)
  {
    hide IsUuid;
  }

  /** An event about an order of the provider leaves the users' part as it is. */
  lemma QuoteStatusEvent(markets: Markets, t: Track, db: Db, quoted: Infos, stranded: map<Account, real>, rounds: Rounds, ev: EventView)
    requires DbOk(markets, t, db, quoted, stranded, rounds) && EventOk(OrderedIn(db, quoted), t, ev)
    requires AboutOne(ev) && ev.orderId in quoted
    ensures var db', s := Handled(markets, db, ev), StrandedAfter(markets, UserOrders(db.orders), stranded, ev);
            DbOk(markets, Apply(t, ev), db', quoted, s, RoundsAfter(markets, UserOrders(db.orders), rounds, ev))
            && OrderedIn(db', quoted) == OrderedIn(db, quoted)
  {
    hide Handled, StrandedAfter, Covered, RowsOk, QuotesOk, Idle, Nonneg, EventOk, Apply, InfosOfDb, StatusSet, MarginUnlocked, OrderedIn,
         UserOrders, SameLocks, FilledOf;
    var u := Apply(t, ev);
    EventOfProvider(markets, t, db, quoted, stranded, ev);
    var status := AboutOneIs(markets, db, ev);
    var db' := Handled(markets, db, ev);
    StatusQuotes(markets, t, u, db.orders, quoted, ev.orderId, status);
    StatusUsers(db.orders, ev.orderId, status);
    NoSuchRow(UserOrders(db.orders), ev.orderId, status);
    if ev.orderId in db.orders {
      ReleaseIdle(markets, db.balances, db.orders[ev.orderId]);
    }
    SameLocksSelf(db.balances);
    CoveredFrame(markets, t, u, UserDb(db), db'.balances, stranded, rounds);
    RowsFrame(markets, t, u, UserOrders(db.orders));
    SameUserOrders(db, db', quoted);
  }

  lemma SameUserOrders(db: Db, db': Db, quoted: Infos)
    requires UserOrders(db'.orders) == UserOrders(db.orders)
    ensures OrderedIn(db', quoted) == OrderedIn(db, quoted)
  {
    hide UserOrders;
  }

  lemma NoSuchRow(orders: map<string, OrderRow>, id: string, status: OrderStatus)
    requires id !in orders
    ensures StatusSet(orders, id, status) == orders
  {
  }

  lemma SameLocksSelf(b: Balances)
    ensures SameLocks(b, b)
  {
  }

  // ----- trades -----

  /** One side of a trade: an order of a user that is ready for it, or an order of the provider. */
  ghost predicate SideReady(t: Track, orders: map<string, OrderRow>, quoted: Infos, id: string, userId: string, side: Side, tr: TradeView) {
    if id in quoted then userId == EXTERNAL_USER_ID && id !in orders && quoted[id].market == tr.market && quoted[id].side == side
    else userId != EXTERNAL_USER_ID && Ready(t, orders, id, side, tr)
  }

  lemma TradeSide(markets: Markets, t: Track, db: Db, quoted: Infos, id: string, userId: string, side: Side, tr: TradeView)
    requires QuotesOk(markets, t, db.orders, quoted) && RowsOk(markets, t, UserOrders(db.orders))
    requires FillOk(OrderedIn(db, quoted), t, id, userId, side, tr)
    ensures SideReady(t, UserOrders(db.orders), quoted, id, userId, side, tr)
    ensures id !in quoted ==> tr.market in markets
    ensures OrderedIn(db, quoted)[id].limit == Some(tr.price) ==> tr.price > 0.0
  {
    OrderedUser(markets, t, db, quoted, id);
    hide IsUuid, OrderedIn;
    if id !in quoted {
      assert RowOk(markets, t, id, UserOrders(db.orders)[id]);
    }
  }

  lemma TradeSides(markets: Markets, t: Track, db: Db, quoted: Infos, tr: TradeView)
    requires QuotesOk(markets, t, db.orders, quoted) && RowsOk(markets, t, UserOrders(db.orders))
    requires EventOk(OrderedIn(db, quoted), t, Traded(tr))
    ensures var users := UserOrders(db.orders);
            && SideReady(t, users, quoted, tr.takerOrderId, tr.takerUserId, tr.takerSide, tr)
            && SideReady(t, users, quoted, tr.makerOrderId, tr.makerUserId, Opposite(tr.takerSide), tr)
            && tr.takerOrderId != tr.makerOrderId && tr.price > 0.0 && tr.quantity > 0.0
            && (tr.takerOrderId !in quoted || tr.makerOrderId !in quoted ==> tr.market in markets)
  {
    hide OrderedIn, QuotesOk, RowsOk;
    TradeSide(markets, t, db, quoted, tr.takerOrderId, tr.takerUserId, tr.takerSide, tr);
    TradeSide(markets, t, db, quoted, tr.makerOrderId, tr.makerUserId, Opposite(tr.takerSide), tr);
  }

  /** Both order rows of the trade, after the provider's missing ones have been added. */
  lemma TradeRowsThere(markets: Markets, t: Track, db: Db, quoted: Infos, tr: TradeView)
    requires QuotesOk(markets, t, db.orders, quoted) && RowsOk(markets, t, UserOrders(db.orders))
    requires EventOk(OrderedIn(db, quoted), t, Traded(tr)) && tr.market in markets
    ensures ExternalIdsReadable(tr)
    ensures var rows := WithExternalRows(db.orders, tr);
            && tr.takerOrderId in rows && tr.makerOrderId in rows
            && SideRow(markets, UserOrders(db.orders), tr.takerOrderId, rows[tr.takerOrderId], tr.takerSide, tr)
            && SideRow(markets, UserOrders(db.orders), tr.makerOrderId, rows[tr.makerOrderId], Opposite(tr.takerSide), tr)
  {
    TradeSides(markets, t, db, quoted, tr);
    hide IsUuid, OrderedIn, EventOk;
    if tr.takerOrderId !in quoted {
      assert RowOk(markets, t, tr.takerOrderId, UserOrders(db.orders)[tr.takerOrderId]);
    }
    if tr.makerOrderId !in quoted {
      assert RowOk(markets, t, tr.makerOrderId, UserOrders(db.orders)[tr.makerOrderId]);
    }
  }

  /** The row that one side of a settlement reads: a user's own row, or one of the provider. */
  ghost predicate SideRow(markets: Markets, orders: map<string, OrderRow>, id: string, row: OrderRow, side: Side, tr: TradeView) {
    && row.side == side && row.market == tr.market && row.market in markets && (side.Buy? ==> row.price.Some?)
    && (if id in orders then row == orders[id] else row.userId == EXTERNAL_USER_ID)
  }

  /** Settling and filling one side: a user's order as `FillCovered` says, one of the provider without touching any lock. */
  lemma SideCovered(markets: Markets, t: Track, db: Db, quoted: Infos, stranded: map<Account, real>, rounds: Rounds,
                    id: string, userId: string, row: OrderRow, side: Side, tr: TradeView, fee: real)
    requires Covered(markets, t, db, stranded, rounds) && AllSane(markets, db.orders) && Nonneg(stranded) && Idle(db.balances)
    requires SideReady(t, db.orders, quoted, id, userId, side, tr) && tr.price > 0.0
    requires SideRow(markets, db.orders, id, row, side, tr) && tr.market in markets
    ensures var c := SideSettled(db.balances, row, markets[tr.market], tr, fee);
            var s := StrandedByFill(markets, db.orders, stranded, id, tr);
            var db' := Db(c, TradeApplied(db.orders, id, tr.quantity, tr.price));
            && Covered(markets, t, db', s, CountedAt(markets, db.orders, rounds, id))
            && AllSane(markets, db'.orders) && Nonneg(s) && Idle(c)
    ensures id !in db.orders ==> SameLocks(db.balances, SideSettled(db.balances, row, markets[tr.market], tr, fee))
  {
    hide SideSettled, Covered, AllSane, FillDebit, Ledgers.Filled, Improvement, LockedOf, Taken, Remaining, Within;
    var a := ReserveAccount(markets, row);
    var c := SideSettled(db.balances, row, markets[tr.market], tr, fee);
    SideShifts(markets, db.balances, row, tr, fee);
    if id in db.orders {
      SaneUser(markets, db.orders, id);
      FillCovered(markets, t, db, c, stranded, rounds, id, tr.quantity, tr.price);
      StaysIdle(db.balances, c, a, Taken(db.balances, a, FillDebit(row, tr.quantity, tr.price)));
    } else {
      IdleTakes(db.balances, c, a, FillDebit(row, tr.quantity, tr.price));
      CoveredFrame(markets, t, t, db, c, stranded, rounds);
    }
  }

  lemma SaneUser(markets: Markets, orders: map<string, OrderRow>, id: string)
    requires AllSane(markets, orders) && id in orders
    ensures orders[id].userId != EXTERNAL_USER_ID && orders[id].market in markets
  {
    assert RowSane(markets, orders[id]);
  }

  lemma SettledSides(markets: Markets, b: Balances, rows: map<string, OrderRow>, tr: TradeView)
    requires tr.market in markets && tr.takerOrderId in rows && tr.makerOrderId in rows
    requires rows[tr.takerOrderId].side == tr.takerSide && rows[tr.makerOrderId].side == Opposite(tr.takerSide)
    ensures var m := markets[tr.market];
            var b1 := SideSettled(b, rows[tr.takerOrderId], m, tr, Fee(tr, m.takerFeeBps));
            Settled(markets, b, rows, tr)
            == if tr.makerUserId == EXTERNAL_USER_ID then b1 else SideSettled(b1, rows[tr.makerOrderId], m, tr, Fee(tr, m.makerFeeBps))
  {
    hide BuyerSettled, SellerSettled, Fee;
  }

  /** Both sides of a settlement, with the fills of the users' rows. */
  lemma SettlementCovered(markets: Markets, t: Track, db: Db, quoted: Infos, stranded: map<Account, real>, rounds: Rounds,
                          rows: map<string, OrderRow>, tr: TradeView)
    requires Covered(markets, t, db, stranded, rounds) && AllSane(markets, db.orders) && Nonneg(stranded) && Idle(db.balances)
    requires SideReady(t, db.orders, quoted, tr.takerOrderId, tr.takerUserId, tr.takerSide, tr)
    requires SideReady(t, db.orders, quoted, tr.makerOrderId, tr.makerUserId, Opposite(tr.takerSide), tr)
    requires tr.takerOrderId != tr.makerOrderId && tr.price > 0.0 && tr.market in markets
    requires tr.takerOrderId in rows && SideRow(markets, db.orders, tr.takerOrderId, rows[tr.takerOrderId], tr.takerSide, tr)
    requires tr.makerOrderId in rows && SideRow(markets, db.orders, tr.makerOrderId, rows[tr.makerOrderId], Opposite(tr.takerSide), tr)
    ensures var orders := TradeApplied(TradeApplied(db.orders, tr.takerOrderId, tr.quantity, tr.price),
                                       tr.makerOrderId, tr.quantity, tr.price);
            var c, s := Settled(markets, db.balances, rows, tr), StrandedByTrade(markets, db.orders, stranded, tr);
            Covered(markets, t, Db(c, orders), s, RoundsAfter(markets, db.orders, rounds, Traded(tr))) && Nonneg(s) && Idle(c)
  {
    hide SideSettled, Covered, AllSane, Ledgers.Filled, Improvement, LockedOf, Fee, Settled, Nonneg, Idle, Ready, SameLocks;
    var m, taker, maker := markets[tr.market], rows[tr.takerOrderId], rows[tr.makerOrderId];
    var fee := Fee(tr, m.takerFeeBps);
    SettledSides(markets, db.balances, rows, tr);
    SideCovered(markets, t, db, quoted, stranded, rounds, tr.takerOrderId, tr.takerUserId, taker, tr.takerSide, tr, fee);
    var db1 := Db(SideSettled(db.balances, taker, m, tr, fee), TradeApplied(db.orders, tr.takerOrderId, tr.quantity, tr.price));
    var s1 := StrandedByFill(markets, db.orders, stranded, tr.takerOrderId, tr);
    var rounds1 := CountedAt(markets, db.orders, rounds, tr.takerOrderId);
    OtherReady(t, db.orders, quoted, tr);
    if tr.makerUserId != EXTERNAL_USER_ID {
      SideCovered(markets, t, db1, quoted, s1, rounds1, tr.makerOrderId, tr.makerUserId, maker, Opposite(tr.takerSide), tr,
                  Fee(tr, m.makerFeeBps));
      assert StrandedByFill(markets, db1.orders, s1, tr.makerOrderId, tr) == StrandedByFill(markets, db.orders, s1, tr.makerOrderId, tr);
    }
  }

  /** Filling the taker's row leaves the maker's side ready. */
  lemma OtherReady(t: Track, orders: map<string, OrderRow>, quoted: Infos, tr: TradeView)
    requires tr.takerOrderId != tr.makerOrderId
    requires SideReady(t, orders, quoted, tr.makerOrderId, tr.makerUserId, Opposite(tr.takerSide), tr)
    ensures var after := TradeApplied(orders, tr.takerOrderId, tr.quantity, tr.price);
            SideReady(t, after, quoted, tr.makerOrderId, tr.makerUserId, Opposite(tr.takerSide), tr)
  {
    hide Ledgers.Filled;
  }

  /** The rows after a trade, one by one: existing ones filled if they are part of it, the provider's missing ones added. */
  lemma RowAfterTrade(markets: Markets, db: Db, tr: TradeView, id: string)
    requires tr.market in markets && ExternalIdsReadable(tr) && tr.makerOrderId != tr.takerOrderId
    requires tr.takerOrderId in WithExternalRows(db.orders, tr) && tr.makerOrderId in WithExternalRows(db.orders, tr)
    ensures var after := TradeHandled(markets, db, tr).orders;
            && (id in after <==> id in db.orders || id == tr.takerOrderId || id == tr.makerOrderId)
            && (id in db.orders ==>
                  after[id] == if id == tr.takerOrderId || id == tr.makerOrderId
                               then Ledgers.Filled(db.orders[id], tr.quantity, tr.price) else db.orders[id])
            && (id in after && id !in db.orders ==>
                  if id == tr.takerOrderId then tr.takerUserId == EXTERNAL_USER_ID && after[id] == ExternalRow(tr, tr.takerSide)
                  else tr.makerUserId == EXTERNAL_USER_ID && after[id] == ExternalRow(tr, Opposite(tr.takerSide)))
  {
    hide IsUuid, Settled, Ledgers.Filled, ExternalRow;
  }

  lemma UsersAfterTrade(markets: Markets, db: Db, tr: TradeView)
    requires tr.market in markets && ExternalIdsReadable(tr) && tr.makerOrderId != tr.takerOrderId
    requires tr.takerOrderId in WithExternalRows(db.orders, tr) && tr.makerOrderId in WithExternalRows(db.orders, tr)
    ensures UserOrders(TradeHandled(markets, db, tr).orders)
         == TradeApplied(TradeApplied(UserOrders(db.orders), tr.takerOrderId, tr.quantity, tr.price),
                         tr.makerOrderId, tr.quantity, tr.price)
  {
    hide TradeHandled, WithExternalRows, ExternalIdsReadable;
    var after, users := TradeHandled(markets, db, tr).orders, UserOrders(db.orders);
    var filled := TradeApplied(TradeApplied(users, tr.takerOrderId, tr.quantity, tr.price), tr.makerOrderId, tr.quantity, tr.price);
    forall id
      ensures id in UserOrders(after) <==> id in filled
      ensures id in filled && id in after ==> after[id] == filled[id]
    {
      RowAfterTrade(markets, db, tr, id);
    }
  }

  lemma QuotesAfterTrade(markets: Markets, t: Track, db: Db, quoted: Infos, tr: TradeView)
    requires QuotesOk(markets, t, db.orders, quoted) && tr.market in markets && ExternalIdsReadable(tr)
    requires tr.makerOrderId != tr.takerOrderId
    requires tr.takerOrderId in WithExternalRows(db.orders, tr) && tr.makerOrderId in WithExternalRows(db.orders, tr)
    requires SideReady(t, UserOrders(db.orders), quoted, tr.takerOrderId, tr.takerUserId, tr.takerSide, tr)
    requires SideReady(t, UserOrders(db.orders), quoted, tr.makerOrderId, tr.makerUserId, Opposite(tr.takerSide), tr)
    ensures QuotesOk(markets, Apply(t, Traded(tr)), TradeHandled(markets, db, tr).orders, quoted)
  {
    hide TradeHandled, WithExternalRows, ExternalIdsReadable, IsUuid, Apply, FilledOf, Ready;
    TradeFills(t, tr);
    var u, after := Apply(t, Traded(tr)), TradeHandled(markets, db, tr).orders;
    forall id
      ensures id in quoted && id in after ==> QuoteRow(markets, u, id, after[id], quoted[id])
      ensures id in after && after[id].userId == EXTERNAL_USER_ID ==> id in quoted
      ensures id in quoted && id !in after && quoted[id].market in markets ==> FilledOf(u, id) == 0.0
    {
      RowAfterTrade(markets, db, tr, id);
    }
  }

  lemma RowsAfterFills(markets: Markets, t: Track, users: map<string, OrderRow>, quoted: Infos, tr: TradeView)
    requires RowsOk(markets, t, users) && tr.takerOrderId != tr.makerOrderId && tr.quantity > 0.0
    requires SideReady(t, users, quoted, tr.takerOrderId, tr.takerUserId, tr.takerSide, tr)
    requires SideReady(t, users, quoted, tr.makerOrderId, tr.makerUserId, Opposite(tr.takerSide), tr)
    ensures var after := TradeApplied(TradeApplied(users, tr.takerOrderId, tr.quantity, tr.price), tr.makerOrderId, tr.quantity, tr.price);
            && RowsOk(markets, Apply(t, Traded(tr)), after)
            && after.Keys == users.Keys && forall id | id in users :: InfoOfRow(after[id]) == InfoOfRow(users[id])
  {
    hide Apply, FilledOf, Ledgers.Filled, RowOk, InfoOfRow;
    TradeFills(t, tr);
    var u := Apply(t, Traded(tr));
    var after := TradeApplied(TradeApplied(users, tr.takerOrderId, tr.quantity, tr.price), tr.makerOrderId, tr.quantity, tr.price);
    forall id | id in users
      ensures RowOk(markets, u, id, after[id]) && InfoOfRow(after[id]) == InfoOfRow(users[id])
    {
      var o := users[id];
      assert RowOk(markets, t, id, o);
      if id == tr.takerOrderId || id == tr.makerOrderId {
        FilledRowOk(markets, t, u, id, o, tr.quantity, tr.price);
      } else {
        UntouchedRowOk(markets, t, u, id, o);
      }
    }
  }

  /** A trade in a market without a row is between two orders of the provider, and nothing is recorded of it. */
  lemma UnlistedTrade(markets: Markets, t: Track, db: Db, quoted: Infos, stranded: map<Account, real>, rounds: Rounds, tr: TradeView)
    requires DbOk(markets, t, db, quoted, stranded, rounds) && EventOk(OrderedIn(db, quoted), t, Traded(tr)) && tr.market !in markets
    ensures TradeHandled(markets, db, tr) == db
    ensures StrandedByTrade(markets, UserOrders(db.orders), stranded, tr) == stranded
    ensures RoundsAfter(markets, UserOrders(db.orders), rounds, Traded(tr)) == rounds
    ensures DbOk(markets, Apply(t, Traded(tr)), db, quoted, stranded, rounds)
  {
    hide Covered, Nonneg, Idle, FilledOf, Apply, OrderedIn, EventOk, QuotesOk, RowsOk, UserOrders, SameLocks, TradeHandled, StrandedByTrade;
    var u := Apply(t, Traded(tr));
    TradeSides(markets, t, db, quoted, tr);
    TradeFills(t, tr);
    UnlistedQuotes(markets, t, db, quoted, stranded, tr);
    RowsFrame(markets, t, u, UserOrders(db.orders));
    SameLocksSelf(db.balances);
    CoveredFrame(markets, t, u, UserDb(db), db.balances, stranded, rounds);
  }

  lemma UnlistedQuotes(markets: Markets, t: Track, db: Db, quoted: Infos, stranded: map<Account, real>, tr: TradeView)
    requires QuotesOk(markets, t, db.orders, quoted) && tr.market !in markets && tr.takerOrderId != tr.makerOrderId
    requires tr.takerOrderId in quoted && quoted[tr.takerOrderId].market == tr.market
    requires tr.makerOrderId in quoted && quoted[tr.makerOrderId].market == tr.market
    ensures TradeHandled(markets, db, tr) == db
    ensures StrandedByTrade(markets, UserOrders(db.orders), stranded, tr) == stranded
    ensures QuotesOk(markets, Apply(t, Traded(tr)), db.orders, quoted)
  {
    hide IsUuid, Apply, FilledOf;
    TradeFills(t, tr);
    var u := Apply(t, Traded(tr));
    forall id | id in quoted && id in db.orders
      ensures QuoteRow(markets, u, id, db.orders[id], quoted[id])
    {
      assert QuoteRow(markets, t, id, db.orders[id], quoted[id]);
    }
  }

  /** A trade, whoever its two sides are. */
  lemma TradeEvent(markets: Markets, t: Track, db: Db, quoted: Infos, stranded: map<Account, real>, rounds: Rounds, tr: TradeView)
    requires DbOk(markets, t, db, quoted, stranded, rounds) && EventOk(OrderedIn(db, quoted), t, Traded(tr))
    ensures var db', s := TradeHandled(markets, db, tr), StrandedByTrade(markets, UserOrders(db.orders), stranded, tr);
            DbOk(markets, Apply(t, Traded(tr)), db', quoted, s, RoundsAfter(markets, UserOrders(db.orders), rounds, Traded(tr)))
            && OrderedIn(db', quoted) == OrderedIn(db, quoted)
  {
    hide RowsOk, Covered, Nonneg, QuotesOk, Idle, OrderedIn, EventOk, SideReady, SideRow, ExternalIdsReadable, Settled, Apply, TradeHandled,
         WithExternalRows, TradeApplied, StrandedByTrade, UserOrders, InfoOfRow;
    if tr.market in markets {
      var users, u, db' := UserOrders(db.orders), Apply(t, Traded(tr)), TradeHandled(markets, db, tr);
      TradeSides(markets, t, db, quoted, tr);
      TradeRowsThere(markets, t, db, quoted, tr);
      var rows := WithExternalRows(db.orders, tr);
      RowsSane(markets, t, users);
      SettlementCovered(markets, t, UserDb(db), quoted, stranded, rounds, rows, tr);
      UsersAfterTrade(markets, db, tr);
      QuotesAfterTrade(markets, t, db, quoted, tr);
      RowsAfterFills(markets, t, users, quoted, tr);
      TradeBalances(markets, db, tr);
      TradeCloses(t, tr);
      var s := StrandedByTrade(markets, users, stranded, tr);
      SameLocksSelf(db'.balances);
      CoveredFrame(markets, t, u, UserDb(db'), db'.balances, s, RoundsAfter(markets, users, rounds, Traded(tr)));
      SameOrdered(db, db', quoted);
    } else {
      UnlistedTrade(markets, t, db, quoted, stranded, rounds, tr);
    }
  }

  lemma TradeBalances(markets: Markets, db: Db, tr: TradeView)
    requires tr.market in markets && ExternalIdsReadable(tr)
    requires tr.takerOrderId in WithExternalRows(db.orders, tr) && tr.makerOrderId in WithExternalRows(db.orders, tr)
    ensures TradeHandled(markets, db, tr).balances == Settled(markets, db.balances, WithExternalRows(db.orders, tr), tr)
  {
    hide Settled, WithExternalRows, ExternalIdsReadable;
  }

  lemma TradeCloses(t: Track, tr: TradeView)
    ensures Apply(t, Traded(tr)).closed == t.closed
  {
  }

  lemma SameOrdered(db: Db, db': Db, quoted: Infos)
    requires UserOrders(db'.orders).Keys == UserOrders(db.orders).Keys
    requires forall id | id in UserOrders(db.orders) :: InfoOfRow(UserOrders(db'.orders)[id]) == InfoOfRow(UserOrders(db.orders)[id])
    ensures OrderedIn(db', quoted) == OrderedIn(db, quoted)
  {
    hide UserOrders, InfoOfRow;
    assert InfosOfDb(UserDb(db')) == InfosOfDb(UserDb(db));
  }

  /** Every handler keeps the users' part covered and in step with the events, and the provider's rows too. */
  lemma EventHandled(markets: Markets, t: Track, db: Db, quoted: Infos, stranded: map<Account, real>, rounds: Rounds, ev: EventView)
    requires DbOk(markets, t, db, quoted, stranded, rounds) && EventOk(OrderedIn(db, quoted), t, ev)
    ensures var db', s := Handled(markets, db, ev), StrandedAfter(markets, UserOrders(db.orders), stranded, ev);
            DbOk(markets, Apply(t, ev), db', quoted, s, RoundsAfter(markets, UserOrders(db.orders), rounds, ev))
            && OrderedIn(db', quoted) == OrderedIn(db, quoted)
  {
    if AboutOne(ev) {
      AboutOrdered(db, quoted, t, ev);
      hide DbOk, OrderedIn, Handled, StrandedAfter, Apply, EventOk, UserOrders;
      if ev.orderId in quoted {
        QuoteStatusEvent(markets, t, db, quoted, stranded, rounds, ev);
      } else {
        UserStatusEvent(markets, t, db, quoted, stranded, rounds, ev);
      }
    } else if ev.Traded? {
      hide DbOk, OrderedIn, TradeHandled, StrandedByTrade, Apply, EventOk, UserOrders;
      TradeEvent(markets, t, db, quoted, stranded, rounds, ev.trade);
    } else {
      hide OrderedIn, UserOrders, Covered, QuotesOk, RowsOk, Nonneg, Idle;
    }
  }

  lemma AboutOrdered(db: Db, quoted: Infos, t: Track, ev: EventView)
    requires AboutOne(ev) && EventOk(OrderedIn(db, quoted), t, ev)
    ensures ev.orderId in quoted || ev.orderId in UserOrders(db.orders)
  {
  }

  // ----- what a settlement takes -----

  /** One side takes what it asks, or all there is. */
  lemma SideTakes(markets: Markets, b: Balances, orders: map<string, OrderRow>, id: string, row: OrderRow, side: Side, tr: TradeView,
                  fee: real, a: Account)
    requires SideRow(markets, orders, id, row, side, tr) && tr.market in markets && Idle(b) && LockedOf(b, a) >= 0.0
    requires SideAsks(markets, orders, id, tr, a) >= 0.0
    ensures var c := SideSettled(b, row, markets[tr.market], tr, fee);
            LockedOf(c, a) == LockedOf(b, a) - Lesser(LockedOf(b, a), SideAsks(markets, orders, id, tr, a))
  {
    hide SideSettled, FillDebit, LockedOf, Taken, ReserveAccount;
    var x, debit := ReserveAccount(markets, row), FillDebit(row, tr.quantity, tr.price);
    var c := SideSettled(b, row, markets[tr.market], tr, fee);
    SideShifts(markets, b, row, tr, fee);
    if id in orders {
      if a == x {
        TakenIs(b, x, debit);
      }
    } else {
      ProvidersAccount(markets, row);
      IdleTakes(b, c, x, debit);
    }
  }

  lemma ProvidersAccount(markets: Markets, row: OrderRow)
    requires row.market in markets
    ensures ReserveAccount(markets, row).userId == row.userId
  {
  }

  /** A settlement takes what it asks of an account, or all that is locked there. */
  lemma SettlementTakes(markets: Markets, t: Track, b: Balances, orders: map<string, OrderRow>, quoted: Infos,
                        rows: map<string, OrderRow>, tr: TradeView, a: Account)
    requires AllSane(markets, orders) && Idle(b) && LockedOf(b, a) >= 0.0
    requires SideReady(t, orders, quoted, tr.takerOrderId, tr.takerUserId, tr.takerSide, tr)
    requires SideReady(t, orders, quoted, tr.makerOrderId, tr.makerUserId, Opposite(tr.takerSide), tr)
    requires tr.price > 0.0 && tr.market in markets
    requires tr.takerOrderId in rows && SideRow(markets, orders, tr.takerOrderId, rows[tr.takerOrderId], tr.takerSide, tr)
    requires tr.makerOrderId in rows && SideRow(markets, orders, tr.makerOrderId, rows[tr.makerOrderId], Opposite(tr.takerSide), tr)
    ensures Asked(markets, orders, tr, a) >= 0.0
    ensures LockedOf(Settled(markets, b, rows, tr), a) == LockedOf(b, a) - Lesser(LockedOf(b, a), Asked(markets, orders, tr, a))
  {
    hide SideSettled, AllSane, LockedOf, Fee, Settled, SideAsks, Ready, Idle;
    var m := markets[tr.market];
    var b1 := SideSettled(b, rows[tr.takerOrderId], m, tr, Fee(tr, m.takerFeeBps));
    SettledSides(markets, b, rows, tr);
    SideAsksWithin(markets, t, orders, tr.takerOrderId, tr.takerSide, tr, a);
    SideAsksWithin(markets, t, orders, tr.makerOrderId, Opposite(tr.takerSide), tr, a);
    SideTakes(markets, b, orders, tr.takerOrderId, rows[tr.takerOrderId], tr.takerSide, tr, Fee(tr, m.takerFeeBps), a);
    SideStaysIdle(markets, b, orders, tr.takerOrderId, rows[tr.takerOrderId], tr.takerSide, tr, Fee(tr, m.takerFeeBps));
    if tr.makerUserId != EXTERNAL_USER_ID {
      SideTakes(markets, b1, orders, tr.makerOrderId, rows[tr.makerOrderId], Opposite(tr.takerSide), tr, Fee(tr, m.makerFeeBps), a);
    } else {
      NothingAsked(markets, orders, tr.makerOrderId, tr, a);
    }
  }

  lemma NothingAsked(markets: Markets, orders: map<string, OrderRow>, id: string, tr: TradeView, a: Account)
    requires id !in orders
    ensures SideAsks(markets, orders, id, tr, a) == 0.0
  {
  }

  lemma SideStaysIdle(markets: Markets, b: Balances, orders: map<string, OrderRow>, id: string, row: OrderRow, side: Side,
                      tr: TradeView, fee: real)
    requires SideRow(markets, orders, id, row, side, tr) && tr.market in markets && Idle(b)
    ensures Idle(SideSettled(b, row, markets[tr.market], tr, fee))
  {
    hide SideSettled, FillDebit, LockedOf, Taken, ReserveAccount;
    var x, debit := ReserveAccount(markets, row), FillDebit(row, tr.quantity, tr.price);
    var c := SideSettled(b, row, markets[tr.market], tr, fee);
    SideShifts(markets, b, row, tr, fee);
    ProvidersAccount(markets, row);
    if row.userId == EXTERNAL_USER_ID {
      IdleTakes(b, c, x, debit);
    } else {
      StaysIdle(b, c, x, Taken(b, x, debit));
    }
  }

  // ----- what any event takes -----

  /** The status in which a rejection, or a cancellation, finds nothing to release any more. */
  ghost predicate Spent(ev: EventView, status: OrderStatus) {
    status.Filled? || status.Expired? || (ev.TurnedDown? && status.Canceled?) || (ev.Withdrawn? && status.Rejected?)
  }

  /** What an event asks of the locked balance of account `a`: the debits of a trade, the release of an order. */
  ghost function AskedBy(markets: Markets, orders: map<string, OrderRow>, ev: EventView, a: Account): real {
    if ev.Traded? then Asked(markets, orders, ev.trade, a)
    else if (ev.TurnedDown? || ev.Withdrawn?) && ev.orderId in orders && orders[ev.orderId].market in markets
            && a == ReserveAccount(markets, orders[ev.orderId]) && !Spent(ev, orders[ev.orderId].status)
    then ReserveAmount(orders[ev.orderId])
    else 0.0
  }

  lemma ReleaseTakes(markets: Markets, b: Balances, o: OrderRow, a: Account)
    requires RowSane(markets, o) && LockedOf(b, a) >= 0.0
    ensures ReserveAmount(o) >= 0.0
    ensures LockedOf(MarginUnlocked(markets, b, o), a)
         == LockedOf(b, a) - Lesser(LockedOf(b, a), if a == ReserveAccount(markets, o) then ReserveAmount(o) else 0.0)
  {
    hide MarginUnlocked, ReserveAmount, LockedOf, ReserveAccount, Taken;
    ReleaseWithinDue(markets, o);
    UnlockShifts(markets, b, o);
    if a == ReserveAccount(markets, o) {
      TakenIs(b, a, ReserveAmount(o));
    }
  }

  lemma ReleaseEventTakes(markets: Markets, t: Track, db: Db, quoted: Infos, ev: EventView, a: Account)
    requires QuotesOk(markets, t, db.orders, quoted) && RowsOk(markets, t, UserOrders(db.orders)) && Idle(db.balances)
    requires LockedOf(db.balances, a) >= 0.0 && (ev.TurnedDown? || ev.Withdrawn?)
    ensures AskedBy(markets, UserOrders(db.orders), ev, a) >= 0.0
    ensures LockedOf(Handled(markets, db, ev).balances, a)
         == LockedOf(db.balances, a) - Lesser(LockedOf(db.balances, a), AskedBy(markets, UserOrders(db.orders), ev, a))
  {
    var id := ev.orderId;
    if id in db.orders {
      var o := db.orders[id];
      ReleaseIdle(markets, db.balances, o);
      if o.userId != EXTERNAL_USER_ID {
        assert RowOk(markets, t, id, UserOrders(db.orders)[id]);
        ReleaseTakes(markets, db.balances, o, a);
      }
    }
    hide MarginUnlocked, ReserveAmount, LockedOf, ReserveAccount, IsUuid, QuotesOk, RowsOk, Idle;
  }

  lemma TradeEventTakes(markets: Markets, t: Track, db: Db, quoted: Infos, tr: TradeView, a: Account)
    requires QuotesOk(markets, t, db.orders, quoted) && RowsOk(markets, t, UserOrders(db.orders)) && Idle(db.balances)
    requires EventOk(OrderedIn(db, quoted), t, Traded(tr)) && LockedOf(db.balances, a) >= 0.0
    ensures Asked(markets, UserOrders(db.orders), tr, a) >= 0.0
    ensures LockedOf(TradeHandled(markets, db, tr).balances, a)
         == LockedOf(db.balances, a) - Lesser(LockedOf(db.balances, a), Asked(markets, UserOrders(db.orders), tr, a))
  {
    hide RowsOk, QuotesOk, Idle, OrderedIn, EventOk, SideRow, ExternalIdsReadable, Settled, TradeHandled, WithExternalRows,
         UserOrders, LockedOf, SideAsks, Ready;
    var users := UserOrders(db.orders);
    TradeSides(markets, t, db, quoted, tr);
    if tr.market in markets {
      TradeRowsThere(markets, t, db, quoted, tr);
      TradeBalances(markets, db, tr);
      RowsSane(markets, t, users);
      SettlementTakes(markets, t, db.balances, users, quoted, WithExternalRows(db.orders, tr), tr, a);
    } else {
      UnlistedHandled(markets, db, tr);
      NothingAsked(markets, users, tr.takerOrderId, tr, a);
      NothingAsked(markets, users, tr.makerOrderId, tr, a);
    }
  }

  lemma UnlistedHandled(markets: Markets, db: Db, tr: TradeView)
    requires tr.market !in markets
    ensures TradeHandled(markets, db, tr) == db
  {
  }

  /** Any event takes from any locked balance what it asks, or all there is. */
  lemma EventTakes(markets: Markets, t: Track, db: Db, quoted: Infos, stranded: map<Account, real>, rounds: Rounds, ev: EventView,
                   a: Account)
    requires DbOk(markets, t, db, quoted, stranded, rounds) && EventOk(OrderedIn(db, quoted), t, ev)
    ensures AskedBy(markets, UserOrders(db.orders), ev, a) >= 0.0
    ensures LockedOf(Handled(markets, db, ev).balances, a)
         == LockedOf(db.balances, a) - Lesser(LockedOf(db.balances, a), AskedBy(markets, UserOrders(db.orders), ev, a))
  {
    hide RowsOk, QuotesOk, Idle, OrderedIn, EventOk, TradeHandled, UserOrders, LockedOf, Asked, Owed, Slack, Unbounded, CloseTo;
    assert AccountCovered(markets, t, UserDb(db), stranded, rounds, a);
    if ev.Traded? {
      hide Handled;
      TradeIsHandled(markets, db, ev);
      TradeEventTakes(markets, t, db, quoted, ev.trade, a);
    } else if ev.TurnedDown? || ev.Withdrawn? {
      ReleaseEventTakes(markets, t, db, quoted, ev, a);
    }
  }

  lemma TradeIsHandled(markets: Markets, db: Db, ev: EventView)
    requires ev.Traded?
    ensures Handled(markets, db, ev) == TradeHandled(markets, db, ev.trade)
  {
    hide TradeHandled;
  }

  /** What is stranded never falls. */
  lemma EventStrands(markets: Markets, t: Track, db: Db, quoted: Infos, stranded: map<Account, real>, ev: EventView, a: Account)
    requires QuotesOk(markets, t, db.orders, quoted) && RowsOk(markets, t, UserOrders(db.orders))
    requires EventOk(OrderedIn(db, quoted), t, ev)
    ensures AmountIn(StrandedAfter(markets, UserOrders(db.orders), stranded, ev), a) >= AmountIn(stranded, a)
  {
    hide RowsOk, QuotesOk, OrderedIn, UserOrders, Improvement, Due, Ready;
    var users := UserOrders(db.orders);
    if ev.Traded? {
      TradeSides(markets, t, db, quoted, ev.trade);
      hide EventOk;
      RowsSane(markets, t, users);
      FillStrands(markets, t, users, quoted, stranded, ev.trade.takerOrderId, ev.trade.takerUserId, ev.trade.takerSide, ev.trade, a);
      FillStrands(markets, t, users, quoted, StrandedByFill(markets, users, stranded, ev.trade.takerOrderId, ev.trade),
                  ev.trade.makerOrderId, ev.trade.makerUserId, Opposite(ev.trade.takerSide), ev.trade, a);
    } else if ev.TurnedDown? && ev.orderId in users {
      RowsSane(markets, t, users);
      assert RowSane(markets, users[ev.orderId]);
      DueNonneg(markets, users[ev.orderId]);
    }
  }

  lemma FillStrands(markets: Markets, t: Track, users: map<string, OrderRow>, quoted: Infos, stranded: map<Account, real>,
                    id: string, userId: string, side: Side, tr: TradeView, a: Account)
    requires AllSane(markets, users) && SideReady(t, users, quoted, id, userId, side, tr) && tr.price > 0.0
    ensures AmountIn(StrandedByFill(markets, users, stranded, id, tr), a) >= AmountIn(stranded, a)
  {
    if id in users {
      assert RowSane(markets, users[id]);
      DebitWithinFreed(markets, users[id], tr.quantity, tr.price);
    }
    hide Improvement, RowSane, ReserveAccount;
  }

  /** On accounts without market buys an event asks at most what open orders reserve. */
  lemma AskedByWithin(markets: Markets, t: Track, db: Db, quoted: Infos, ev: EventView, a: Account)
    requires QuotesOk(markets, t, db.orders, quoted) && RowsOk(markets, t, UserOrders(db.orders))
    requires EventOk(OrderedIn(db, quoted), t, ev) && !Unbounded(markets, UserOrders(db.orders), a)
    ensures AskedBy(markets, UserOrders(db.orders), ev, a) <= ReservedTotal(markets, t, UserOrders(db.orders), a)
  {
    hide RowsOk, QuotesOk, OrderedIn, UserOrders, ReserveAmount, Due, Ready, ReservedTotal, Asked, Unbounded, RowSane, RowDust;
    var users := UserOrders(db.orders);
    RowsSane(markets, t, users);
    AllReservesNonneg(markets, t, users, a);
    if ev.Traded? {
      TradeSides(markets, t, db, quoted, ev.trade);
      AskedWithin(markets, t, users, ev.trade, a);
    } else if (ev.TurnedDown? || ev.Withdrawn?) && ev.orderId in users {
      SaneUser(markets, users, ev.orderId);
      assert RowSane(markets, users[ev.orderId]);
      ReleaseWithinDue(markets, users[ev.orderId]);
      DueWithin(markets, t, users, ev.orderId);
    }
  }
}
