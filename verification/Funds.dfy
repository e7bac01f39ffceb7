/**
 * Who is paid what: the available balance of every account, in closed form over each request and each event, and what
 * keeps it from being spent twice.
 */
module Funds {
  import opened Orders
  import opened Exchange
  import opened Discipline
  import opened Ledgers
  import opened Coverage
  import opened Margins
  import opened Providers
  import opened System
  import opened SystemRuns

  ghost function AvailableOf(b: Balances, a: Account): real {
    if a in b then b[a].available else 0.0
  }

  // ----- locking -----

  /** A positive amount is locked if and only if the account has that much available; then that much moves, and no other account. */
  lemma LockIff(b: Balances, a: Account, amount: real)
    ensures Locked(b, a, amount).Ok? <==> amount <= 0.0 || (a in b && amount <= b[a].available)
    ensures var r := Locked(b, a, amount);
            r.Ok? ==>
              && r.value.Keys == b.Keys
              && forall x :: AvailableOf(r.value, x) == AvailableOf(b, x) - (if x == a && amount > 0.0 then amount else 0.0)
                             && LockedOf(r.value, x) == LockedOf(b, x) + (if x == a && amount > 0.0 then amount else 0.0)
  {
  }

  /** Why a lock is refused. */
  lemma LockRefusedFor(b: Balances, a: Account, amount: real)
    requires Locked(b, a, amount).Err?
    ensures Locked(b, a, amount).error == if a in b then InsufficientBalance else BalanceNotFound
  {
  }

  /** A release gives back to the account what it takes off its locked balance, which is the amount or all there is. */
  lemma ReleaseMoves(b: Balances, a: Account, amount: real, x: Account)
    requires LockedOf(b, a) >= 0.0
    ensures var moved := if x == a && amount > 0.0 then Lesser(LockedOf(b, a), amount) else 0.0;
            && AvailableOf(Unlocked(b, a, amount), x) == AvailableOf(b, x) + moved
            && LockedOf(Unlocked(b, a, amount), x) == LockedOf(b, x) - moved
  {
  }

  lemma LesserIs(x: real, y: real)
    ensures Lesser(x, y) <= x && Lesser(x, y) <= y && (Lesser(x, y) == x || Lesser(x, y) == y)
  {
  }

  // ----- a trade -----

  /** The fee on a trade, at so many hundredths of a percent. */
  ghost function FeeAt(t: TradeView, bps: int): real {
    t.price * t.quantity * bps as real / 10000.0
  }

  lemma FeeIs(t: TradeView, bps: int)
    ensures Fee(t, bps) == FeeAt(t, bps)
  {
    FeeProduct(t.price, t.quantity, bps as real);
  }

  lemma FeeProduct(p: real, q: real, b: real)
    ensures p * (q * (b / 10000.0)) == p * q * b / 10000.0
  {
    var r := b / 10000.0;
    assert b == r * 10000.0;
    assert p * q * b == (p * (q * r)) * 10000.0;
  }

  /** Who buys and who sells. */
  ghost function Buyer(t: TradeView, taker: string, maker: string): string {
    if t.takerSide.Buy? then taker else maker
  }

  ghost function Seller(t: TradeView, taker: string, maker: string): string {
    if t.takerSide.Buy? then maker else taker
  }

  /** The buyer's fee and the seller's: the taker pays the taker's rate, the maker the maker's. */
  ghost function BuyFee(m: MarketRow, t: TradeView): real {
    FeeAt(t, if t.takerSide.Buy? then m.takerFeeBps else m.makerFeeBps)
  }

  ghost function SellFee(m: MarketRow, t: TradeView): real {
    FeeAt(t, if t.takerSide.Buy? then m.makerFeeBps else m.takerFeeBps)
  }

  /** The liquidity provider is not settled as maker. */
  ghost predicate BuyerIsSettled(t: TradeView) {
    t.takerSide.Buy? || t.makerUserId != EXTERNAL_USER_ID
  }

  ghost predicate SellerIsSettled(t: TradeView) {
    t.takerSide.Sell? || t.makerUserId != EXTERNAL_USER_ID
  }

  /** The buyer has a quote balance to take the fee from; the seller's proceeds may have just made one. */
  ghost predicate CanPayFee(b: Balances, m: MarketRow, t: TradeView, buyer: string, seller: string) {
    || Account(buyer, m.quoteAsset) in b
    || (t.takerSide.Sell? && (buyer == seller))
  }

  /**
   * What a trade does to what `x` has available: the buyer pays its fee in quote and gets the quantity in base, the seller
   * gets price times quantity in quote, less its fee. Everybody else keeps what they have.
   */
  ghost function TradeFlow(b: Balances, m: MarketRow, t: TradeView, buyer: string, seller: string, x: Account): real {
    (if BuyerIsSettled(t) && x == Account(buyer, m.quoteAsset) && CanPayFee(b, m, t, buyer, seller) then 0.0 - BuyFee(m, t) else 0.0)
    + (if BuyerIsSettled(t) && x == Account(buyer, m.baseAsset) then t.quantity else 0.0)
    + (if SellerIsSettled(t) && x == Account(seller, m.quoteAsset) then t.price * t.quantity - SellFee(m, t) else 0.0)
  }

  lemma CreditFlow(b: Balances, a: Account, amount: real, x: Account)
    ensures AvailableOf(Credited(b, a, amount), x) == AvailableOf(b, x) + (if x == a then amount else 0.0)
    ensures Credited(b, a, amount).Keys == b.Keys + {a}
  {
  }

  lemma DebitFlow(b: Balances, a: Account, amount: real, x: Account)
    ensures AvailableOf(AvailableDebited(b, a, amount), x) == AvailableOf(b, x) - (if x == a && a in b then amount else 0.0)
    ensures AvailableDebited(b, a, amount).Keys == b.Keys
    ensures AvailableOf(LockedDebited(b, a, amount), x) == AvailableOf(b, x) && LockedDebited(b, a, amount).Keys == b.Keys
  {
  }

  lemma BuyerFlow(b: Balances, o: OrderRow, m: MarketRow, t: TradeView, fee: real, x: Account)
    ensures var quote, base := Account(o.userId, m.quoteAsset), Account(o.userId, m.baseAsset);
            AvailableOf(BuyerSettled(b, o, m, t, fee), x)
            == AvailableOf(b, x) - (if x == quote && quote in b then fee else 0.0) + (if x == base then t.quantity else 0.0)
    ensures b.Keys <= BuyerSettled(b, o, m, t, fee).Keys
  {
    hide MarginOf, LockedDebited, AvailableDebited, Credited, AvailableOf;
    var quote, base := Account(o.userId, m.quoteAsset), Account(o.userId, m.baseAsset);
    var b1 := LockedDebited(b, quote, MarginOf(t.price, t.quantity, o.leverage));
    DebitFlow(b, quote, MarginOf(t.price, t.quantity, o.leverage), x);
    DebitFlow(b1, quote, fee, x);
    CreditFlow(AvailableDebited(b1, quote, fee), base, t.quantity, x);
  }

  lemma SellerFlow(b: Balances, o: OrderRow, m: MarketRow, t: TradeView, fee: real, x: Account)
    ensures var quote := Account(o.userId, m.quoteAsset);
            AvailableOf(SellerSettled(b, o, m, t, fee), x)
            == AvailableOf(b, x) + (if x == quote then t.price * t.quantity - fee else 0.0)
    ensures SellerSettled(b, o, m, t, fee).Keys == b.Keys + {Account(o.userId, m.quoteAsset)}
  {
    hide LockedDebited, Credited, AvailableOf;
    var quote, base := Account(o.userId, m.quoteAsset), Account(o.userId, m.baseAsset);
    DebitFlow(b, base, t.quantity, x);
    CreditFlow(LockedDebited(b, base, t.quantity), quote, Notional(t) - fee, x);
  }

  lemma FeesBySide(m: MarketRow, t: TradeView)
    ensures t.takerSide.Buy? ==> BuyFee(m, t) == FeeAt(t, m.takerFeeBps) && SellFee(m, t) == FeeAt(t, m.makerFeeBps)
    ensures t.takerSide.Sell? ==> BuyFee(m, t) == FeeAt(t, m.makerFeeBps) && SellFee(m, t) == FeeAt(t, m.takerFeeBps)
  {
    hide FeeAt;
  }

  /** Whatever the state and whoever trades: settling a trade pays exactly the flow, in every account. */
  lemma TradePays(markets: Markets, b: Balances, rows: map<string, OrderRow>, t: TradeView, x: Account)
    requires t.market in markets && t.takerOrderId in rows && t.makerOrderId in rows
    ensures var taker, maker := rows[t.takerOrderId].userId, rows[t.makerOrderId].userId;
            AvailableOf(Settled(markets, b, rows, t), x)
            == AvailableOf(b, x) + TradeFlow(b, markets[t.market], t, Buyer(t, taker, maker), Seller(t, taker, maker), x)
  {
    hide BuyerSettled, SellerSettled, Fee, FeeAt, AvailableOf, Notional, BuyFee, SellFee, CanPayFee, TradeFlow;
    var m, taker, maker := markets[t.market], rows[t.takerOrderId], rows[t.makerOrderId];
    FeeIs(t, m.takerFeeBps);
    FeeIs(t, m.makerFeeBps);
    FeesBySide(m, t);
    FlowIs(b, m, t, taker.userId, maker.userId, x);
    if t.takerSide.Buy? {
      var b1 := BuyerSettled(b, taker, m, t, Fee(t, m.takerFeeBps));
      BuyerFlow(b, taker, m, t, Fee(t, m.takerFeeBps), x);
      SellerFlow(b1, maker, m, t, Fee(t, m.makerFeeBps), x);
    } else {
      var b1 := SellerSettled(b, taker, m, t, Fee(t, m.takerFeeBps));
      SellerFlow(b, taker, m, t, Fee(t, m.takerFeeBps), x);
      BuyerFlow(b1, maker, m, t, Fee(t, m.makerFeeBps), x);
      assert Account(maker.userId, m.quoteAsset) in b1 <==> Account(maker.userId, m.quoteAsset) in b || maker.userId == taker.userId;
    }
  }

  /** The flow, by the side that takes. */
  lemma FlowIs(b: Balances, m: MarketRow, t: TradeView, taker: string, maker: string, x: Account)
    ensures var flow := TradeFlow(b, m, t, Buyer(t, taker, maker), Seller(t, taker, maker), x);
            var external, proceeds := t.makerUserId == EXTERNAL_USER_ID, t.price * t.quantity;
            if t.takerSide.Buy? then
              flow == (if x == Account(taker, m.quoteAsset) && Account(taker, m.quoteAsset) in b then 0.0 - BuyFee(m, t) else 0.0)
                      + (if x == Account(taker, m.baseAsset) then t.quantity else 0.0)
                      + (if !external && x == Account(maker, m.quoteAsset) then proceeds - SellFee(m, t) else 0.0)
            else
              flow == (if x == Account(taker, m.quoteAsset) then proceeds - SellFee(m, t) else 0.0)
                      + (if !external && x == Account(maker, m.quoteAsset) && (Account(maker, m.quoteAsset) in b || maker == taker)
                         then 0.0 - BuyFee(m, t) else 0.0)
                      + (if !external && x == Account(maker, m.baseAsset) then t.quantity else 0.0)
  {
    hide BuyFee, SellFee;
  }

  // ----- every event -----

  /** The rows a reachable state settles a trade with belong to the users the trade names. */
  lemma TradeUsers(markets: Markets, t: Track, db: Db, quoted: Infos, tr: TradeView)
    requires QuotesOk(markets, t, db.orders, quoted) && RowsOk(markets, t, UserOrders(db.orders))
    requires EventOk(OrderedIn(db, quoted), t, Traded(tr)) && tr.market in markets
    ensures var rows := WithExternalRows(db.orders, tr);
            && tr.takerOrderId in rows && rows[tr.takerOrderId].userId == tr.takerUserId
            && tr.makerOrderId in rows && rows[tr.makerOrderId].userId == tr.makerUserId
  {
    TradeRowsThere(markets, t, db, quoted, tr);
    TradeSides(markets, t, db, quoted, tr);
    OrderedUser(markets, t, db, quoted, tr.takerOrderId);
    OrderedUser(markets, t, db, quoted, tr.makerOrderId);
    hide QuotesOk, RowsOk, OrderedIn, IsUuid, WithExternalRows, UserOrders, Ready;
  }

  /**
   * What one event does to what `x` has available: a trade in a market that has a row pays its users, and a rejection or
   * cancellation gives back what it takes off the locked balance.
   */
  ghost function EventFlow(markets: Markets, s: Sys, ev: EventView, x: Account): real {
    if ev.Traded? then
      if ev.trade.market in markets then
        TradeFlow(s.db.balances, markets[ev.trade.market], ev.trade,
                  Buyer(ev.trade, ev.trade.takerUserId, ev.trade.makerUserId),
                  Seller(ev.trade, ev.trade.takerUserId, ev.trade.makerUserId), x)
      else 0.0
    else Lesser(LockedOf(s.db.balances, x), AskedBy(markets, Rows(s), ev, x))
  }

  lemma TradeEventPays(markets: Markets, t: Track, db: Db, quoted: Infos, tr: TradeView, x: Account)
    requires QuotesOk(markets, t, db.orders, quoted) && RowsOk(markets, t, UserOrders(db.orders))
    requires EventOk(OrderedIn(db, quoted), t, Traded(tr))
    ensures AvailableOf(TradeHandled(markets, db, tr).balances, x)
         == AvailableOf(db.balances, x)
          + (if tr.market in markets
             then TradeFlow(db.balances, markets[tr.market], tr, Buyer(tr, tr.takerUserId, tr.makerUserId),
                            Seller(tr, tr.takerUserId, tr.makerUserId), x)
             else 0.0)
  {
    hide RowsOk, QuotesOk, OrderedIn, EventOk, SideRow, ExternalIdsReadable, Settled, TradeHandled, WithExternalRows,
         UserOrders, AvailableOf, TradeFlow, Buyer, Seller;
    if tr.market in markets {
      TradeRowsThere(markets, t, db, quoted, tr);
      TradeUsers(markets, t, db, quoted, tr);
      TradeBalances(markets, db, tr);
      TradePays(markets, db.balances, WithExternalRows(db.orders, tr), tr, x);
    } else {
      UnlistedHandled(markets, db, tr);
    }
  }

  /** Releasing keeps available and locked together. */
  lemma ReleaseWorth(markets: Markets, b: Balances, o: OrderRow, x: Account)
    ensures AvailableOf(MarginUnlocked(markets, b, o), x) + LockedOf(MarginUnlocked(markets, b, o), x)
         == AvailableOf(b, x) + LockedOf(b, x)
  {
    hide ReserveAmount, ReserveAccount;
  }

  /** An event other than a trade leaves available and locked together what they were. */
  lemma WorthKept(markets: Markets, db: Db, ev: EventView, x: Account)
    requires !ev.Traded?
    ensures var c := Handled(markets, db, ev).balances;
            AvailableOf(c, x) + LockedOf(c, x) == AvailableOf(db.balances, x) + LockedOf(db.balances, x)
  {
    hide MarginUnlocked, AvailableOf, LockedOf, StatusSet;
    if (ev.TurnedDown? || ev.Withdrawn?) && ev.orderId in db.orders {
      ReleaseWorth(markets, db.balances, db.orders[ev.orderId], x);
    }
  }

  /** What a reachable state knows about the trade that is next. */
  lemma NextTrade(markets: Markets, s: Sys)
    requires Reachable(markets, s) && s.pending != [] && s.pending[0].Traded?
    ensures QuotesOk(markets, s.handled, s.db.orders, s.quoted) && RowsOk(markets, s.handled, UserOrders(s.db.orders))
    ensures EventOk(OrderedIn(s.db, s.quoted), s.handled, Traded(s.pending[0].trade))
    ensures s.pending[0].trade.price > 0.0 && s.pending[0].trade.quantity > 0.0
  {
    hide RowsOk, QuotesOk, Idle, Covered, OrderedIn, EventOk, EngineInv, NoneLost, LogOk, UserOrders;
    WriterTurnEvents(Ordered(s), markets, s);
    TradeSides(markets, s.handled, s.db, s.quoted, s.pending[0].trade);
  }

  lemma EventPays(markets: Markets, s: Sys, x: Account)
    requires Reachable(markets, s) && s.pending != []
    ensures AvailableOf(Do(markets, s, WriterTurn).db.balances, x)
         == AvailableOf(s.db.balances, x) + EventFlow(markets, s, s.pending[0], x)
  {
    hide Reachable, AskedBy, LockedOf, AvailableOf, RowsOk, QuotesOk, OrderedIn, EventOk, Do, Handled, TradeHandled, TradeFlow, Priced, Rows;
    var ev := s.pending[0];
    WriterBalances(markets, s);
    if ev.Traded? {
      NextTrade(markets, s);
      TradeIsHandled(markets, s.db, ev);
      TradeEventPays(markets, s.handled, s.db, s.quoted, ev.trade, x);
    } else {
      EventAsks(markets, s, x);
      WorthKept(markets, s.db, ev, x);
    }
  }

  // ----- every action -----

  /** What a placement request reserves from its user, and where. */
  ghost function Reserves(markets: Markets, i: PlaceInput, x: Account): real {
    if i.market !in markets then 0.0
    else if i.side.Buy? then
      if i.price.Some? && x == Account(i.userId, markets[i.market].quoteAsset)
      then MarginOf(i.price.value, i.quantity, if i.leverage.Some? then i.leverage.value else 1.0) else 0.0
    else if x == Account(i.userId, markets[i.market].baseAsset) then i.quantity else 0.0
  }

  /** What one action does to what `x` has available. */
  ghost function Flow(markets: Markets, s: Sys, a: Action, x: Account): real {
    match a
    case ApiPlace(i, id) => if Placement(markets, s.db, i, id).Created? then 0.0 - Reserves(markets, i, x) else 0.0
    case Deposit(account, amount) => if x == account && amount > 0.0 then amount else 0.0
    case Withdraw(account, amount) =>
      if x == account && amount > 0.0 && account in s.db.balances && amount <= AvailableOf(s.db.balances, account)
      then 0.0 - amount else 0.0
    case WriterTurn => if s.pending == [] then 0.0 else EventFlow(markets, s, s.pending[0], x)
    case _ => 0.0
  }

  lemma ReservationMoves(markets: Markets, b: Balances, i: PlaceInput, x: Account)
    requires i.market in markets && Ledgers.Reserved(markets, b, i).Ok? && LeverageOf(i) >= 0.0 && i.quantity > 0.0
    requires i.price.Some? ==> i.price.value > 0.0
    ensures var c := Ledgers.Reserved(markets, b, i).value;
            && AvailableOf(c, x) == AvailableOf(b, x) - Reserves(markets, i, x)
            && LockedOf(c, x) == LockedOf(b, x) + Reserves(markets, i, x)
            && Reserves(markets, i, x) >= 0.0 && (Reserves(markets, i, x) > 0.0 ==> AvailableOf(c, x) >= 0.0)
  {
    hide Quotient, Locked, AvailableOf, LockedOf;
    var m := markets[i.market];
    var a := if i.side.Buy? then Account(i.userId, m.quoteAsset) else Account(i.userId, m.baseAsset);
    var amount := if i.side.Buy? then MarginOf(i.price.value, i.quantity, LeverageOf(i)) else i.quantity;
    assert Ledgers.Reserved(markets, b, i) == Locked(b, a, amount);
    if i.side.Buy? {
      MarginRounds(i.price.value, i.quantity, LeverageOf(i));
    }
    ReservesIs(markets, i, x);
    LockIff(b, a, amount);
    if amount > 0.0 {
      StillAvailable(b, a, amount);
    }
  }

  lemma ReservesIs(markets: Markets, i: PlaceInput, x: Account)
    requires i.market in markets
    ensures i.side.Buy? && i.price.Some? ==>
              Reserves(markets, i, x) == if x == Account(i.userId, markets[i.market].quoteAsset)
                                         then MarginOf(i.price.value, i.quantity, LeverageOf(i)) else 0.0
    ensures i.side.Sell? ==>
              Reserves(markets, i, x) == if x == Account(i.userId, markets[i.market].baseAsset) then i.quantity else 0.0
  {
    hide MarginOf;
  }

  lemma StillAvailable(b: Balances, a: Account, amount: real)
    requires Locked(b, a, amount).Ok? && amount > 0.0
    ensures AvailableOf(Locked(b, a, amount).value, a) >= 0.0
  {
  }

  lemma PlacementMoves(markets: Markets, db: Db, i: PlaceInput, id: string, x: Account)
    requires Placement(markets, db, i, id).Created? && LeverageOf(i) >= 0.0
    ensures var c := Placement(markets, db, i, id).db.balances;
            && AvailableOf(c, x) == AvailableOf(db.balances, x) - Reserves(markets, i, x)
            && LockedOf(c, x) == LockedOf(db.balances, x) + Reserves(markets, i, x)
            && Reserves(markets, i, x) >= 0.0 && (Reserves(markets, i, x) > 0.0 ==> AvailableOf(c, x) >= 0.0)
  {
    PlacementIs(markets, db, i, id);
    PlacementPositive(markets, db, i, id);
    hide Placement, Ledgers.Reserved, Reserves, AvailableOf, LockedOf;
    ReservationMoves(markets, db.balances, i, x);
  }

  lemma PlacementPositive(markets: Markets, db: Db, i: PlaceInput, id: string)
    requires Placement(markets, db, i, id).Created?
    ensures i.quantity > 0.0 && (i.price.Some? ==> i.price.value > 0.0)
  {
    hide Ledgers.Reserved;
  }

  lemma FundsMove(b: Balances, a: Account, amount: real, x: Account)
    ensures AvailableOf(WithdrawnFrom(b, a, amount), x)
         == AvailableOf(b, x) - (if x == a && amount > 0.0 && a in b && amount <= AvailableOf(b, a) then amount else 0.0)
    ensures LockedOf(WithdrawnFrom(b, a, amount), x) == LockedOf(b, x)
    ensures LockedOf(Credited(b, a, amount), x) == LockedOf(b, x)
  {
  }

  /** Every action pays exactly its flow. */
  lemma ActionPays(markets: Markets, s: Sys, a: Action, x: Account)
    requires Reachable(markets, s) && Allowed(s, a)
    ensures AvailableOf(Do(markets, s, a).db.balances, x) == AvailableOf(s.db.balances, x) + Flow(markets, s, a, x)
  {
    hide Reachable, Placement, Reserves, AvailableOf, LockedOf, Credited, WithdrawnFrom, EventFlow, Step, Handled, StrandedAfter,
         RoundsAfter, CancelRequested, WellFormedOrder, IsUuid, InfoOf;
    match a
    case ApiPlace(i, id) =>
      if Placement(markets, s.db, i, id).Created? {
        PlacementMoves(markets, s.db, i, id, x);
      }
    case ApiCancel(id, userId) => CancelPaysNothing(s.db, id, userId);
    case Deposit(account, amount) => CreditFlow(s.db.balances, account, amount, x);
    case Withdraw(account, amount) => FundsMove(s.db.balances, account, amount, x);
    case WriterTurn =>
      if s.pending != [] {
        EventPays(markets, s, x);
      }
    case _ =>
  }

  lemma CancelPaysNothing(db: Db, id: string, userId: string)
    ensures CancelRequested(db, id, userId).Ok? ==> CancelRequested(db, id, userId).value.balances == db.balances
  {
  }

  // ----- every run -----

  ghost function Flows(markets: Markets, s: Sys, acts: seq<Action>, x: Account): real
    decreases |acts|
  {
    if acts == [] then 0.0 else Flow(markets, s, acts[0], x) + Flows(markets, Do(markets, s, acts[0]), acts[1..], x)
  }

  /** Over every run each account has what its deposits, withdrawals, reservations, releases, trades and fees make of it. */
  lemma {:induction false} RunPays(markets: Markets, s: Sys, acts: seq<Action>, x: Account)
    requires Reachable(markets, s) && AllAllowed(markets, s, acts)
    ensures AvailableOf(Exec(markets, s, acts).db.balances, x) == AvailableOf(s.db.balances, x) + Flows(markets, s, acts, x)
    decreases |acts|
  {
    hide Reachable, Do, Allowed, AvailableOf, Flow;
    if acts != [] {
      ActionPays(markets, s, acts[0], x);
      ActionReachable(markets, s, acts[0]);
      RunPays(markets, Do(markets, s, acts[0]), acts[1..], x);
    }
  }

  // ----- nothing is spent twice -----

  ghost function Positive(x: real): real {
    if x > 0.0 then x else 0.0
  }

  /** The fees an action charges to `x`, as buyer or seller of a trade. Rebates do not count. */
  ghost function Charge(markets: Markets, s: Sys, a: Action, x: Account): real {
    if a.WriterTurn? && s.pending != [] && s.pending[0].Traded? && s.pending[0].trade.market in markets then
      var t, m := s.pending[0].trade, markets[s.pending[0].trade.market];
      (if x == Account(Buyer(t, t.takerUserId, t.makerUserId), m.quoteAsset) then Positive(BuyFee(m, t)) else 0.0)
      + (if x == Account(Seller(t, t.takerUserId, t.makerUserId), m.quoteAsset) then Positive(SellFee(m, t)) else 0.0)
    else 0.0
  }

  ghost function Charges(markets: Markets, s: Sys, acts: seq<Action>, x: Account): real
    decreases |acts|
  {
    if acts == [] then 0.0 else Charge(markets, s, acts[0], x) + Charges(markets, Do(markets, s, acts[0]), acts[1..], x)
  }

  lemma TradeFlowBound(b: Balances, m: MarketRow, t: TradeView, buyer: string, seller: string, x: Account)
    requires t.price > 0.0 && t.quantity > 0.0
    ensures TradeFlow(b, m, t, buyer, seller, x)
         >= 0.0 - (if x == Account(buyer, m.quoteAsset) then Positive(BuyFee(m, t)) else 0.0)
                - (if x == Account(seller, m.quoteAsset) then Positive(SellFee(m, t)) else 0.0)
  {
    var proceeds := t.price * t.quantity;
    assert proceeds > 0.0;
    hide BuyFee, SellFee, CanPayFee;
  }

  lemma EventChargeBound(markets: Markets, s: Sys, x: Account)
    requires Reachable(markets, s) && s.pending != []
    ensures EventFlow(markets, s, s.pending[0], x) >= 0.0 - Charge(markets, s, WriterTurn, x)
  {
    hide Reachable, AskedBy, LockedOf, RowsOk, QuotesOk, OrderedIn, EventOk, Do, TradeFlow, BuyFee, SellFee, Buyer, Seller, Rows,
         Priced, SlackIn;
    var ev := s.pending[0];
    if ev.Traded? {
      NextTrade(markets, s);
      var t := ev.trade;
      if t.market in markets {
        TradeFlowBound(s.db.balances, markets[t.market], t, Buyer(t, t.takerUserId, t.makerUserId),
                       Seller(t, t.takerUserId, t.makerUserId), x);
      }
    } else {
      ReachableCovered(markets, s, x);
      EventAsks(markets, s, x);
    }
  }

  /** No action takes an account below zero, but for fees. */
  lemma ActionCovered(markets: Markets, s: Sys, a: Action, x: Account)
    requires Reachable(markets, s) && Allowed(s, a)
    ensures Charge(markets, s, a, x) >= 0.0
    ensures var before, after := AvailableOf(s.db.balances, x), AvailableOf(Do(markets, s, a).db.balances, x);
            after >= 0.0 || after + Charge(markets, s, a, x) >= before
  {
    hide Reachable, Placement, Reserves, Credited, WithdrawnFrom, EventFlow, Step, Handled, StrandedAfter, RoundsAfter, CancelRequested,
         WellFormedOrder, IsUuid, InfoOf, BuyFee, SellFee, Buyer, Seller, LockedOf;
    ActionPays(markets, s, a, x);
    match a
    case ApiPlace(i, id) =>
      if Placement(markets, s.db, i, id).Created? {
        PlacementMoves(markets, s.db, i, id, x);
      }
    case WriterTurn =>
      if s.pending != [] {
        EventChargeBound(markets, s, x);
      }
    case _ =>
  }

  /**
   * Over every run that starts without debts: what an account has available, plus the fees charged to it, is never negative.
   * No request reserves or withdraws more than there is, and no trade takes anything but fees from available.
   */
  lemma {:induction false} NeverOverspent(markets: Markets, s: Sys, acts: seq<Action>, x: Account, charged: real)
    requires Reachable(markets, s) && AllAllowed(markets, s, acts)
    requires charged >= 0.0 && AvailableOf(s.db.balances, x) + charged >= 0.0
    ensures AvailableOf(Exec(markets, s, acts).db.balances, x) + charged + Charges(markets, s, acts, x) >= 0.0
    decreases |acts|
  {
    hide Reachable, Do, Allowed, AvailableOf, Charge;
    if acts != [] {
      ActionCovered(markets, s, acts[0], x);
      ActionReachable(markets, s, acts[0]);
      NeverOverspent(markets, Do(markets, s, acts[0]), acts[1..], x, charged + Charge(markets, s, acts[0], x));
    }
  }

  /** The same from the beginning on. */
  lemma NeverInDebt(markets: Markets, s0: Sys, acts: seq<Action>, x: Account)
    requires Initial(s0) && AllAllowed(markets, s0, acts) && AvailableOf(s0.db.balances, x) >= 0.0
    ensures AvailableOf(Exec(markets, s0, acts).db.balances, x) + Charges(markets, s0, acts, x) >= 0.0
  {
    hide *;
    InitialReachable(markets, s0);
    NeverOverspent(markets, s0, acts, x, 0.0);
  }
}
