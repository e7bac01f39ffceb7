/** Where the money goes: totals per asset over all accounts, and what each step changes about them. */
module Conservation {
  import opened Orders
  import opened Exchange
  import opened Discipline
  import opened Sums
  import opened Ledgers
  import opened Coverage
  import opened Providers
  import opened Margins
  import opened System
  import opened SystemRuns

  // ----- totals -----

  ghost function Worth(b: Balances, a: Account): real {
    if a in b then b[a].available + b[a].locked else 0.0
  }

  ghost function WorthIn(b: Balances, asset: string, a: Account): real {
    if a.asset == asset then Worth(b, a) else 0.0
  }

  /** All there is of an asset. */
  ghost function Total(b: Balances, asset: string): real {
    Sum(b.Keys, a => WorthIn(b, asset, a))
  }

  lemma TotalChange(b: Balances, x: Account, v: Balance, asset: string)
    ensures Total(b[x := v], asset)
         == Total(b, asset) + (if x.asset == asset then v.available + v.locked - Worth(b, x) else 0.0)
  {
    var c := b[x := v];
    var f, g: Account -> real := a => WorthIn(b, asset, a), a => WorthIn(c, asset, a);
    if x in b {
      assert c.Keys == b.Keys;
      SumChange(b.Keys, f, g, x);
    } else {
      assert c.Keys == b.Keys + {x};
      SumGrow(b.Keys, f, g, x);
    }
  }

  /** `x` of `asset` moves by `delta`, in or out. */
  ghost predicate Moves(b: Balances, c: Balances, asset: string, delta: real) {
    forall s :: Total(c, s) == Total(b, s) + (if s == asset then delta else 0.0)
  }

  lemma CreditMoves(b: Balances, x: Account, amount: real)
    ensures Moves(b, Credited(b, x, amount), x.asset, amount)
  {
    hide Total;
    var v := Credited(b, x, amount)[x];
    forall s
      ensures Total(Credited(b, x, amount), s) == Total(b, s) + (if s == x.asset then amount else 0.0)
    {
      TotalChange(b, x, v, s);
    }
  }

  lemma DebitAvailableMoves(b: Balances, x: Account, amount: real)
    requires x in b
    ensures Moves(b, AvailableDebited(b, x, amount), x.asset, 0.0 - amount)
  {
    hide Total;
    forall s
      ensures Total(AvailableDebited(b, x, amount), s) == Total(b, s) + (if s == x.asset then 0.0 - amount else 0.0)
    {
      TotalChange(b, x, AvailableDebited(b, x, amount)[x], s);
    }
  }

  /** A debit takes what is really taken, clamped or not. */
  lemma DebitLockedMoves(b: Balances, x: Account, amount: real)
    ensures Moves(b, LockedDebited(b, x, amount), x.asset, 0.0 - Taken(b, x, amount))
  {
    hide Total;
    forall s
      ensures Total(LockedDebited(b, x, amount), s) == Total(b, s) + (if s == x.asset then 0.0 - Taken(b, x, amount) else 0.0)
    {
      if amount > 0.0 && x in b {
        TotalChange(b, x, LockedDebited(b, x, amount)[x], s);
      }
    }
  }

  /** Locking and unlocking move nothing between accounts and lose nothing, clamped or not. */
  lemma LockingMovesNothing(b: Balances, x: Account, amount: real, s: string)
    ensures Total(Unlocked(b, x, amount), s) == Total(b, s)
    ensures Locked(b, x, amount).Ok? ==> Total(Locked(b, x, amount).value, s) == Total(b, s)
  {
    hide Total;
    if amount > 0.0 && x in b {
      TotalChange(b, x, Unlocked(b, x, amount)[x], s);
      TotalChange(b, x, Balance(b[x].available - amount, b[x].locked + amount), s);
    }
  }

  // ----- one trade -----

  /** One side of a settlement, by the side it settles. */
  ghost function PartSettled(b: Balances, side: Side, o: OrderRow, m: MarketRow, t: TradeView, fee: real): Balances {
    if side.Buy? then BuyerSettled(b, o, m, t, fee) else SellerSettled(b, o, m, t, fee)
  }

  /** What that adds to the total of the quote asset: a buyer pays what is taken of the margin, and the fee if it has a balance. */
  ghost function QuotePart(b: Balances, side: Side, o: OrderRow, m: MarketRow, t: TradeView, fee: real): real {
    var quote := Account(o.userId, m.quoteAsset);
    if side.Buy?
    then 0.0 - Taken(b, quote, MarginOf(t.price, t.quantity, o.leverage)) - (if quote in b then fee else 0.0)
    else Notional(t) - fee
  }

  /** And to the total of the base asset. */
  ghost function BasePart(b: Balances, side: Side, o: OrderRow, m: MarketRow, t: TradeView): real {
    if side.Buy? then t.quantity else 0.0 - Taken(b, Account(o.userId, m.baseAsset), t.quantity)
  }

  lemma PartMoves(b: Balances, side: Side, o: OrderRow, m: MarketRow, t: TradeView, fee: real, s: string)
    ensures Total(PartSettled(b, side, o, m, t, fee), s)
         == Total(b, s) + (if s == m.quoteAsset then QuotePart(b, side, o, m, t, fee) else 0.0)
          + (if s == m.baseAsset then BasePart(b, side, o, m, t) else 0.0)
  {
    hide MarginOf, Total, Notional, Taken, LockedDebited, AvailableDebited, Credited;
    var quote, base := Account(o.userId, m.quoteAsset), Account(o.userId, m.baseAsset);
    if side.Buy? {
      var margin := MarginOf(t.price, t.quantity, o.leverage);
      var b1 := LockedDebited(b, quote, margin);
      var b2 := AvailableDebited(b1, quote, fee);
      DebitLockedMoves(b, quote, margin);
      SameKeys(b, quote, margin);
      if quote in b {
        DebitAvailableMoves(b1, quote, fee);
      } else {
        NoDebit(b1, quote, fee);
      }
      CreditMoves(b2, base, t.quantity);
    } else {
      var b1 := LockedDebited(b, base, t.quantity);
      DebitLockedMoves(b, base, t.quantity);
      CreditMoves(b1, quote, Notional(t) - fee);
    }
  }

  lemma SameKeys(b: Balances, x: Account, amount: real)
    ensures LockedDebited(b, x, amount).Keys == b.Keys
  {
  }

  lemma NoDebit(b: Balances, x: Account, amount: real)
    requires x !in b
    ensures AvailableDebited(b, x, amount) == b
  {
  }

  ghost function TakerPart(markets: Markets, b: Balances, rows: map<string, OrderRow>, t: TradeView): Balances
    requires t.market in markets && t.takerOrderId in rows
  {
    var m := markets[t.market];
    PartSettled(b, t.takerSide, rows[t.takerOrderId], m, t, Fee(t, m.takerFeeBps))
  }

  /** What one settlement adds to the total of `asset`: nothing on the maker's side if that is the provider. */
  ghost function SettlementFlow(markets: Markets, b: Balances, rows: map<string, OrderRow>, t: TradeView, asset: string): real
    requires t.market in markets && t.takerOrderId in rows && t.makerOrderId in rows
  {
    var m, taker, maker := markets[t.market], rows[t.takerOrderId], rows[t.makerOrderId];
    var b1, other := TakerPart(markets, b, rows, t), Opposite(t.takerSide);
    var external := t.makerUserId == EXTERNAL_USER_ID;
    (if asset == m.quoteAsset
     then QuotePart(b, t.takerSide, taker, m, t, Fee(t, m.takerFeeBps))
          + (if external then 0.0 else QuotePart(b1, other, maker, m, t, Fee(t, m.makerFeeBps)))
     else 0.0)
    + (if asset == m.baseAsset
       then BasePart(b, t.takerSide, taker, m, t) + (if external then 0.0 else BasePart(b1, other, maker, m, t))
       else 0.0)
  }

  /** Whatever the state, and whoever trades: what a settlement does to the total of every asset. */
  lemma SettlementMoves(markets: Markets, b: Balances, rows: map<string, OrderRow>, t: TradeView, asset: string)
    requires t.market in markets && t.takerOrderId in rows && t.makerOrderId in rows
    ensures Total(Settled(markets, b, rows, t), asset) == Total(b, asset) + SettlementFlow(markets, b, rows, t, asset)
  {
    hide Total, QuotePart, BasePart, BuyerSettled, SellerSettled, Fee;
    var m, taker, maker := markets[t.market], rows[t.takerOrderId], rows[t.makerOrderId];
    PartMoves(b, t.takerSide, taker, m, t, Fee(t, m.takerFeeBps), asset);
    PartMoves(TakerPart(markets, b, rows, t), Opposite(t.takerSide), maker, m, t, Fee(t, m.makerFeeBps), asset);
  }

  /** A trade with the provider as maker has one side only: the base asset appears or disappears. */
  lemma ProviderTradeIsOneSided(markets: Markets, b: Balances, rows: map<string, OrderRow>, t: TradeView)
    requires t.market in markets && t.takerOrderId in rows && t.makerOrderId in rows && t.makerUserId == EXTERNAL_USER_ID
    requires markets[t.market].baseAsset != markets[t.market].quoteAsset
    ensures var base := markets[t.market].baseAsset;
            Total(Settled(markets, b, rows, t), base)
            == Total(b, base) + (if t.takerSide.Buy? then t.quantity
                                 else 0.0 - Taken(b, Account(rows[t.takerOrderId].userId, base), t.quantity))
  {
    SettlementMoves(markets, b, rows, t, markets[t.market].baseAsset);
    hide Total, QuotePart, Taken;
  }

  /** Neither account of a trade has slack or market buys, and its buyer has a balance to pay the fee from. */
  ghost predicate PlainTrade(markets: Markets, db: Db, tr: TradeView) {
    && tr.market in markets && tr.takerOrderId in db.orders && tr.makerOrderId in db.orders
    && var taker, maker := db.orders[tr.takerOrderId], db.orders[tr.makerOrderId];
    && taker.market in markets && maker.market in markets
    && (forall a | a == ReserveAccount(markets, taker) || a == ReserveAccount(markets, maker) ::
          a in db.balances && !Unbounded(markets, db.orders, a) && Slack(markets, db.orders, a) == 0.0)
  }

  /** What such a trade adds to the total of its quote asset. */
  ghost function QuoteFlow(m: MarketRow, buyer: OrderRow, t: TradeView): real {
    Notional(t) - MarginOf(t.price, t.quantity, buyer.leverage) - Fee(t, m.takerFeeBps) - Fee(t, m.makerFeeBps)
  }

  lemma BothTakenInFull(markets: Markets, t: Track, db: Db, stranded: map<Account, real>, rounds: Rounds, tr: TradeView)
    requires TradeFitsRows(markets, t, db, tr) && Covered(markets, t, db, stranded, rounds) && Nonneg(stranded)
    requires PlainTrade(markets, db, tr)
    ensures var taker, maker := db.orders[tr.takerOrderId], db.orders[tr.makerOrderId];
            var x, y := ReserveAccount(markets, taker), ReserveAccount(markets, maker);
            && Taken(db.balances, x, FillDebit(taker, tr.quantity, tr.price)) == FillDebit(taker, tr.quantity, tr.price)
            && Taken(TakerSettled(markets, db, tr), y, FillDebit(maker, tr.quantity, tr.price)) == FillDebit(maker, tr.quantity, tr.price)
  {
    hide SideSettled, RowSane, RowOk, FillDebit, Remaining, Within, EventOk, ReserveAccount, Fee, LockedOf, Slack,
         ReservedTotal, Unbounded, Due, AllSane, InfoOfRow, Taken, Ready;
    TradeRows(markets, t, db, tr);
    RowsSane(markets, t, db.orders);
    ReadyIsBuyer(t, db.orders, markets, tr.takerOrderId, tr.takerSide, tr);
    var m, taker, maker := markets[tr.market], db.orders[tr.takerOrderId], db.orders[tr.makerOrderId];
    var x, y := ReserveAccount(markets, taker), ReserveAccount(markets, maker);
    var b1 := TakerSettled(markets, db, tr);
    ReadyMarket(t, db.orders, tr.takerOrderId, tr.takerSide, tr);
    SideShifts(markets, db.balances, taker, tr, Fee(tr, m.takerFeeBps));
    LockedForBoth(markets, t, db, stranded, rounds, tr, x);
    LockedForBoth(markets, t, db, stranded, rounds, tr, y);
    TakenIs(db.balances, x, FillDebit(taker, tr.quantity, tr.price));
    TakenIs(b1, y, FillDebit(maker, tr.quantity, tr.price));
  }

  lemma ReadyMarket(t: Track, orders: map<string, OrderRow>, id: string, side: Side, tr: TradeView)
    requires Ready(t, orders, id, side, tr)
    ensures orders[id].market == tr.market
  {
  }

  /** An account of such a trade has what both sides ask of it locked. */
  lemma LockedForBoth(markets: Markets, t: Track, db: Db, stranded: map<Account, real>, rounds: Rounds, tr: TradeView, a: Account)
    requires TradeFitsRows(markets, t, db, tr) && Covered(markets, t, db, stranded, rounds) && Nonneg(stranded)
    requires PlainTrade(markets, db, tr)
    requires a == ReserveAccount(markets, db.orders[tr.takerOrderId]) || a == ReserveAccount(markets, db.orders[tr.makerOrderId])
    ensures var taker, maker := db.orders[tr.takerOrderId], db.orders[tr.makerOrderId];
            && FillDebit(taker, tr.quantity, tr.price) >= 0.0 && FillDebit(maker, tr.quantity, tr.price) >= 0.0
            && LockedOf(db.balances, a) >= (if a == ReserveAccount(markets, taker) then FillDebit(taker, tr.quantity, tr.price) else 0.0)
                                         + (if a == ReserveAccount(markets, maker) then FillDebit(maker, tr.quantity, tr.price) else 0.0)
  {
    hide RowSane, RowOk, FillDebit, EventOk, ReserveAccount, LockedOf, Slack, ReservedTotal, Unbounded, AllSane, Ready, Within, Remaining;
    TradeRows(markets, t, db, tr);
    RowsSane(markets, t, db.orders);
    var x, y := ReserveAccount(markets, db.orders[tr.takerOrderId]), ReserveAccount(markets, db.orders[tr.makerOrderId]);
    SideAsksWithin(markets, t, db.orders, tr.takerOrderId, tr.takerSide, tr, x);
    SideAsksWithin(markets, t, db.orders, tr.makerOrderId, Opposite(tr.takerSide), tr, y);
    AskedWithin(markets, t, db.orders, tr, a);
    assert AccountCovered(markets, t, db, stranded, rounds, a);
  }

  /**
   * Where locks are covered and leverage divides evenly: the base asset is conserved, and the quote asset changes by the
   * notional, minus the margin spent, minus both fees.
   */
  lemma PlainTradeMoves(markets: Markets, t: Track, db: Db, stranded: map<Account, real>, rounds: Rounds, tr: TradeView, asset: string)
    requires TradeFitsRows(markets, t, db, tr) && Covered(markets, t, db, stranded, rounds) && Nonneg(stranded)
    requires PlainTrade(markets, db, tr) && BuyerId(tr) in db.orders
    ensures SettlementFlow(markets, db.balances, db.orders, tr, asset)
         == if asset == markets[tr.market].quoteAsset then QuoteFlow(markets[tr.market], db.orders[BuyerId(tr)], tr) else 0.0
  {
    hide MarginOf, RowSane, RowOk, Remaining, Within, EventOk, Fee, LockedOf, Slack, Unbounded, Covered, InfoOfRow, Taken, Notional,
         BuyerSettled, SellerSettled;
    TradeRows(markets, t, db, tr);
    RowsSane(markets, t, db.orders);
    ReadyIsBuyer(t, db.orders, markets, tr.takerOrderId, tr.takerSide, tr);
    ReadyIsBuyer(t, db.orders, markets, tr.makerOrderId, Opposite(tr.takerSide), tr);
    BothTakenInFull(markets, t, db, stranded, rounds, tr);
    var m, taker := markets[tr.market], db.orders[tr.takerOrderId];
    PartKeepsAccounts(db.balances, tr.takerSide, taker, m, tr, Fee(tr, m.takerFeeBps));
    assert TakerPart(markets, db.balances, db.orders, tr) == TakerSettled(markets, db, tr);
  }

  lemma PartKeepsAccounts(b: Balances, side: Side, o: OrderRow, m: MarketRow, t: TradeView, fee: real)
    ensures b.Keys <= PartSettled(b, side, o, m, t, fee).Keys
  {
    hide MarginOf, Notional;
  }

  /** At leverage one the margin is the notional, so a trade costs exactly its two fees. */
  lemma SpotTradeLosesFees(m: MarketRow, buyer: OrderRow, t: TradeView)
    requires buyer.leverage == 1.0 && Notional(t) >= 0.0
    ensures QuoteFlow(m, buyer, t) == 0.0 - Fee(t, m.takerFeeBps) - Fee(t, m.makerFeeBps)
  {
    hide Margins.Quotient, Fee, MarginOf;
    SpotMargin(t.price, t.quantity, Notional(t));
  }

  lemma SpotMargin(price: real, quantity: real, cost: real)
    requires cost == price * quantity && cost >= 0.0
    ensures MarginOf(price, quantity, 1.0) == cost
  {
    hide Margins.Quotient, ExactLeverage;
    LeverageOne();
    ExactLeverageSuffices(cost, 1.0);
    assert cost / 1.0 == cost;
  }

  // ----- every step, and every run -----

  ghost function EventFlow(markets: Markets, db: Db, ev: EventView, asset: string): real {
    if ev.Traded? && ev.trade.market in markets && ExternalIdsReadable(ev.trade)
       && ev.trade.takerOrderId in WithExternalRows(db.orders, ev.trade) && ev.trade.makerOrderId in WithExternalRows(db.orders, ev.trade)
    then SettlementFlow(markets, db.balances, WithExternalRows(db.orders, ev.trade), ev.trade, asset) else 0.0
  }

  /** What one action brings into the system, or takes out of it. */
  ghost function Flow(markets: Markets, s: Sys, a: Action, asset: string): real {
    match a
    case Deposit(account, amount) => if amount > 0.0 && account.asset == asset then amount else 0.0
    case Withdraw(account, amount) =>
      if CanWithdraw(s.db.balances, account, amount) && account.asset == asset then 0.0 - amount else 0.0
    case WriterTurn => if s.pending == [] then 0.0 else EventFlow(markets, s.db, s.pending[0], asset)
    case _ => 0.0
  }

  lemma UnlockKeepsTotal(markets: Markets, b: Balances, o: OrderRow, asset: string)
    ensures Total(MarginUnlocked(markets, b, o), asset) == Total(b, asset)
  {
    hide Total, Unlocked;
    if o.market in markets {
      LockingMovesNothing(b, ReserveAccount(markets, o), ReserveAmount(o), asset);
    }
  }

  lemma EventMoves(markets: Markets, db: Db, ev: EventView, asset: string)
    ensures Total(Handled(markets, db, ev).balances, asset) == Total(db.balances, asset) + EventFlow(markets, db, ev, asset)
  {
    hide Total, MarginUnlocked, SettlementFlow, Settled, WithExternalRows, ExternalIdsReadable;
    if ev.Traded? {
      var rows := WithExternalRows(db.orders, ev.trade);
      if ev.trade.market in markets && ev.trade.takerOrderId in rows && ev.trade.makerOrderId in rows {
        SettlementMoves(markets, db.balances, rows, ev.trade, asset);
      }
    } else if (ev.TurnedDown? || ev.Withdrawn?) && ev.orderId in db.orders {
      UnlockKeepsTotal(markets, db.balances, db.orders[ev.orderId], asset);
    }
  }

  lemma PlacementKeepsTotal(markets: Markets, db: Db, i: PlaceInput, id: string, asset: string)
    requires Placement(markets, db, i, id).Created?
    ensures Total(Placement(markets, db, i, id).db.balances, asset) == Total(db.balances, asset)
  {
    hide Total, Locked, MarginOf;
    var m := markets[i.market];
    LockingMovesNothing(db.balances, Account(i.userId, m.baseAsset), i.quantity, asset);
    if i.price.Some? {
      LockingMovesNothing(db.balances, Account(i.userId, m.quoteAsset),
                          MarginOf(i.price.value, i.quantity, LeverageOf(i)), asset);
    }
  }

  lemma ActionMoves(markets: Markets, s: Sys, a: Action, asset: string)
    ensures Total(Do(markets, s, a).db.balances, asset) == Total(s.db.balances, asset) + Flow(markets, s, a, asset)
  {
    hide Total, Handled, EventFlow, Placement, StrandedAfter, RoundsAfter, Step;
    match a
    case ApiPlace(i, id) =>
      if Placement(markets, s.db, i, id).Created? {
        PlacementKeepsTotal(markets, s.db, i, id, asset);
      }
    case Deposit(account, amount) => CreditMoves(s.db.balances, account, amount);
    case Withdraw(account, amount) =>
      if account in s.db.balances {
        DebitAvailableMoves(s.db.balances, account, amount);
      } else {
        TotalChange(s.db.balances, account, Balance(0.0, 0.0), asset);
      }
    case WriterTurn =>
      if s.pending != [] {
        EventMoves(markets, s.db, s.pending[0], asset);
      }
    case _ =>
  }

  ghost function Flows(markets: Markets, s: Sys, acts: seq<Action>, asset: string): real
    decreases |acts|
  {
    if acts == [] then 0.0 else Flow(markets, s, acts[0], asset) + Flows(markets, Do(markets, s, acts[0]), acts[1..], asset)
  }

  /**
   * Conservation over every run, from any state, with any leverage and with the provider's trades: deposits, withdrawals and
   * settlements account for every change of every asset's total.
   */
  lemma {:induction false} RunMoves(markets: Markets, s: Sys, acts: seq<Action>, asset: string)
    ensures Total(Exec(markets, s, acts).db.balances, asset) == Total(s.db.balances, asset) + Flows(markets, s, acts, asset)
    decreases |acts|
  {
    hide Total, Do, Flow;
    if acts != [] {
      ActionMoves(markets, s, acts[0], asset);
      RunMoves(markets, Do(markets, s, acts[0]), acts[1..], asset);
    }
  }

  // ----- without leverage -----

  ghost predicate Spot(a: Action) {
    !a.Inject? && (a.ApiPlace? ==> LeverageOf(a.input) == 1.0 && !(a.input.kind.Market? && a.input.side.Buy?))
  }

  ghost predicate SpotRow(markets: Markets, b: Balances, o: OrderRow) {
    o.leverage == 1.0 && !MarketBuy(o) && o.market in markets && ReserveAccount(markets, o) in b
  }

  ghost predicate SpotRows(markets: Markets, db: Db) {
    forall id | id in db.orders :: SpotRow(markets, db.balances, db.orders[id])
  }

  lemma {:induction false} SumZero<K(!new)>(keys: set<K>, f: K -> real)
    requires forall k | k in keys :: f(k) == 0.0
    ensures Sum(keys, f) == 0.0
    decreases |keys|
  {
    if keys != {} {
      var k :| k in keys;
      SumPick(keys, f, k);
      SumZero(keys - {k}, f);
    }
  }

  /** Without leverage no account has slack. */
  lemma SpotSlack(markets: Markets, db: Db, a: Account)
    requires SpotRows(markets, db)
    ensures Slack(markets, db.orders, a) == 0.0 && !Unbounded(markets, db.orders, a)
  {
    LeverageOne();
    hide ReserveAccount, ExactLeverage;
    forall id | id in db.orders.Keys
      ensures DustIn(markets, db.orders, a, id) == 0.0
    {
      assert SpotRow(markets, db.balances, db.orders[id]);
    }
    SumZero(db.orders.Keys, id => DustIn(markets, db.orders, a, id));
    forall x | x in db.orders
      ensures !MarketBuy(db.orders[x])
    {
      assert SpotRow(markets, db.balances, db.orders[x]);
    }
  }

  /** What an action costs in fees: both sides' fee of a settled trade. */
  ghost function FeesOf(markets: Markets, s: Sys, a: Action, asset: string): real {
    if a.WriterTurn? && s.pending != [] && s.pending[0].Traded? && s.pending[0].trade.market in markets
       && asset == markets[s.pending[0].trade.market].quoteAsset
    then var m := markets[s.pending[0].trade.market];
         Fee(s.pending[0].trade, m.takerFeeBps) + Fee(s.pending[0].trade, m.makerFeeBps)
    else 0.0
  }

  ghost function FundsOf(markets: Markets, s: Sys, a: Action, asset: string): real {
    if a.Deposit? || a.Withdraw? then Flow(markets, s, a, asset) else 0.0
  }

  ghost function Fees(markets: Markets, s: Sys, acts: seq<Action>, asset: string): real
    decreases |acts|
  {
    if acts == [] then 0.0 else FeesOf(markets, s, acts[0], asset) + Fees(markets, Do(markets, s, acts[0]), acts[1..], asset)
  }

  ghost function Funds(markets: Markets, s: Sys, acts: seq<Action>, asset: string): real
    decreases |acts|
  {
    if acts == [] then 0.0 else FundsOf(markets, s, acts[0], asset) + Funds(markets, Do(markets, s, acts[0]), acts[1..], asset)
  }

  // Balances are never removed, and rows keep their leverage and account.

  lemma SpotRowStays(markets: Markets, b: Balances, c: Balances, o: OrderRow, p: OrderRow)
    requires SpotRow(markets, b, o) && b.Keys <= c.Keys && SameKind(markets, o, p)
    ensures SpotRow(markets, c, p)
  {
  }

  lemma SettledKeepsAccounts(markets: Markets, b: Balances, rows: map<string, OrderRow>, t: TradeView)
    requires t.market in markets && t.takerOrderId in rows && t.makerOrderId in rows
    ensures b.Keys <= Settled(markets, b, rows, t).Keys
  {
    hide BuyerSettled, SellerSettled, Fee;
    var m, taker, maker := markets[t.market], rows[t.takerOrderId], rows[t.makerOrderId];
    PartKeepsAccounts(b, t.takerSide, taker, m, t, Fee(t, m.takerFeeBps));
    PartKeepsAccounts(TakerPart(markets, b, rows, t), Opposite(t.takerSide), maker, m, t, Fee(t, m.makerFeeBps));
  }

  lemma SpotTrade(markets: Markets, t: Track, db: Db, tr: TradeView)
    requires SpotRows(markets, db) && TradeFitsRows(markets, t, db, tr)
    ensures SpotRows(markets, TradeHandled(markets, db, tr))
  {
    hide Settled, TradeHandled, Ledgers.Filled, EventOk, RowOk, TradeApplied, SpotRow, SameKind, RowSane;
    TradeRows(markets, t, db, tr);
    RowsSane(markets, t, db.orders);
    HandledIs(markets, db, tr);
    RowsAfterTrade(db, tr);
    SettledKeepsAccounts(markets, db.balances, db.orders, tr);
    var db' := TradeHandled(markets, db, tr);
    forall id | id in db'.orders
      ensures SpotRow(markets, db'.balances, db'.orders[id])
    {
      var o := db.orders[id];
      assert SpotRow(markets, db.balances, o) && RowSane(markets, o);
      KindOfSpot(markets, db.balances, o, tr.quantity, tr.price);
      SpotRowStays(markets, db.balances, db'.balances, o, db'.orders[id]);
    }
  }

  lemma KindOfSpot(markets: Markets, b: Balances, o: OrderRow, qty: real, price: real)
    requires SpotRow(markets, b, o) && RowSane(markets, o)
    ensures SameKind(markets, o, o) && SameKind(markets, o, Ledgers.Filled(o, qty, price))
  {
  }

  lemma SpotStatus(markets: Markets, db: Db, c: Balances, id: string, status: OrderStatus)
    requires SpotRows(markets, db) && db.balances.Keys <= c.Keys
    ensures SpotRows(markets, Db(c, StatusSet(db.orders, id, status)))
  {
    hide ReserveAccount, SpotRow;
    forall x | x in db.orders
      ensures SpotRow(markets, c, StatusSet(db.orders, id, status)[x])
    {
      assert SpotRow(markets, db.balances, db.orders[x]);
      KindOfStatus(markets, db.balances, c, db.orders[x], StatusSet(db.orders, id, status)[x]);
    }
  }

  lemma KindOfStatus(markets: Markets, b: Balances, c: Balances, o: OrderRow, p: OrderRow)
    requires SpotRow(markets, b, o) && b.Keys <= c.Keys && p == o.(status := p.status)
    ensures SpotRow(markets, c, p)
  {
  }

  lemma SpotPlacement(markets: Markets, db: Db, i: PlaceInput, id: string)
    requires SpotRows(markets, db) && Placement(markets, db, i, id).Created?
    requires LeverageOf(i) == 1.0 && !(i.kind.Market? && i.side.Buy?)
    ensures SpotRows(markets, Placement(markets, db, i, id).db)
  {
    hide Placement;
    PlacementIs(markets, db, i, id);
    ValidInput(markets, db, i, id);
    var db' := Placement(markets, db, i, id).db;
    LockedAccount(markets, db.balances, i);
    forall x | x in db'.orders
      ensures SpotRow(markets, db'.balances, db'.orders[x])
    {
      if x != id {
        assert SpotRow(markets, db.balances, db.orders[x]);
      }
    }
  }

  lemma ValidInput(markets: Markets, db: Db, i: PlaceInput, id: string)
    requires Placement(markets, db, i, id).Created?
    ensures i.market in markets && i.quantity > 0.0 && (i.price.Some? ==> i.price.value > 0.0)
  {
    hide Ledgers.Reserved;
  }

  /** A reservation of a positive amount is only made in an account that exists. */
  lemma LockedAccount(markets: Markets, b: Balances, i: PlaceInput)
    requires i.market in markets && i.quantity > 0.0 && (i.price.Some? ==> i.price.value > 0.0) && LeverageOf(i) == 1.0
    requires Ledgers.Reserved(markets, b, i).Ok?
    ensures ReserveAccount(markets, RowOf(i)) in b && b.Keys <= Ledgers.Reserved(markets, b, i).value.Keys
  {
    hide MarginOf;
    if i.side.Buy? && i.price.Some? {
      var cost := i.price.value * i.quantity;
      assert cost > 0.0;
      SpotMargin(i.price.value, i.quantity, cost);
    }
  }

  /** As long as the provider has not quoted, all orders are of users. */
  lemma OnlyUsers(markets: Markets, s: Sys)
    requires DbInv(markets, s) && s.quoted == map[]
    ensures UserDb(s.db) == s.db && Ordered(s) == InfosOfDb(s.db)
  {
    hide Covered, RowsOk, IsUuid;
    assert UserOrders(s.db.orders) == s.db.orders;
  }

  lemma SpotStays(markets: Markets, s: Sys, a: Action)
    requires Consistent(markets, s) && SpotRows(markets, s.db) && Spot(a) && s.quoted == map[]
    ensures SpotRows(markets, Do(markets, s, a).db) && Do(markets, s, a).quoted == map[]
  {
    hide SpotRows, Placement, Step, StrandedAfter, TradeHandled, MarginUnlocked, Covered, RowOk, QuotesOk, Idle, Handled, StatusSet,
         EngineInv, DbOk, Credited, WithdrawnFrom;
    match a
    case ApiPlace(i, id) =>
      if Placement(markets, s.db, i, id).Created? {
        SpotPlacement(markets, s.db, i, id);
      }
    case ApiCancel(id, userId) => SpotStatus(markets, s.db, s.db.balances, id, OrderStatus.Canceled);
    case Deposit(account, amount) =>
      KeepsAccounts(s.db.balances, account, amount);
      MoreAccounts(markets, s.db, Credited(s.db.balances, account, amount));
    case Withdraw(account, amount) =>
      KeepsAccounts(s.db.balances, account, amount);
      MoreAccounts(markets, s.db, WithdrawnFrom(s.db.balances, account, amount));
    case InjectCancel(_, _) =>
    case EngineTurn =>
    case WriterTurn =>
      if s.pending != [] {
        OnlyUsers(markets, s);
        WriterTurnEvents(Ordered(s), markets, s);
        SpotWriter(markets, s);
      }
  }

  lemma SpotWriter(markets: Markets, s: Sys)
    requires DbInv(markets, s) && SpotRows(markets, s.db) && s.quoted == map[] && s.pending != []
    requires EventOk(Ordered(s), s.handled, s.pending[0])
    ensures SpotRows(markets, Handled(markets, s.db, s.pending[0]))
  {
    hide SpotRows, Handled, RowsOk, Covered, QuotesOk, Idle, EventOk;
    OnlyUsers(markets, s);
    SpotEvent(markets, s.handled, s.db, s.pending[0]);
  }

  lemma KeepsAccounts(b: Balances, x: Account, amount: real)
    ensures b.Keys <= Credited(b, x, amount).Keys && b.Keys <= WithdrawnFrom(b, x, amount).Keys
  {
  }

  lemma MoreAccounts(markets: Markets, db: Db, c: Balances)
    requires SpotRows(markets, db) && db.balances.Keys <= c.Keys
    ensures SpotRows(markets, Db(c, db.orders))
  {
    hide ReserveAccount;
    forall id | id in db.orders
      ensures SpotRow(markets, c, db.orders[id])
    {
      assert SpotRow(markets, db.balances, db.orders[id]);
    }
  }

  lemma UnlockKeepsAccounts(markets: Markets, b: Balances, o: OrderRow)
    ensures MarginUnlocked(markets, b, o).Keys == b.Keys
  {
    hide ReserveAmount;
  }

  lemma SpotEvent(markets: Markets, t: Track, db: Db, ev: EventView)
    requires SpotRows(markets, db) && RowsOk(markets, t, db.orders) && EventOk(InfosOfDb(db), t, ev)
    ensures SpotRows(markets, Handled(markets, db, ev))
  {
    hide SpotRows, TradeHandled, MarginUnlocked, StatusSet;
    match ev
    case Accepted(id, _, _, _, _, _, _, _, _) => SpotStatus(markets, db, db.balances, id, OrderStatus.Open);
    case Traded(tr) => SpotTrade(markets, t, db, tr);
    case Completed(id, _, _, _, _) => SpotStatus(markets, db, db.balances, id, OrderStatus.Filled);
    case TurnedDown(id, _, _) =>
      UnlockKeepsAccounts(markets, db.balances, db.orders[id]);
      SpotStatus(markets, db, MarginUnlocked(markets, db.balances, db.orders[id]), id, OrderStatus.Rejected);
      SpotStatus(markets, db, db.balances, id, OrderStatus.Rejected);
    case Withdrawn(id, _, _, _, _) =>
      UnlockKeepsAccounts(markets, db.balances, db.orders[id]);
      SpotStatus(markets, db, MarginUnlocked(markets, db.balances, db.orders[id]), id, OrderStatus.Canceled);
    case DepthChanged(_, _, _) =>
  }

  lemma TradeMarkets(markets: Markets, t: Track, db: Db, tr: TradeView)
    requires TradeFitsRows(markets, t, db, tr)
    ensures tr.takerOrderId in db.orders && tr.makerOrderId in db.orders
    ensures db.orders[tr.takerOrderId].market in markets && db.orders[tr.makerOrderId].market in markets
  {
    TradeRows(markets, t, db, tr);
  }

  lemma SpotTradeFlow(markets: Markets, s: Sys, asset: string)
    requires Consistent(markets, s) && SpotRows(markets, s.db) && s.quoted == map[] && s.pending != [] && s.pending[0].Traded?
    ensures s.pending[0].trade.market in markets
    ensures EventFlow(markets, s.db, s.pending[0], asset)
         == if asset == markets[s.pending[0].trade.market].quoteAsset
            then 0.0 - Fee(s.pending[0].trade, markets[s.pending[0].trade.market].takerFeeBps)
                 - Fee(s.pending[0].trade, markets[s.pending[0].trade.market].makerFeeBps)
            else 0.0
  {
    hide EngineInv, Covered, EventOk, RowOk, Slack, Unbounded, SettlementFlow, QuoteFlow, ReserveAccount, Fee, QuotesOk, Idle;
    var tr := s.pending[0].trade;
    OnlyUsers(markets, s);
    WriterTurnEvents(Ordered(s), markets, s);
    TradeRows(markets, s.handled, s.db, tr);
    TradeMarkets(markets, s.handled, s.db, tr);
    var taker, maker := s.db.orders[tr.takerOrderId], s.db.orders[tr.makerOrderId];
    assert SpotRow(markets, s.db.balances, taker) && SpotRow(markets, s.db.balances, maker);
    SpotSlack(markets, s.db, ReserveAccount(markets, taker));
    SpotSlack(markets, s.db, ReserveAccount(markets, maker));
    PlainTradeMoves(markets, s.handled, s.db, s.stranded, s.rounded, tr, asset);
    PositiveNotional(tr);
    SpotTradeLosesFees(markets[tr.market], s.db.orders[BuyerId(tr)], tr);
    NoExternal(s.db.orders, tr);
  }

  lemma PositiveNotional(tr: TradeView)
    requires tr.price > 0.0 && tr.quantity > 0.0
    ensures Notional(tr) >= 0.0
  {
  }

  lemma NoExternal(orders: map<string, OrderRow>, tr: TradeView)
    requires tr.takerUserId != EXTERNAL_USER_ID && tr.makerUserId != EXTERNAL_USER_ID
    ensures WithExternalRows(orders, tr) == orders && ExternalIdsReadable(tr)
  {
  }

  lemma SpotFlow(markets: Markets, s: Sys, a: Action, asset: string)
    requires Consistent(markets, s) && SpotRows(markets, s.db) && s.quoted == map[]
    ensures Flow(markets, s, a, asset) == FundsOf(markets, s, a, asset) - FeesOf(markets, s, a, asset)
  {
    hide Consistent, SpotRows, Fee, SettlementFlow, WithExternalRows, ExternalIdsReadable;
    if a.WriterTurn? && s.pending != [] && s.pending[0].Traded? {
      SpotTradeFlow(markets, s, asset);
    }
  }

  /**
   * Without leverage and without the provider every run conserves every asset up to deposits, withdrawals and the fees of
   * its trades.
   */
  lemma {:induction false} SpotRunLosesOnlyFees(markets: Markets, s: Sys, acts: seq<Action>, asset: string)
    requires Reachable(markets, s) && AllAllowed(markets, s, acts) && SpotRows(markets, s.db) && s.quoted == map[]
    requires forall i | 0 <= i < |acts| :: Spot(acts[i])
    ensures Total(Exec(markets, s, acts).db.balances, asset)
         == Total(s.db.balances, asset) + Funds(markets, s, acts, asset) - Fees(markets, s, acts, asset)
    decreases |acts|
  {
    hide Total, Do, Allowed, Flow, FundsOf, FeesOf, Consistent, NoneLost, LogOk, SpotRows, Spot;
    if acts != [] {
      ActionMoves(markets, s, acts[0], asset);
      SpotFlow(markets, s, acts[0], asset);
      SpotStays(markets, s, acts[0]);
      ActionReachable(markets, s, acts[0]);
      assert forall i | 0 <= i < |acts[1..]| :: acts[1..][i] == acts[i + 1];
      SpotRunLosesOnlyFees(markets, Do(markets, s, acts[0]), acts[1..], asset);
    }
  }
}
