/**
 * What one database step does to locked balances: they follow the reservations of the open orders, up to what is
 * stranded, which was reserved and neither spent nor released when its order was filled or closed, and up to the truncation
 * of margins, which is at most one unit of the 18th decimal an order.
 */
module Coverage {
  import opened Orders
  import opened Exchange
  import opened Discipline
  import opened Sums
  import opened Ledgers
  import opened Margins

  ghost function LockedOf(b: Balances, a: Account): real {
    if a in b then b[a].locked else 0.0
  }

  // ----- margins, exact and truncated -----

  ghost function ExactMargin(price: real, quantity: real, leverage: real): real {
    if leverage == 0.0 then 0.0 else price * quantity / leverage
  }

  lemma MarginMinus(price: real, x: real, y: real, leverage: real)
    ensures ExactMargin(price, x - y, leverage) == ExactMargin(price, x, leverage) - ExactMargin(price, y, leverage)
  {
    if leverage != 0.0 {
      var a, b := price * x / leverage, price * y / leverage;
      assert (a - b) * leverage == a * leverage - b * leverage == price * x - price * y == price * (x - y);
    }
  }

  lemma MarginMonotone(p: real, q: real, x: real, leverage: real)
    requires p <= q && x >= 0.0 && leverage > 0.0
    ensures ExactMargin(p, x, leverage) <= ExactMargin(q, x, leverage)
  {
    var n := (q - p) * x;
    assert n >= 0.0;
    QuotientNonneg(n, leverage);
    var a, b := p * x / leverage, q * x / leverage;
    assert (b - a) * leverage == n;
    assert b - a == n / leverage;
  }

  lemma MarginNonneg(p: real, x: real, leverage: real)
    requires p >= 0.0 && x >= 0.0 && leverage > 0.0
    ensures ExactMargin(p, x, leverage) >= 0.0
  {
    MarginMonotone(0.0, p, x, leverage);
  }

  lemma MarginPositive(p: real, x: real, leverage: real)
    requires p > 0.0 && x > 0.0 && leverage > 0.0
    ensures ExactMargin(p, x, leverage) > 0.0
  {
    var n := p * x;
    assert n > 0.0;
    QuotientPositive(n, leverage);
  }

  lemma QuotientPositive(n: real, d: real)
    requires n > 0.0 && d > 0.0
    ensures n / d > 0.0
  {
  }

  /** How much truncation can take off a margin: nothing if the leverage divides evenly. */
  ghost function DustOf(leverage: real): (d: real)
    ensures d >= 0.0
  {
    DustPositive();
    if ExactLeverage(leverage) then 0.0 else DUST
  }

  /** The margin the server computes, against the exact one. */
  lemma MarginRounds(price: real, quantity: real, leverage: real)
    requires price >= 0.0 && quantity >= 0.0 && leverage > 0.0
    ensures var m, e := MarginOf(price, quantity, leverage), ExactMargin(price, quantity, leverage);
            0.0 <= m <= e <= m + DustOf(leverage)
  {
    var cost := price * quantity;
    assert cost >= 0.0;
    Margins.QuotientBounds(cost, leverage);
    if ExactLeverage(leverage) {
      ExactLeverageSuffices(cost, leverage);
    }
    hide Margins.Quotient, ExactLeverage;
  }

  // ----- what the balance operations do to locked amounts -----

  /** What a debit or a release really takes: the amount, or all that is locked. */
  ghost function Taken(b: Balances, a: Account, amount: real): real {
    if amount <= 0.0 || a !in b then 0.0 else Lesser(b[a].locked, amount)
  }

  ghost predicate Shifted(b: Balances, c: Balances, x: Account, taken: real) {
    forall a :: LockedOf(c, a) == LockedOf(b, a) - (if a == x then taken else 0.0)
  }

  lemma DebitTakes(b: Balances, x: Account, amount: real)
    ensures Shifted(b, LockedDebited(b, x, amount), x, Taken(b, x, amount))
  {
  }

  lemma UnlockTakes(b: Balances, x: Account, amount: real)
    ensures Shifted(b, Unlocked(b, x, amount), x, Taken(b, x, amount))
  {
  }

  lemma LockAdds(b: Balances, x: Account, amount: real)
    requires amount >= 0.0 && Locked(b, x, amount).Ok?
    ensures Shifted(b, Locked(b, x, amount).value, x, 0.0 - amount)
  {
  }

  lemma TakenIs(b: Balances, x: Account, amount: real)
    requires LockedOf(b, x) >= 0.0 && amount >= 0.0
    ensures Taken(b, x, amount) == Lesser(LockedOf(b, x), amount)
  {
  }

  lemma CreditKeeps(b: Balances, x: Account, amount: real)
    ensures forall a :: LockedOf(Credited(b, x, amount), a) == LockedOf(b, a)
    ensures forall a :: LockedOf(AvailableDebited(b, x, amount), a) == LockedOf(b, a)
  {
  }

  /** One side of a settlement. */
  ghost function SideSettled(b: Balances, o: OrderRow, m: MarketRow, t: TradeView, fee: real): Balances {
    if o.side.Buy? then BuyerSettled(b, o, m, t, fee) else SellerSettled(b, o, m, t, fee)
  }

  /** What the settlement asks for: the margin at the execution price for buys, the quantity for sells. */
  ghost function FillDebit(o: OrderRow, qty: real, price: real): real {
    if o.side.Buy? then MarginOf(price, qty, o.leverage) else qty
  }

  lemma SideShifts(markets: Markets, b: Balances, o: OrderRow, t: TradeView, fee: real)
    requires o.market in markets && (o.side.Buy? ==> o.price.Some?)
    ensures var a := ReserveAccount(markets, o);
            Shifted(b, SideSettled(b, o, markets[o.market], t, fee), a, Taken(b, a, FillDebit(o, t.quantity, t.price)))
  {
    hide MarginOf, LockedDebited, Credited, AvailableDebited, Notional, Taken;
    var m := markets[o.market];
    var quote, base := Account(o.userId, m.quoteAsset), Account(o.userId, m.baseAsset);
    if o.side.Buy? {
      var margin := MarginOf(t.price, t.quantity, o.leverage);
      var b1 := LockedDebited(b, quote, margin);
      DebitTakes(b, quote, margin);
      CreditKeeps(b1, quote, fee);
      CreditKeeps(AvailableDebited(b1, quote, fee), base, t.quantity);
    } else {
      DebitTakes(b, base, t.quantity);
      CreditKeeps(LockedDebited(b, base, t.quantity), quote, Notional(t) - fee);
    }
  }

  // ----- rows and the account of events -----

  ghost function InfoOfRow(o: OrderRow): Info {
    Info(o.userId, o.market, o.side, if o.kind.Limit? then o.price else None, o.quantity)
  }

  ghost function InfosOfDb(db: Db): Infos {
    map id | id in db.orders :: InfoOfRow(db.orders[id])
  }

  /** A row as requests and fills make it. */
  ghost predicate RowSane(markets: Markets, o: OrderRow) {
    && o.market in markets && o.userId != EXTERNAL_USER_ID
    && 0.0 <= o.filled <= o.quantity && o.quantity > 0.0
    && (o.kind.Limit? ==> o.price.Some?) && (o.kind.Limit? || o.side.Buy? ==> o.price.Some? && o.price.value > 0.0)
    && (o.side.Buy? ==> o.leverage > 0.0)
    && !o.status.Expired?
  }

  ghost predicate AllSane(markets: Markets, orders: map<string, OrderRow>) {
    forall id | id in orders :: RowSane(markets, orders[id])
  }

  /** A row is marked filled exactly when it is, partly filled only when it is that, and open or rejected only when nothing is. */
  ghost predicate StatusFits(o: OrderRow) {
    && (o.status.Filled? <==> o.filled == o.quantity)
    && (o.status.PartiallyFilled? ==> 0.0 < o.filled < o.quantity)
    && (o.status.Open? || o.status.Rejected? || o.status.Pending? ==> o.filled == 0.0)
  }

  /** And in step with the events handled so far. */
  ghost predicate RowOk(markets: Markets, t: Track, id: string, o: OrderRow) {
    && RowSane(markets, o) && o.filled == FilledOf(t, id)
    && StatusFits(o)
    && (o.status.Rejected? ==> id in t.closed)
    && (id in t.closed ==> o.status.Filled? || o.status.Canceled? || o.status.Rejected?)
  }

  ghost predicate RowsOk(markets: Markets, t: Track, orders: map<string, OrderRow>) {
    forall id | id in orders :: RowOk(markets, t, id, orders[id])
  }

  lemma RowsSane(markets: Markets, t: Track, orders: map<string, OrderRow>)
    requires RowsOk(markets, t, orders)
    ensures AllSane(markets, orders)
  {
    hide RowSane;
    assert forall id | id in orders :: RowOk(markets, t, id, orders[id]);
  }

  // ----- reservations -----

  /** What the unfilled part of an order is worth in its account, with exact margins. */
  ghost function Due(o: OrderRow): real {
    if o.side.Buy? && o.price.Some? then ExactMargin(o.price.value, Remaining(o), o.leverage) else Remaining(o)
  }

  /** What order `id` still reserves in account `a`: nothing once it is closed. */
  ghost function ReserveIn(markets: Markets, t: Track, orders: map<string, OrderRow>, a: Account, id: string): real {
    if id in orders && orders[id].market in markets && id !in t.closed && ReserveAccount(markets, orders[id]) == a
    then Due(orders[id]) else 0.0
  }

  ghost function ReservedTotal(markets: Markets, t: Track, orders: map<string, OrderRow>, a: Account): real {
    Sum(orders.Keys, id => ReserveIn(markets, t, orders, a, id))
  }

  ghost function AmountIn(s: map<Account, real>, a: Account): real {
    if a in s then s[a] else 0.0
  }

  ghost predicate Nonneg(s: map<Account, real>) {
    forall a | a in s :: s[a] >= 0.0
  }

  /** What account `a` owes: the reservations of its open orders, and what is stranded in it. */
  ghost function Owed(markets: Markets, t: Track, db: Db, stranded: map<Account, real>, a: Account): real {
    ReservedTotal(markets, t, db.orders, a) + AmountIn(stranded, a)
  }

  ghost function RowDust(o: OrderRow): (d: real)
    ensures d >= 0.0
  {
    if o.side.Buy? then DustOf(o.leverage) else 0.0
  }

  ghost function DustIn(markets: Markets, orders: map<string, OrderRow>, a: Account, id: string): (d: real)
    ensures d >= 0.0
  {
    if id in orders && orders[id].market in markets && ReserveAccount(markets, orders[id]) == a then RowDust(orders[id]) else 0.0
  }

  /**
   * The most that truncation can have left an account short: one unit of dust for each of its uneven buy orders. Closed
   * orders count too: the last fill of one can have taken its dust from what another has locked.
   */
  ghost function Slack(markets: Markets, orders: map<string, OrderRow>, a: Account): real {
    Sum(orders.Keys, id => DustIn(markets, orders, a, id))
  }

  ghost predicate MarketBuy(o: OrderRow) {
    o.kind.Market? && o.side.Buy?
  }

  /** Market buys reserve at a price that does not bound execution, so nothing is said about their accounts. */
  ghost predicate Unbounded(markets: Markets, orders: map<string, OrderRow>, a: Account) {
    exists id :: id in orders && orders[id].market in markets && MarketBuy(orders[id]) && ReserveAccount(markets, orders[id]) == a
  }

  /** How often a margin of an account has been rounded down when it was debited or released. */
  type Rounds = map<Account, nat>

  ghost function RoundsIn(r: Rounds, a: Account): nat {
    if a in r then r[a] else 0
  }

  /** One more debit or release for order `o`: it counts if it can have been rounded. */
  ghost function Counted(markets: Markets, r: Rounds, o: OrderRow): Rounds
    requires o.market in markets
  {
    if RowDust(o) > 0.0 then var a := ReserveAccount(markets, o); r[a := RoundsIn(r, a) + 1] else r
  }

  /** At most `slack` short, and over by at most one unit of dust for each rounding, of which there are none without slack. */
  ghost predicate CloseTo(locked: real, owed: real, slack: real, rounds: nat) {
    owed - slack <= locked <= owed + (if slack > 0.0 then DUST * rounds as real else 0.0)
  }

  ghost predicate AccountCovered(markets: Markets, t: Track, db: Db, stranded: map<Account, real>, rounds: Rounds, a: Account) {
    && LockedOf(db.balances, a) >= 0.0
    && (!Unbounded(markets, db.orders, a) ==>
          CloseTo(LockedOf(db.balances, a), Owed(markets, t, db, stranded, a), Slack(markets, db.orders, a), RoundsIn(rounds, a)))
  }

  /** Locked balances are what is owed, account by account; exactly so where leverage divides evenly. */
  ghost predicate Covered(markets: Markets, t: Track, db: Db, stranded: map<Account, real>, rounds: Rounds) {
    forall a :: AccountCovered(markets, t, db, stranded, rounds, a)
  }

  lemma DueNonneg(markets: Markets, o: OrderRow)
    requires RowSane(markets, o)
    ensures Due(o) >= 0.0
  {
    if o.side.Buy? {
      MarginNonneg(o.price.value, Remaining(o), o.leverage);
    }
  }

  lemma AllReservesNonneg(markets: Markets, t: Track, orders: map<string, OrderRow>, a: Account)
    requires AllSane(markets, orders)
    ensures forall id :: ReserveIn(markets, t, orders, a, id) >= 0.0
    ensures ReservedTotal(markets, t, orders, a) >= 0.0
  {
    hide Due, RowSane;
    forall id
      ensures ReserveIn(markets, t, orders, a, id) >= 0.0
    {
      if id in orders {
        DueNonneg(markets, orders[id]);
      }
    }
    SumNonneg(orders.Keys, id => ReserveIn(markets, t, orders, a, id));
  }

  lemma SlackNonneg(markets: Markets, orders: map<string, OrderRow>, a: Account)
    ensures Slack(markets, orders, a) >= 0.0
    ensures forall id :: DustIn(markets, orders, a, id) <= Slack(markets, orders, a)
  {
    hide RowDust, ReserveAccount;
    SumNonneg(orders.Keys, id => DustIn(markets, orders, a, id));
  }

  /** What an open order reserves is part of what its account owes. */
  lemma DueWithin(markets: Markets, t: Track, orders: map<string, OrderRow>, id: string)
    requires AllSane(markets, orders) && id in orders && id !in t.closed && orders[id].market in markets
    ensures Due(orders[id]) <= ReservedTotal(markets, t, orders, ReserveAccount(markets, orders[id]))
  {
    hide Due, ReserveAccount, RowSane;
    var a := ReserveAccount(markets, orders[id]);
    AllReservesNonneg(markets, t, orders, a);
    SumNonneg(orders.Keys, id => ReserveIn(markets, t, orders, a, id));
    assert ReserveIn(markets, t, orders, a, id) == Due(orders[id]);
  }

  /** What two orders reserve in an account is part of it together. */
  lemma BothWithin(markets: Markets, t: Track, orders: map<string, OrderRow>, id: string, other: string, a: Account)
    requires AllSane(markets, orders) && id != other
    ensures ReserveIn(markets, t, orders, a, id) + ReserveIn(markets, t, orders, a, other) <= ReservedTotal(markets, t, orders, a)
  {
    hide Due, ReserveAccount, RowSane;
    var f: string -> real := id => ReserveIn(markets, t, orders, a, id);
    AllReservesNonneg(markets, t, orders, a);
    SumNonneg(orders.Keys, f);
    if id in orders && other in orders {
      SumPick(orders.Keys, f, id);
      SumNonneg(orders.Keys - {id}, f);
      assert f(other) == ReserveIn(markets, t, orders, a, other);
    }
    assert f(id) == ReserveIn(markets, t, orders, a, id);
  }

  // ----- sums after a change of one row -----

  /** Changing one row, or closing its order, changes the total of its account by the difference, and no other. */
  lemma ReservedChange(markets: Markets, t: Track, u: Track, orders: map<string, OrderRow>, id: string, row: OrderRow, a: Account)
    requires id in orders && forall x | x != id :: (x in u.closed <==> x in t.closed)
    ensures ReservedTotal(markets, u, orders[id := row], a)
         == ReservedTotal(markets, t, orders, a) - ReserveIn(markets, t, orders, a, id)
          + ReserveIn(markets, u, orders[id := row], a, id)
  {
    hide Due, ReserveAccount;
    var f: string -> real := x => ReserveIn(markets, t, orders, a, x);
    var g: string -> real := x => ReserveIn(markets, u, orders[id := row], a, x);
    assert orders[id := row].Keys == orders.Keys;
    SumChange(orders.Keys, f, g, id);
  }

  lemma ReservedNew(markets: Markets, t: Track, orders: map<string, OrderRow>, id: string, row: OrderRow, a: Account)
    requires id !in orders
    ensures ReservedTotal(markets, t, orders[id := row], a)
         == ReservedTotal(markets, t, orders, a) + ReserveIn(markets, t, orders[id := row], a, id)
  {
    hide Due, ReserveAccount;
    var f: string -> real := x => ReserveIn(markets, t, orders, a, x);
    var g: string -> real := x => ReserveIn(markets, t, orders[id := row], a, x);
    assert orders[id := row].Keys == orders.Keys + {id};
    SumGrow(orders.Keys, f, g, id);
  }

  /** Fills and status changes leave an order's account, and what its margin can be off by, as they are. */
  ghost predicate SameKind(markets: Markets, o: OrderRow, p: OrderRow) {
    && o.market in markets && p.market == o.market && p.side == o.side && p.kind == o.kind && p.leverage == o.leverage
    && ReserveAccount(markets, p) == ReserveAccount(markets, o)
  }

  lemma SlackStays(markets: Markets, orders: map<string, OrderRow>, id: string, row: OrderRow, a: Account)
    requires id in orders && SameKind(markets, orders[id], row)
    ensures Slack(markets, orders[id := row], a) == Slack(markets, orders, a)
    ensures Unbounded(markets, orders[id := row], a) <==> Unbounded(markets, orders, a)
  {
    hide ReserveAccount, DustOf;
    var after := orders[id := row];
    assert after.Keys == orders.Keys;
    SumSame(orders.Keys, x => DustIn(markets, orders, a, x), x => DustIn(markets, after, a, x));
    if x :| x in orders && orders[x].market in markets && MarketBuy(orders[x]) && ReserveAccount(markets, orders[x]) == a {
      assert x in after && MarketBuy(after[x]);
    }
    if x :| x in after && after[x].market in markets && MarketBuy(after[x]) && ReserveAccount(markets, after[x]) == a {
      assert x in orders && MarketBuy(orders[x]);
    }
  }

  lemma SlackNew(markets: Markets, orders: map<string, OrderRow>, id: string, row: OrderRow, a: Account)
    requires id !in orders
    ensures Slack(markets, orders[id := row], a) == Slack(markets, orders, a) + DustIn(markets, orders[id := row], a, id)
    ensures Unbounded(markets, orders, a) ==> Unbounded(markets, orders[id := row], a)
  {
    hide ReserveAccount, RowDust;
    var after := orders[id := row];
    assert after.Keys == orders.Keys + {id};
    SumGrow(orders.Keys, x => DustIn(markets, orders, a, x), x => DustIn(markets, after, a, x), id);
    if x :| x in orders && orders[x].market in markets && MarketBuy(orders[x]) && ReserveAccount(markets, orders[x]) == a {
      assert x in after && MarketBuy(after[x]);
    }
  }

  // ----- taking from an account -----

  /** Taking `amount`, at most `dust` below `due`, from an account that is covered. */
  lemma TakeKeepsClose(locked: real, owed: real, slack: real, rounds: nat, due: real, amount: real, dust: real)
    requires CloseTo(locked, owed, slack, rounds) && locked >= 0.0 && slack >= 0.0
    requires 0.0 <= amount <= due <= amount + dust && 0.0 <= dust <= DUST && dust <= slack && due <= owed
    ensures CloseTo(locked - Lesser(locked, amount), owed - due, slack, rounds + 1)
    ensures dust == 0.0 ==> CloseTo(locked - Lesser(locked, amount), owed - due, slack, rounds)
  {
    DustPositive();
    assert DUST * (rounds + 1) as real == DUST * rounds as real + DUST;
    assert DUST * rounds as real >= 0.0;
    hide DUST;
  }

  lemma CloseToMeans(locked: real, owed: real, slack: real, rounds: nat)
    requires CloseTo(locked, owed, slack, rounds) && slack >= 0.0
    ensures owed - slack <= locked <= owed + DUST * rounds as real
    ensures slack == 0.0 ==> locked == owed
  {
    DustPositive();
    assert DUST * rounds as real >= 0.0;
    hide DUST;
  }

  lemma RowDustBounds(markets: Markets, orders: map<string, OrderRow>, id: string)
    requires id in orders && orders[id].market in markets
    ensures var a := ReserveAccount(markets, orders[id]);
            0.0 <= RowDust(orders[id]) <= Slack(markets, orders, a) && RowDust(orders[id]) <= DUST
  {
    var a := ReserveAccount(markets, orders[id]);
    DustPositive();
    SlackNonneg(markets, orders, a);
    hide ReserveAccount, Slack;
    assert DustIn(markets, orders, a, id) == RowDust(orders[id]);
  }

  // ----- one fill -----

  /** The exact margin of a fill at its execution price. */
  ghost function FillDue(o: OrderRow, qty: real, price: real): real {
    if o.side.Buy? then ExactMargin(price, qty, o.leverage) else qty
  }

  /** What a fill frees of an order's reservation: at the order's own limit for buys. */
  ghost function Freed(o: OrderRow, qty: real): real {
    if o.side.Buy? && o.price.Some? then ExactMargin(o.price.value, qty, o.leverage) else qty
  }

  /** The price improvement of a limit buy: freed at its limit, due at the execution price. Market buys have no limit. */
  ghost function Improvement(o: OrderRow, qty: real, price: real): real {
    if o.side.Buy? && o.kind.Limit? then Freed(o, qty) - FillDue(o, qty, price) else 0.0
  }

  ghost function AddAmount(s: map<Account, real>, a: Account, x: real): map<Account, real> {
    s[a := AmountIn(s, a) + x]
  }

  lemma FillFrees(markets: Markets, o: OrderRow, qty: real, price: real)
    requires RowSane(markets, o) && 0.0 < qty <= Remaining(o)
    ensures Due(Ledgers.Filled(o, qty, price)) == Due(o) - Freed(o, qty)
    ensures SameKind(markets, o, Ledgers.Filled(o, qty, price)) && RowSane(markets, Ledgers.Filled(o, qty, price))
    ensures InfoOfRow(Ledgers.Filled(o, qty, price)) == InfoOfRow(o)
  {
    if o.side.Buy? {
      MarginMinus(o.price.value, Remaining(o), qty, o.leverage);
    }
  }

  /** Within its limit an order's fill is due at most what it frees; what is debited is at most `RowDust` below what is due. */
  lemma DebitWithinFreed(markets: Markets, o: OrderRow, qty: real, price: real)
    requires RowSane(markets, o) && 0.0 < qty <= Remaining(o) && price > 0.0 && Within(InfoOfRow(o), price)
    ensures 0.0 <= FillDebit(o, qty, price) <= FillDue(o, qty, price) <= FillDebit(o, qty, price) + RowDust(o)
    ensures !MarketBuy(o) ==> FillDue(o, qty, price) == Freed(o, qty) - Improvement(o, qty, price) <= Freed(o, qty)
    ensures 0.0 <= Improvement(o, qty, price) && 0.0 <= Freed(o, qty) <= Due(o)
  {
    if o.side.Buy? {
      MarginRounds(price, qty, o.leverage);
      MarginMinus(o.price.value, Remaining(o), qty, o.leverage);
      MarginNonneg(o.price.value, Remaining(o) - qty, o.leverage);
      MarginNonneg(o.price.value, qty, o.leverage);
      if o.kind.Limit? {
        MarginMonotone(price, o.price.value, qty, o.leverage);
      }
    }
    hide MarginOf, ExactMargin;
  }

  /**
   * One side of a trade: taking what is debited from the account and recording the fill in the row keeps every account
   * covered.
   */
  lemma FillCovered(markets: Markets, t: Track, db: Db, c: Balances, stranded: map<Account, real>, rounds: Rounds,
                    id: string, qty: real, price: real)
    requires Covered(markets, t, db, stranded, rounds) && AllSane(markets, db.orders) && Nonneg(stranded)
    requires id in db.orders && id !in t.closed && db.orders[id].market in markets
    requires 0.0 < qty <= Remaining(db.orders[id]) && price > 0.0 && Within(InfoOfRow(db.orders[id]), price)
    requires var a := ReserveAccount(markets, db.orders[id]);
             Shifted(db.balances, c, a, Taken(db.balances, a, FillDebit(db.orders[id], qty, price)))
    ensures var o := db.orders[id];
            var s := AddAmount(stranded, ReserveAccount(markets, o), Improvement(o, qty, price));
            var db' := Db(c, db.orders[id := Ledgers.Filled(o, qty, price)]);
            && Covered(markets, t, db', s, Counted(markets, rounds, o))
            && AllSane(markets, db'.orders) && Nonneg(s)
  {
    var o := db.orders[id];
    var acct := ReserveAccount(markets, o);
    assert RowSane(markets, o);
    DebitWithinFreed(markets, o, qty, price);
    FillFrees(markets, o, qty, price);
    var row := Ledgers.Filled(o, qty, price);
    var s := AddAmount(stranded, acct, Improvement(o, qty, price));
    var db' := Db(c, db.orders[id := row]);
    var after := Counted(markets, rounds, o);
    forall a
      ensures AccountCovered(markets, t, db', s, after, a)
    {
      FillAccount(markets, t, db, c, stranded, rounds, id, qty, price, a);
    }
  }

  lemma FillAccount(markets: Markets, t: Track, db: Db, c: Balances, stranded: map<Account, real>, rounds: Rounds,
                    id: string, qty: real, price: real, a: Account)
    requires Covered(markets, t, db, stranded, rounds) && AllSane(markets, db.orders) && Nonneg(stranded)
    requires id in db.orders && id !in t.closed && db.orders[id].market in markets
    requires 0.0 < qty <= Remaining(db.orders[id]) && price > 0.0 && Within(InfoOfRow(db.orders[id]), price)
    requires var a := ReserveAccount(markets, db.orders[id]);
             Shifted(db.balances, c, a, Taken(db.balances, a, FillDebit(db.orders[id], qty, price)))
    ensures var o := db.orders[id];
            var s := AddAmount(stranded, ReserveAccount(markets, o), Improvement(o, qty, price));
            AccountCovered(markets, t, Db(c, db.orders[id := Ledgers.Filled(o, qty, price)]), s,
                           Counted(markets, rounds, o), a)
  {
    hide RowSane, Due, Freed, FillDue, FillDebit, Improvement, RowDust, ReserveAccount, LockedOf, ReservedTotal, Slack, CloseTo,
         Ledgers.Filled, MarketBuy, Taken, Within, Remaining, InfoOfRow, Unbounded;
    var o, row := db.orders[id], Ledgers.Filled(db.orders[id], qty, price);
    var acct := ReserveAccount(markets, o);
    FillFrees(markets, o, qty, price);
    DebitWithinFreed(markets, o, qty, price);
    ReservedChange(markets, t, t, db.orders, id, row, a);
    SlackStays(markets, db.orders, id, row, a);
    SlackNonneg(markets, db.orders, a);
    var debit, locked := FillDebit(o, qty, price), LockedOf(db.balances, a);
    assert AccountCovered(markets, t, db, stranded, rounds, a);
    if a == acct {
      TakenIs(db.balances, a, debit);
      if !Unbounded(markets, db.orders, a) {
        NotMarketBuy(markets, db.orders, id);
        DueWithin(markets, t, db.orders, id);
        RowDustBounds(markets, db.orders, id);
        TakeKeepsClose(locked, Owed(markets, t, db, stranded, a), Slack(markets, db.orders, a), RoundsIn(rounds, a),
                       FillDue(o, qty, price), debit, RowDust(o));
      }
    }
  }

  lemma NotMarketBuy(markets: Markets, orders: map<string, OrderRow>, id: string)
    requires id in orders && orders[id].market in markets && !Unbounded(markets, orders, ReserveAccount(markets, orders[id]))
    ensures !MarketBuy(orders[id])
  {
  }

  // ----- one trade -----

  ghost function BuyerId(t: TradeView): string {
    if t.takerSide.Buy? then t.takerOrderId else t.makerOrderId
  }

  ghost predicate TradeFitsRows(markets: Markets, t: Track, db: Db, tr: TradeView) {
    && RowsOk(markets, t, db.orders) && EventOk(InfosOfDb(db), t, Traded(tr))
  }

  /** One row of a trade, ready to be debited and filled. */
  ghost predicate Ready(t: Track, orders: map<string, OrderRow>, id: string, side: Side, tr: TradeView) {
    && id in orders && id !in t.closed && orders[id].side == side && orders[id].market == tr.market
    && 0.0 < tr.quantity <= Remaining(orders[id]) && Within(InfoOfRow(orders[id]), tr.price)
  }

  lemma TradeRows(markets: Markets, t: Track, db: Db, tr: TradeView)
    requires TradeFitsRows(markets, t, db, tr)
    ensures Ready(t, db.orders, tr.takerOrderId, tr.takerSide, tr)
    ensures Ready(t, db.orders, tr.makerOrderId, Opposite(tr.takerSide), tr)
    ensures tr.takerOrderId != tr.makerOrderId
    ensures tr.takerUserId != EXTERNAL_USER_ID && tr.makerUserId != EXTERNAL_USER_ID && tr.market in markets && tr.price > 0.0
  {
    assert RowOk(markets, t, tr.takerOrderId, db.orders[tr.takerOrderId]);
    assert RowOk(markets, t, tr.makerOrderId, db.orders[tr.makerOrderId]);
  }

  lemma HandledIs(markets: Markets, db: Db, tr: TradeView)
    requires tr.market in markets && tr.takerOrderId in db.orders && tr.makerOrderId in db.orders
    requires tr.takerUserId != EXTERNAL_USER_ID && tr.makerUserId != EXTERNAL_USER_ID
    ensures TradeHandled(markets, db, tr)
         == Db(Settled(markets, db.balances, db.orders, tr),
               TradeApplied(TradeApplied(db.orders, tr.makerOrderId, tr.quantity, tr.price), tr.takerOrderId, tr.quantity, tr.price))
  {
    hide Settled, TradeApplied, IsUuid;
  }

  lemma RowsAfterTrade(db: Db, tr: TradeView)
    requires tr.takerOrderId in db.orders && tr.makerOrderId in db.orders && tr.takerOrderId != tr.makerOrderId
    ensures TradeApplied(TradeApplied(db.orders, tr.makerOrderId, tr.quantity, tr.price), tr.takerOrderId, tr.quantity, tr.price)
         == db.orders[tr.takerOrderId := Ledgers.Filled(db.orders[tr.takerOrderId], tr.quantity, tr.price)]
                     [tr.makerOrderId := Ledgers.Filled(db.orders[tr.makerOrderId], tr.quantity, tr.price)]
  {
    hide Ledgers.Filled;
  }

  /** The balances after the taker's side of a settlement, and then after both. */
  ghost function TakerSettled(markets: Markets, db: Db, tr: TradeView): Balances
    requires tr.market in markets && tr.takerOrderId in db.orders
  {
    var m := markets[tr.market];
    SideSettled(db.balances, db.orders[tr.takerOrderId], m, tr, Fee(tr, m.takerFeeBps))
  }

  /** What one side of a trade strands: the price improvement of a buyer, reserved but not spent. */
  ghost function StrandedByFill(markets: Markets, orders: map<string, OrderRow>, s: map<Account, real>, id: string,
                                tr: TradeView): map<Account, real>
  {
    if id in orders && orders[id].market in markets
    then AddAmount(s, ReserveAccount(markets, orders[id]), Improvement(orders[id], tr.quantity, tr.price)) else s
  }

  ghost function StrandedByTrade(markets: Markets, orders: map<string, OrderRow>, s: map<Account, real>,
                                 tr: TradeView): map<Account, real>
  {
    StrandedByFill(markets, orders, StrandedByFill(markets, orders, s, tr.takerOrderId, tr), tr.makerOrderId, tr)
  }

  lemma ReadyIsBuyer(t: Track, orders: map<string, OrderRow>, markets: Markets, id: string, side: Side, tr: TradeView)
    requires Ready(t, orders, id, side, tr) && AllSane(markets, orders)
    ensures orders[id].market in markets && (orders[id].side.Buy? ==> orders[id].price.Some?)
  {
    assert RowSane(markets, orders[id]);
  }

  /** What a settlement asks of account `a` for one side: nothing for an order that is not among `orders`. */
  ghost function SideAsks(markets: Markets, orders: map<string, OrderRow>, id: string, tr: TradeView, a: Account): real {
    if id in orders && orders[id].market in markets && a == ReserveAccount(markets, orders[id])
    then FillDebit(orders[id], tr.quantity, tr.price) else 0.0
  }

  /** And both sides together. */
  ghost function Asked(markets: Markets, orders: map<string, OrderRow>, tr: TradeView, a: Account): real {
    SideAsks(markets, orders, tr.takerOrderId, tr, a) + SideAsks(markets, orders, tr.makerOrderId, tr, a)
  }

  lemma SideAsksWithin(markets: Markets, t: Track, orders: map<string, OrderRow>, id: string, side: Side, tr: TradeView, a: Account)
    requires AllSane(markets, orders) && tr.price > 0.0 && (id in orders ==> Ready(t, orders, id, side, tr))
    ensures 0.0 <= SideAsks(markets, orders, id, tr, a)
    ensures !Unbounded(markets, orders, a) ==> SideAsks(markets, orders, id, tr, a) <= ReserveIn(markets, t, orders, a, id)
  {
    if id in orders {
      hide FillDebit, ReserveAccount, Unbounded, Due, Freed, FillDue, Improvement, RowDust, MarketBuy;
      assert RowSane(markets, orders[id]);
      DebitWithinFreed(markets, orders[id], tr.quantity, tr.price);
      if a == ReserveAccount(markets, orders[id]) && !Unbounded(markets, orders, a) {
        NotMarketBuy(markets, orders, id);
      }
    }
  }

  lemma AskedWithin(markets: Markets, t: Track, orders: map<string, OrderRow>, tr: TradeView, a: Account)
    requires AllSane(markets, orders) && tr.price > 0.0 && tr.takerOrderId != tr.makerOrderId
    requires tr.takerOrderId in orders ==> Ready(t, orders, tr.takerOrderId, tr.takerSide, tr)
    requires tr.makerOrderId in orders ==> Ready(t, orders, tr.makerOrderId, Opposite(tr.takerSide), tr)
    ensures !Unbounded(markets, orders, a) ==> Asked(markets, orders, tr, a) <= ReservedTotal(markets, t, orders, a)
  {
    hide SideAsks, AllSane, Ready, ReserveIn;
    SideAsksWithin(markets, t, orders, tr.takerOrderId, tr.takerSide, tr, a);
    SideAsksWithin(markets, t, orders, tr.makerOrderId, Opposite(tr.takerSide), tr, a);
    BothWithin(markets, t, orders, tr.takerOrderId, tr.makerOrderId, a);
  }

  lemma UntouchedRowOk(markets: Markets, t: Track, u: Track, id: string, o: OrderRow)
    requires RowOk(markets, t, id, o) && FilledOf(u, id) == FilledOf(t, id) && u.closed == t.closed
    ensures RowOk(markets, u, id, o)
  {
  }

  lemma TradeFills(t: Track, tr: TradeView)
    requires tr.takerOrderId != tr.makerOrderId
    ensures var u := Apply(t, Traded(tr));
            && u.closed == t.closed
            && forall id :: FilledOf(u, id) == FilledOf(t, id)
                            + (if id == tr.takerOrderId || id == tr.makerOrderId then tr.quantity else 0.0)
  {
  }

  lemma FilledRowOk(markets: Markets, t: Track, u: Track, id: string, o: OrderRow, qty: real, price: real)
    requires RowOk(markets, t, id, o) && 0.0 < qty <= Remaining(o)
    requires FilledOf(u, id) == FilledOf(t, id) + qty && u.closed == t.closed && id !in t.closed
    ensures RowOk(markets, u, id, Ledgers.Filled(o, qty, price))
    ensures InfoOfRow(Ledgers.Filled(o, qty, price)) == InfoOfRow(o)
  {
  }

  // ----- closing events -----

  ghost function ClosedBy(t: Track, id: string): Track {
    t.(closed := t.closed + {id})
  }

  lemma StatusSameKind(markets: Markets, o: OrderRow, status: OrderStatus)
    requires o.market in markets
    ensures SameKind(markets, o, o.(status := status)) && Due(o.(status := status)) == Due(o)
    ensures ReserveAccount(markets, o.(status := status)) == ReserveAccount(markets, o)
  {
  }

  /** After closing an order its account owes that much less; the row's status does not matter. */
  lemma ClosedReserves(markets: Markets, t: Track, orders: map<string, OrderRow>, id: string, status: OrderStatus, a: Account)
    requires id in orders && id !in t.closed && orders[id].market in markets
    ensures ReservedTotal(markets, ClosedBy(t, id), StatusSet(orders, id, status), a)
         == ReservedTotal(markets, t, orders, a)
          - (if a == ReserveAccount(markets, orders[id]) then Due(orders[id]) else 0.0)
    ensures Slack(markets, StatusSet(orders, id, status), a) == Slack(markets, orders, a)
    ensures Unbounded(markets, StatusSet(orders, id, status), a) <==> Unbounded(markets, orders, a)
  {
    hide Due, ReservedTotal, Slack, Unbounded, ReserveAccount;
    StatusSameKind(markets, orders[id], status);
    ReservedChange(markets, t, ClosedBy(t, id), orders, id, orders[id].(status := status), a);
    SlackStays(markets, orders, id, orders[id].(status := status), a);
  }

  /** Changing only a row's status changes nothing that is owed. */
  lemma StatusReserves(markets: Markets, t: Track, orders: map<string, OrderRow>, id: string, status: OrderStatus, a: Account)
    requires id in orders ==> orders[id].market in markets
    ensures ReservedTotal(markets, t, StatusSet(orders, id, status), a) == ReservedTotal(markets, t, orders, a)
    ensures Slack(markets, StatusSet(orders, id, status), a) == Slack(markets, orders, a)
    ensures Unbounded(markets, StatusSet(orders, id, status), a) <==> Unbounded(markets, orders, a)
  {
    if id in orders {
      hide Due, ReservedTotal, Slack, Unbounded, ReserveAccount;
      StatusSameKind(markets, orders[id], status);
      ReservedChange(markets, t, t, orders, id, orders[id].(status := status), a);
      SlackStays(markets, orders, id, orders[id].(status := status), a);
    }
  }

  lemma StatusKeepsRows(markets: Markets, t: Track, u: Track, orders: map<string, OrderRow>, id: string, status: OrderStatus)
    requires RowsOk(markets, t, orders) && u.filled == t.filled && t.closed <= u.closed && !status.Expired?
    requires id in orders ==> StatusFits(orders[id].(status := status))
    requires status.Rejected? ==> id in u.closed
    requires u.closed <= t.closed + {id} && (id in u.closed ==> status.Filled? || status.Canceled? || status.Rejected?)
    ensures RowsOk(markets, u, StatusSet(orders, id, status))
  {
    var after := StatusSet(orders, id, status);
    forall x | x in after
      ensures RowOk(markets, u, x, after[x])
    {
      assert RowOk(markets, t, x, orders[x]);
    }
  }

  lemma StatusKeepsInfos(db: Db, balances: Balances, id: string, status: OrderStatus)
    ensures InfosOfDb(Db(balances, StatusSet(db.orders, id, status))) == InfosOfDb(db)
  {
  }

  lemma UnlockShifts(markets: Markets, b: Balances, o: OrderRow)
    requires o.market in markets
    ensures var a := ReserveAccount(markets, o);
            Shifted(b, MarginUnlocked(markets, b, o), a, Taken(b, a, ReserveAmount(o)))
  {
    hide ReserveAmount, ReserveAccount;
    UnlockTakes(b, ReserveAccount(markets, o), ReserveAmount(o));
  }

  /** What is released is at most `RowDust` below what the order reserves. */
  lemma ReleaseWithinDue(markets: Markets, o: OrderRow)
    requires RowSane(markets, o)
    ensures 0.0 <= ReserveAmount(o) <= Due(o) <= ReserveAmount(o) + RowDust(o)
  {
    if o.side.Buy? {
      MarginRounds(o.price.value, Remaining(o), o.leverage);
    }
    hide MarginOf, ExactMargin, DustOf;
  }

  /** Releasing what a closed order still reserves keeps every account covered. */
  lemma ReleaseCovered(markets: Markets, t: Track, db: Db, stranded: map<Account, real>, rounds: Rounds, id: string, status: OrderStatus)
    requires AllSane(markets, db.orders) && Covered(markets, t, db, stranded, rounds) && Nonneg(stranded)
    requires id in db.orders && id !in t.closed && db.orders[id].market in markets
    ensures Covered(markets, ClosedBy(t, id),
                    Db(MarginUnlocked(markets, db.balances, db.orders[id]), StatusSet(db.orders, id, status)), stranded,
                    Counted(markets, rounds, db.orders[id]))
  {
    hide RowSane, Due, ReserveAmount, RowDust, ReserveAccount, LockedOf, ReservedTotal, Slack, CloseTo, MarketBuy, Taken, Unbounded,
         MarginUnlocked, StatusSet;
    var o := db.orders[id];
    assert RowSane(markets, o);
    var acct := ReserveAccount(markets, o);
    var u, db' := ClosedBy(t, id), Db(MarginUnlocked(markets, db.balances, o), StatusSet(db.orders, id, status));
    UnlockShifts(markets, db.balances, o);
    ReleaseWithinDue(markets, o);
    DueWithin(markets, t, db.orders, id);
    RowDustBounds(markets, db.orders, id);
    var more := Counted(markets, rounds, o);
    forall a
      ensures AccountCovered(markets, u, db', stranded, more, a)
    {
      ClosedReserves(markets, t, db.orders, id, status, a);
      SlackNonneg(markets, db.orders, a);
      assert AccountCovered(markets, t, db, stranded, rounds, a);
      var locked := LockedOf(db.balances, a);
      if a == acct {
        TakenIs(db.balances, a, ReserveAmount(o));
        if !Unbounded(markets, db.orders, a) {
          TakeKeepsClose(locked, Owed(markets, t, db, stranded, a), Slack(markets, db.orders, a), RoundsIn(rounds, a),
                         Due(o), ReserveAmount(o), RowDust(o));
        }
      }
    }
  }

  /** The roundings of one event: a debit for each side of a trade, a release for an order that is closed unfilled. */
  ghost function RoundsAfter(markets: Markets, orders: map<string, OrderRow>, r: Rounds, ev: EventView): Rounds {
    match ev
    case Traded(tr) => CountedAt(markets, orders, CountedAt(markets, orders, r, tr.takerOrderId), tr.makerOrderId)
    case TurnedDown(id, _, _) => if id in orders && orders[id].status.Canceled? then r else CountedAt(markets, orders, r, id)
    case Withdrawn(id, _, _, _, _) => CountedAt(markets, orders, r, id)
    case _ => r
  }

  ghost function CountedAt(markets: Markets, orders: map<string, OrderRow>, r: Rounds, id: string): Rounds {
    if id in orders && orders[id].market in markets then Counted(markets, r, orders[id]) else r
  }

  /** A cancellation releases what the order still reserves. */
  lemma CancelCovered(markets: Markets, t: Track, db: Db, stranded: map<Account, real>, rounds: Rounds, ev: EventView)
    requires RowsOk(markets, t, db.orders) && Covered(markets, t, db, stranded, rounds) && Nonneg(stranded)
    requires ev.Withdrawn? && EventOk(InfosOfDb(db), t, ev)
    ensures var db' := CanceledHandled(markets, db, ev.orderId);
            && Covered(markets, Apply(t, ev), db', stranded, RoundsAfter(markets, db.orders, rounds, ev))
            && RowsOk(markets, Apply(t, ev), db'.orders)
            && InfosOfDb(db') == InfosOfDb(db)
  {
    var id := ev.orderId;
    var db', u := CanceledHandled(markets, db, id), ClosedBy(t, id);
    assert RowOk(markets, t, id, db.orders[id]);
    hide Covered, MarginUnlocked, AllSane;
    RowsSane(markets, t, db.orders);
    ReleaseCovered(markets, t, db, stranded, rounds, id, OrderStatus.Canceled);
    StatusKeepsRows(markets, t, u, db.orders, id, OrderStatus.Canceled);
    StatusKeepsInfos(db, db'.balances, id, OrderStatus.Canceled);
  }

  /** What a rejection strands: everything the order reserves, if its row is marked canceled at that moment. */
  ghost function StrandedByRejection(markets: Markets, orders: map<string, OrderRow>, s: map<Account, real>, id: string): map<Account, real>
  {
    if id in orders && orders[id].market in markets && orders[id].status.Canceled?
    then AddAmount(s, ReserveAccount(markets, orders[id]), Due(orders[id])) else s
  }

  /** Closing an order without releasing anything moves what it reserves to what is stranded. */
  lemma KeepCovered(markets: Markets, t: Track, db: Db, stranded: map<Account, real>, rounds: Rounds, id: string, status: OrderStatus)
    requires AllSane(markets, db.orders) && Covered(markets, t, db, stranded, rounds) && Nonneg(stranded)
    requires id in db.orders && id !in t.closed && db.orders[id].market in markets
    ensures var s := AddAmount(stranded, ReserveAccount(markets, db.orders[id]), Due(db.orders[id]));
            && Covered(markets, ClosedBy(t, id), Db(db.balances, StatusSet(db.orders, id, status)), s, rounds) && Nonneg(s)
  {
    hide RowSane, Due, ReserveAccount, LockedOf, ReservedTotal, Slack, CloseTo, Unbounded, StatusSet;
    var o := db.orders[id];
    assert RowSane(markets, o);
    DueNonneg(markets, o);
    var s := AddAmount(stranded, ReserveAccount(markets, o), Due(o));
    var u, db' := ClosedBy(t, id), Db(db.balances, StatusSet(db.orders, id, status));
    forall a
      ensures AccountCovered(markets, u, db', s, rounds, a)
    {
      ClosedReserves(markets, t, db.orders, id, status, a);
      assert AccountCovered(markets, t, db, stranded, rounds, a);
    }
  }

  /** A rejection releases what the order reserves, unless the row is marked canceled: then it all stays locked. */
  lemma RejectCovered(markets: Markets, t: Track, db: Db, stranded: map<Account, real>, rounds: Rounds, ev: EventView)
    requires RowsOk(markets, t, db.orders) && Covered(markets, t, db, stranded, rounds) && Nonneg(stranded)
    requires ev.TurnedDown? && EventOk(InfosOfDb(db), t, ev)
    requires db.orders[ev.orderId].market in markets
    ensures var db' := RejectedHandled(markets, db, ev.orderId);
            var s := StrandedByRejection(markets, db.orders, stranded, ev.orderId);
            && Covered(markets, Apply(t, ev), db', s, RoundsAfter(markets, db.orders, rounds, ev))
            && Nonneg(s) && RowsOk(markets, Apply(t, ev), db'.orders)
            && InfosOfDb(db') == InfosOfDb(db)
  {
    var id := ev.orderId;
    var db', u := RejectedHandled(markets, db, id), ClosedBy(t, id);
    assert RowOk(markets, t, id, db.orders[id]);
    hide Covered, MarginUnlocked, AllSane, Nonneg;
    RowsSane(markets, t, db.orders);
    StatusKeepsRows(markets, t, u, db.orders, id, OrderStatus.Rejected);
    StatusKeepsInfos(db, db'.balances, id, OrderStatus.Rejected);
    if db.orders[id].status.Canceled? {
      KeepCovered(markets, t, db, stranded, rounds, id, OrderStatus.Rejected);
    } else {
      ReleaseCovered(markets, t, db, stranded, rounds, id, OrderStatus.Rejected);
    }
  }

  /** A completed order reserves nothing any more. */
  lemma CompleteCovered(markets: Markets, t: Track, db: Db, stranded: map<Account, real>, rounds: Rounds, ev: EventView)
    requires RowsOk(markets, t, db.orders) && Covered(markets, t, db, stranded, rounds)
    requires ev.Completed? && EventOk(InfosOfDb(db), t, ev)
    ensures var db' := Handled(markets, db, ev);
            && Covered(markets, Apply(t, ev), db', stranded, rounds) && RowsOk(markets, Apply(t, ev), db'.orders)
            && InfosOfDb(db') == InfosOfDb(db)
  {
    var id := ev.orderId;
    var db', u := Handled(markets, db, ev), ClosedBy(t, id);
    var o := db.orders[id];
    assert RowOk(markets, t, id, o);
    assert Due(o) == 0.0;
    StatusKeepsRows(markets, t, u, db.orders, id, OrderStatus.Filled);
    StatusKeepsInfos(db, db.balances, id, OrderStatus.Filled);
    hide Due, ReservedTotal, Slack, CloseTo, Unbounded, LockedOf, ReserveAccount, RowOk;
    forall a
      ensures AccountCovered(markets, u, db', stranded, rounds, a)
    {
      ClosedReserves(markets, t, db.orders, id, OrderStatus.Filled, a);
      assert AccountCovered(markets, t, db, stranded, rounds, a);
    }
  }

  /** Marking a row open or canceled moves no money. */
  lemma StatusCovered(markets: Markets, t: Track, db: Db, stranded: map<Account, real>, rounds: Rounds, id: string, status: OrderStatus)
    requires RowsOk(markets, t, db.orders) && Covered(markets, t, db, stranded, rounds)
    requires status.Open? || status.Canceled?
    requires id in db.orders ==> StatusFits(db.orders[id].(status := status))
    requires status.Open? ==> id !in t.closed
    ensures var db' := db.(orders := StatusSet(db.orders, id, status));
            && Covered(markets, t, db', stranded, rounds) && RowsOk(markets, t, db'.orders) && InfosOfDb(db') == InfosOfDb(db)
  {
    var db' := db.(orders := StatusSet(db.orders, id, status));
    StatusKeepsRows(markets, t, t, db.orders, id, status);
    StatusKeepsInfos(db, db.balances, id, status);
    if id in db.orders {
      assert RowOk(markets, t, id, db.orders[id]);
    }
    hide ReservedTotal, Slack, CloseTo, Unbounded, LockedOf, RowOk, StatusSet;
    forall a
      ensures AccountCovered(markets, t, db', stranded, rounds, a)
    {
      StatusReserves(markets, t, db.orders, id, status, a);
      assert AccountCovered(markets, t, db, stranded, rounds, a);
    }
  }

  // ----- placing -----

  /** Adding `amount`, at most `dust` below `due`, where the new order brings that much slack with it. */
  lemma AddKeepsClose(locked: real, owed: real, slack: real, rounds: nat, due: real, amount: real, dust: real)
    requires CloseTo(locked, owed, slack, rounds) && slack >= 0.0
    requires 0.0 <= amount <= due <= amount + dust && 0.0 <= dust
    ensures CloseTo(locked + amount, owed + due, slack + dust, rounds)
  {
    DustPositive();
    assert DUST * rounds as real >= 0.0;
    hide DUST;
  }

  /** A new order locks what its row reserves. */
  lemma PlacementCovered(markets: Markets, t: Track, db: Db, stranded: map<Account, real>, rounds: Rounds, i: PlaceInput, id: string)
    requires RowsOk(markets, t, db.orders) && Covered(markets, t, db, stranded, rounds)
    requires id !in db.orders && id !in t.closed
    requires Placement(markets, db, i, id).Created?
    requires RowOk(markets, t, id, RowOf(i))
    ensures var db' := Placement(markets, db, i, id).db;
            && Covered(markets, t, db', stranded, rounds) && RowsOk(markets, t, db'.orders)
            && InfosOfDb(db') == InfosOfDb(db)[id := InfoOfRow(RowOf(i))]
  {
    hide ReservedTotal, LockedOf, ReserveAmount, Due, Slack, CloseTo, Unbounded, RowDust, RowOk, Ledgers.Reserved, Placement;
    var db', row := Placement(markets, db, i, id).db, RowOf(i);
    PlacementIs(markets, db, i, id);
    RowOkSane(markets, t, id, row);
    LockedForRow(markets, db.balances, i);
    ReleaseWithinDue(markets, row);
    forall x | x in db'.orders
      ensures RowOk(markets, t, x, db'.orders[x])
    {
      if x != id {
        assert RowOk(markets, t, x, db.orders[x]);
      }
    }
    forall a
      ensures AccountCovered(markets, t, db', stranded, rounds, a)
    {
      PlacedAccount(markets, t, db, db', stranded, rounds, id, row, a);
    }
    InfosMore(db, db', id, row);
  }

  lemma PlacementIs(markets: Markets, db: Db, i: PlaceInput, id: string)
    requires Placement(markets, db, i, id).Created?
    ensures i.market in markets && Ledgers.Reserved(markets, db.balances, i).Ok?
    ensures Placement(markets, db, i, id).db == Db(Ledgers.Reserved(markets, db.balances, i).value, db.orders[id := RowOf(i)])
  {
    hide Ledgers.Reserved;
  }

  lemma RowOkSane(markets: Markets, t: Track, id: string, o: OrderRow)
    requires RowOk(markets, t, id, o)
    ensures RowSane(markets, o)
  {
  }

  lemma InfosMore(db: Db, db': Db, id: string, row: OrderRow)
    requires db'.orders == db.orders[id := row]
    ensures InfosOfDb(db') == InfosOfDb(db)[id := InfoOfRow(row)]
  {
  }

  lemma PlacedAccount(markets: Markets, t: Track, db: Db, db': Db, stranded: map<Account, real>, rounds: Rounds, id: string,
                      row: OrderRow, a: Account)
    requires Covered(markets, t, db, stranded, rounds) && id !in db.orders && id !in t.closed && row.market in markets
    requires db'.orders == db.orders[id := row]
    requires Shifted(db.balances, db'.balances, ReserveAccount(markets, row), 0.0 - ReserveAmount(row))
    requires 0.0 <= ReserveAmount(row) <= Due(row) <= ReserveAmount(row) + RowDust(row)
    ensures AccountCovered(markets, t, db', stranded, rounds, a)
  {
    hide ReservedTotal, LockedOf, ReserveAmount, Due, Slack, CloseTo, Unbounded, RowDust, ReserveAccount;
    ReservedNew(markets, t, db.orders, id, row, a);
    SlackNew(markets, db.orders, id, row, a);
    SlackNonneg(markets, db.orders, a);
    assert AccountCovered(markets, t, db, stranded, rounds, a);
    if !Unbounded(markets, db'.orders, a) && a == ReserveAccount(markets, row) {
      AddKeepsClose(LockedOf(db.balances, a), Owed(markets, t, db, stranded, a), Slack(markets, db.orders, a), RoundsIn(rounds, a),
                    Due(row), ReserveAmount(row), RowDust(row));
    }
  }

  lemma LockedForRow(markets: Markets, b: Balances, i: PlaceInput)
    requires i.market in markets && RowSane(markets, RowOf(i)) && Ledgers.Reserved(markets, b, i).Ok?
    ensures var row := RowOf(i);
            Shifted(b, Ledgers.Reserved(markets, b, i).value, ReserveAccount(markets, row), 0.0 - ReserveAmount(row))
  {
    var row := RowOf(i);
    ReleaseWithinDue(markets, row);
    assert Remaining(row) == i.quantity;
    hide MarginOf;
    LockAdds(b, ReserveAccount(markets, row), ReserveAmount(row));
  }
}
