/**
 * What every event stream of the engine obeys: a per-order account of fills and of the one closing event, which
 * each event must fit. The account is folded over the stream alone, so any consumer of it can rely on it.
 */
module Discipline {
  import opened Orders
  import opened Greedy
  import opened BookSpec
  import opened Exchange

  /** What was ordered: fixed when the order is placed. A market order has no limit. */
  datatype Info = Info(userId: string, market: string, side: Side, limit: Option<real>, quantity: real)

  type Infos = map<string, Info>

  /** What the events so far say: quantity traded per order, and the orders that have had their closing event. */
  datatype Track = Track(filled: map<string, real>, closed: set<string>)

  const NO_EVENTS := Track(map[], {})

  ghost function FilledOf(t: Track, id: string): real {
    if id in t.filled then t.filled[id] else 0.0
  }

  ghost function AddFill(t: Track, id: string, qty: real): Track {
    t.(filled := t.filled[id := FilledOf(t, id) + qty])
  }

  ghost function Apply(t: Track, ev: EventView): Track {
    match ev
    case Traded(tr) => AddFill(AddFill(t, tr.makerOrderId, tr.quantity), tr.takerOrderId, tr.quantity)
    case Completed(id, _, _, _, _) => t.(closed := t.closed + {id})
    case TurnedDown(id, _, _) => t.(closed := t.closed + {id})
    case Withdrawn(id, _, _, _, _) => t.(closed := t.closed + {id})
    case _ => t
  }

  ghost predicate Within(i: Info, price: real) {
    i.limit.Some? ==> if i.side.Buy? then price <= i.limit.value else price >= i.limit.value
  }

  /** One side of a trade: a known order, not closed, of the right user and market, filled within quantity and limit. */
  ghost predicate FillOk(infos: Infos, t: Track, id: string, userId: string, side: Side, tr: TradeView) {
    && id in infos && id !in t.closed
    && infos[id].userId == userId && infos[id].market == tr.market && infos[id].side == side
    && 0.0 < tr.quantity && FilledOf(t, id) + tr.quantity <= infos[id].quantity
    && Within(infos[id], tr.price)
  }

  ghost predicate EventOk(infos: Infos, t: Track, ev: EventView) {
    match ev
    case Accepted(id, market, userId, side, _, price, quantity, _, _) =>
      id in infos && id !in t.closed && FilledOf(t, id) == 0.0 && infos[id] == Info(userId, market, side, price, quantity)
    case Traded(tr) =>
      && tr.makerOrderId != tr.takerOrderId
      && tr.makerOrderId in infos && infos[tr.makerOrderId].limit == Some(tr.price)
      && FillOk(infos, t, tr.makerOrderId, tr.makerUserId, Opposite(tr.takerSide), tr)
      && FillOk(infos, t, tr.takerOrderId, tr.takerUserId, tr.takerSide, tr)
    case Completed(id, market, userId, filled, _) =>
      && id in infos && id !in t.closed && infos[id].market == market && infos[id].userId == userId
      && FilledOf(t, id) == infos[id].quantity == filled
    case TurnedDown(id, market, _) => id in infos && id !in t.closed && infos[id].market == market && FilledOf(t, id) == 0.0
    case Withdrawn(id, market, _, _, done) =>
      && id in infos && id !in t.closed && infos[id].market == market && 0.0 <= FilledOf(t, id) < infos[id].quantity
      && (done.Some? ==> done.value == FilledOf(t, id))
    case DepthChanged(_, _, _) => true
  }

  ghost function ApplyAll(t: Track, evs: seq<EventView>): Track
    decreases |evs|
  {
    if evs == [] then t else ApplyAll(Apply(t, evs[0]), evs[1..])
  }

  ghost predicate AllOk(infos: Infos, t: Track, evs: seq<EventView>)
    decreases |evs|
  {
    evs == [] || (EventOk(infos, t, evs[0]) && AllOk(infos, Apply(t, evs[0]), evs[1..]))
  }

  lemma {:induction false} AllOkConcat(infos: Infos, t: Track, p: seq<EventView>, q: seq<EventView>)
    ensures AllOk(infos, t, p + q) <==> AllOk(infos, t, p) && AllOk(infos, ApplyAll(t, p), q)
    ensures ApplyAll(t, p + q) == ApplyAll(ApplyAll(t, p), q)
    decreases |p|
  {
    if p == [] {
      assert p + q == q;
    } else {
      assert (p + q)[1..] == p[1..] + q;
      AllOkConcat(infos, Apply(t, p[0]), p[1..], q);
    }
  }

  /** Orders placed later do not disturb the account of those already known. */
  lemma {:induction false} AllOkMoreInfos(infos: Infos, more: Infos, t: Track, evs: seq<EventView>)
    requires AllOk(infos, t, evs) && forall id | id in infos :: id in more && more[id] == infos[id]
    ensures AllOk(more, t, evs)
    decreases |evs|
  {
    if evs != [] {
      AllOkMoreInfos(infos, more, Apply(t, evs[0]), evs[1..]);
    }
  }

  // ----- books and the account agree -----

  ghost function InfoOf(o: OrderView): Info {
    Info(o.userId, o.terms.market, o.side, if o.terms.kind.Limit? then Some(o.price) else None, o.quantity)
  }

  /** A resting order is exactly as filled as its trades say, and is not closed. */
  ghost predicate Tracked(infos: Infos, t: Track, o: OrderView) {
    o.id in infos && infos[o.id] == InfoOf(o) && FilledOf(t, o.id) == o.filled && o.id !in t.closed
  }

  ghost predicate AllTracked(infos: Infos, t: Track, q: seq<OrderView>) {
    forall i | 0 <= i < |q| :: Tracked(infos, t, q[i])
  }

  ghost predicate BookTracked(infos: Infos, t: Track, b: Book) {
    Inv(b) && AllTracked(infos, t, b.bids) && AllTracked(infos, t, b.asks)
  }

  ghost predicate BooksTracked(infos: Infos, t: Track, books: Books) {
    forall m | m in books :: m != "" && books[m].market == m && BookTracked(infos, t, books[m])
  }

  /** An order known but not yet processed: no trade, no closing event, not on its book. */
  ghost predicate Unprocessed(infos: Infos, t: Track, books: Books, o: OrderView) {
    && o.filled == 0.0
    && o.id in infos && infos[o.id] == InfoOf(o) && FilledOf(t, o.id) == 0.0 && o.id !in t.closed
    && !BookOf(books, o.terms.market).Has(o.id)
  }

  // ----- the trades of one match -----

  ghost predicate Among(q: seq<OrderView>, id: string) {
    exists i | 0 <= i < |q| :: q[i].id == id
  }

  /** Nothing changed for this order. */
  ghost predicate Same(t: Track, u: Track, id: string) {
    FilledOf(u, id) == FilledOf(t, id) && (id in u.closed <==> id in t.closed)
  }

  ghost predicate TakerTracked(infos: Infos, t: Track, taker: OrderView, want: real) {
    && taker.id in infos && infos[taker.id] == InfoOf(taker) && taker.id !in t.closed
    && FilledOf(t, taker.id) == taker.quantity - want
  }

  /** The account after one trade of the taker with its first maker. */
  lemma TradeTracked(infos: Infos, t: Track, taker: OrderView, makers: seq<OrderView>, want: real, qty: real)
    requires makers != [] && AllTracked(infos, t, makers) && DistinctIds(makers) && !Among(makers, taker.id)
    requires TakerTracked(infos, t, taker, want) && 0.0 < qty <= want && qty <= OpenQty(makers[0])
    requires makers[0].side == Opposite(taker.side) && makers[0].terms.market == taker.terms.market
    requires makers[0].terms.kind.Limit? && Crosses(taker, makers[0].price)
    ensures var ev := Traded(TradeWith(taker, makers[0], qty));
            && EventOk(infos, t, ev)
            && TakerTracked(infos, Apply(t, ev), taker, want - qty)
            && Tracked(infos, Apply(t, ev), FillBy(makers[0], qty))
            && AllTracked(infos, Apply(t, ev), makers[1..])
            && (forall id | id != taker.id && id != makers[0].id :: Same(t, Apply(t, ev), id))
  {
    assert Tracked(infos, t, makers[0]);
    assert makers[0].id != taker.id;
    var u := Apply(t, Traded(TradeWith(taker, makers[0], qty)));
    forall i | 1 <= i < |makers|
      ensures Tracked(infos, u, makers[i])
    {
      assert Tracked(infos, t, makers[i]) && makers[i].id != taker.id && makers[i].id != makers[0].id;
    }
  }

  /** The trades of an outcome fit the account, and leave it in step with the surviving makers and the taker. */
  ghost predicate Accounted(infos: Infos, t: Track, taker: OrderView, makers: seq<OrderView>, out: Outcome) {
    var u := ApplyAll(t, TradeEvents(out.trades));
    && AllOk(infos, t, TradeEvents(out.trades))
    && AllTracked(infos, u, out.makers)
    && TakerTracked(infos, u, taker, out.left)
    && (forall id | id != taker.id && !Among(makers, id) :: Same(t, u, id))
    && UsedUp(u, makers, out.makers)
  }

  /** Whoever left the queue is completely filled. */
  ghost predicate UsedUp(u: Track, makers: seq<OrderView>, left: seq<OrderView>) {
    forall i | 0 <= i < |makers| :: Among(left, makers[i].id) || FilledOf(u, makers[i].id) == makers[i].quantity
  }

  lemma {:induction false} MatchTracked(infos: Infos, t: Track, taker: OrderView, makers: seq<OrderView>, want: real)
    requires SideInv(taker.terms.market, Opposite(taker.side), makers)
    requires AllTracked(infos, t, makers) && !Among(makers, taker.id) && TakerTracked(infos, t, taker, want)
    ensures Accounted(infos, t, taker, makers, Match(taker, makers, want))
    decreases |makers|
  {
    hide *;
    MatchCases(taker, makers, want);
    if makers == [] || want <= 0.0 || !Crosses(taker, makers[0].price) {
      NoneAccounted(infos, t, taker, makers, want);
    } else {
      var qty := Least(want, OpenQty(makers[0]));
      var tr, rest := TradeWith(taker, makers[0], qty), makers[1..];
      HeadOfSide(taker.terms.market, Opposite(taker.side), makers);
      assert makers[0].id != taker.id;
      TradeTracked(infos, t, taker, makers, want, qty);
      if qty < OpenQty(makers[0]) {
        PartialAccounted(infos, t, taker, makers, tr, Outcome([FillBy(makers[0], qty)] + rest, [tr], want - qty));
      } else {
        TailSide(taker.terms.market, Opposite(taker.side), makers);
        NotBehind(makers, taker.id);
        HeadNotBehind(makers);
        FilledUp(infos, Apply(t, Traded(tr)), makers[0], qty);
        MatchTracked(infos, Apply(t, Traded(tr)), taker, rest, want - qty);
        ConsAccounted(infos, t, taker, makers, tr, Match(taker, rest, want - qty));
      }
    }
  }

  lemma MatchCases(taker: OrderView, makers: seq<OrderView>, want: real)
    ensures if makers == [] || want <= 0.0 || !Crosses(taker, makers[0].price)
            then Match(taker, makers, want) == Outcome(makers, [], want)
            else var qty := Least(want, OpenQty(makers[0]));
                 var t := TradeWith(taker, makers[0], qty);
                 && Match(taker, makers, want)
                    == (if qty < OpenQty(makers[0]) then Outcome([FillBy(makers[0], qty)] + makers[1..], [t], want - qty)
                        else After(t, Match(taker, makers[1..], want - qty)))
                 && qty <= want && qty <= OpenQty(makers[0]) && (OpenQty(makers[0]) > 0.0 ==> qty > 0.0)
                 && FillBy(makers[0], qty).id == makers[0].id
  {
  }

  lemma NoneAccounted(infos: Infos, t: Track, taker: OrderView, makers: seq<OrderView>, want: real)
    requires AllTracked(infos, t, makers) && TakerTracked(infos, t, taker, want)
    ensures Accounted(infos, t, taker, makers, Outcome(makers, [], want))
  {
    SameAccount(t);
    assert forall i | 0 <= i < |makers| :: Among(makers, makers[i].id);
  }

  lemma HeadNotBehind(q: seq<OrderView>)
    requires q != [] && DistinctIds(q)
    ensures !Among(q[1..], q[0].id)
  {
  }

  lemma FilledUp(infos: Infos, u: Track, m: OrderView, qty: real)
    requires Tracked(infos, u, FillBy(m, qty)) && qty >= OpenQty(m)
    requires qty <= OpenQty(m)
    ensures FilledOf(u, m.id) == m.quantity
  {
  }

  lemma HeadOfSide(market: string, side: Side, q: seq<OrderView>)
    requires q != [] && SideInv(market, side, q)
    ensures q[0].side == side && q[0].terms.market == market && q[0].terms.kind.Limit?
    ensures OpenQty(q[0]) > 0.0 && DistinctIds(q) && Among(q, q[0].id)
  {
    assert Live(q[0]);
  }

  lemma PartialAccounted(infos: Infos, t: Track, taker: OrderView, makers: seq<OrderView>, tr: TradeView, out: Outcome)
    requires makers != [] && Among(makers, makers[0].id) && EventOk(infos, t, Traded(tr))
    requires out.trades == [tr] && out.makers != [] && out.makers[1..] == makers[1..] && out.makers[0].id == makers[0].id
    requires var u := Apply(t, Traded(tr));
             && TakerTracked(infos, u, taker, out.left) && Tracked(infos, u, out.makers[0])
             && AllTracked(infos, u, makers[1..])
             && (forall id | id != taker.id && id != makers[0].id :: Same(t, u, id))
    ensures Accounted(infos, t, taker, makers, out)
  {
    hide EventOk, Apply, Same, Tracked, TakerTracked, FilledOf;
    var u := Apply(t, Traded(tr));
    OneTrade(tr);
    assert TradeEvents([tr])[1..] == [];
    assert [Traded(tr)][1..] == [];
    assert AllOk(infos, u, []) && ApplyAll(u, []) == u;
    assert [Traded(tr)][0] == Traded(tr);
    assert ApplyAll(t, [Traded(tr)]) == u;
    assert AllOk(infos, t, [Traded(tr)]);
    forall id | id != taker.id && !Among(makers, id)
      ensures Same(t, u, id)
    {
      assert id != makers[0].id;
    }
    assert AllTracked(infos, u, out.makers) by {
      assert forall i | 1 <= i < |out.makers| :: out.makers[i] == makers[1..][i - 1];
    }
    forall i | 0 <= i < |makers|
      ensures Among(out.makers, makers[i].id)
    {
      assert out.makers[i].id == makers[i].id by {
        assert i > 0 ==> out.makers[1..][i - 1] == makers[1..][i - 1];
      }
    }
  }

  lemma ConsAccounted(infos: Infos, t: Track, taker: OrderView, makers: seq<OrderView>, tr: TradeView, out: Outcome)
    requires makers != [] && EventOk(infos, t, Traded(tr))
    requires Accounted(infos, Apply(t, Traded(tr)), taker, makers[1..], out)
    requires forall id | id != taker.id && id != makers[0].id :: Same(t, Apply(t, Traded(tr)), id)
    requires makers[0].id != taker.id && !Among(makers[1..], makers[0].id)
    requires FilledOf(Apply(t, Traded(tr)), makers[0].id) == makers[0].quantity
    ensures Accounted(infos, t, taker, makers, After(tr, out))
  {
    hide EventOk, Apply, Tracked, TakerTracked, FilledOf, AllTracked, Among, UsedUp;
    var v := Apply(t, Traded(tr));
    MoreTrades(tr, out.trades);
    assert TradeEvents(After(tr, out).trades)[1..] == TradeEvents(out.trades);
    SameTwice(t, v, makers, taker.id, ApplyAll(v, TradeEvents(out.trades)));
    UsedUpCons(v, ApplyAll(v, TradeEvents(out.trades)), makers, out.makers);
  }

  lemma UsedUpCons(v: Track, u: Track, makers: seq<OrderView>, left: seq<OrderView>)
    requires makers != [] && UsedUp(u, makers[1..], left)
    requires FilledOf(v, makers[0].id) == makers[0].quantity && Same(v, u, makers[0].id)
    ensures UsedUp(u, makers, left)
  {
    hide Among;
    assert forall i | 1 <= i < |makers| :: makers[i] == makers[1..][i - 1];
  }

  lemma SameAccount(t: Track)
    ensures forall id :: Same(t, t, id)
  {
  }

  lemma OneTrade(tr: TradeView)
    ensures TradeEvents([tr]) == [Traded(tr)]
  {
    assert [tr][1..] == [];
  }

  lemma MoreTrades(tr: TradeView, ts: seq<TradeView>)
    ensures TradeEvents([tr] + ts) == [Traded(tr)] + TradeEvents(ts)
  {
    assert ([tr] + ts)[1..] == ts;
  }

  lemma TailSide(market: string, side: Side, q: seq<OrderView>)
    requires q != [] && SideInv(market, side, q)
    ensures SideInv(market, side, q[1..])
  {
  }

  lemma NotBehind(q: seq<OrderView>, id: string)
    requires q != []
    ensures Among(q, id) <==> q[0].id == id || Among(q[1..], id)
  {
    if Among(q[1..], id) {
      var i :| 0 <= i < |q[1..]| && q[1..][i].id == id;
      assert q[i + 1].id == id;
    }
    if Among(q, id) {
      var i :| 0 <= i < |q| && q[i].id == id;
      assert i > 0 ==> q[1..][i - 1].id == id;
    }
  }

  lemma SameTwice(t: Track, v: Track, makers: seq<OrderView>, takerId: string, u: Track)
    requires makers != []
    requires forall id | id != takerId && id != makers[0].id :: Same(t, v, id)
    requires forall id | id != takerId && !Among(makers[1..], id) :: Same(v, u, id)
    ensures forall id | id != takerId && !Among(makers, id) :: Same(t, u, id)
  {
    forall id | id != takerId && !Among(makers, id)
      ensures Same(t, u, id)
    {
      NotBehind(makers, id);
      assert Same(t, v, id) && Same(v, u, id);
    }
  }

  // ----- one placement -----

  lemma SameKeepsTracked(infos: Infos, t: Track, u: Track, q: seq<OrderView>)
    requires AllTracked(infos, t, q) && forall i | 0 <= i < |q| :: Same(t, u, q[i].id)
    ensures AllTracked(infos, u, q)
  {
    forall i | 0 <= i < |q|
      ensures Tracked(infos, u, q[i])
    {
      assert Tracked(infos, t, q[i]) && Same(t, u, q[i].id);
    }
  }

  /** The account after the closing event of one order. */
  lemma CloseTracked(t: Track, id: string, ev: EventView)
    requires ev.Completed? || ev.TurnedDown? || ev.Withdrawn?
    requires id == ev.orderId
    ensures Apply(t, ev).filled == t.filled && Apply(t, ev).closed == t.closed + {id}
    ensures forall other | other != id :: Same(t, Apply(t, ev), other)
  {
  }

  /** What a placement leaves on its own book, and what it changes in the account. */
  ghost predicate PlacedWell(infos: Infos, t: Track, b: Book, o: OrderView, u: Track) {
    var p := Place(b, o);
    && BookTracked(infos, u, p.book)
    && (o.id in u.closed <==> !p.book.Has(o.id))
    && FilledOf(u, o.id) == p.filled
    && (forall id | id != o.id && !b.Has(id) :: Same(t, u, id))
    && KeptOrFilled(infos, u, b, p.book)
  }

  /** Every order of the first book is on the second, or its trades fill it completely. */
  ghost predicate KeptOrFilled(infos: Infos, u: Track, b: Book, after: Book) {
    forall id | b.Has(id) :: after.Has(id) || (id in infos && FilledOf(u, id) == infos[id].quantity)
  }

  ghost predicate Known(infos: Infos, t: Track, o: OrderView) {
    && WellFormedOrder(o) && o.filled == 0.0
    && o.id in infos && infos[o.id] == InfoOf(o) && FilledOf(t, o.id) == 0.0 && o.id !in t.closed
  }

  lemma HasAmong(b: Book, id: string)
    ensures b.Has(id) <==> Among(b.bids, id) || Among(b.asks, id)
  {
    AmongMembers(b.bids, id);
    AmongMembers(b.asks, id);
  }

  lemma AmongMembers(q: seq<OrderView>, id: string)
    ensures Among(q, id) <==> exists o | o in q :: o.id == id
  {
    if Among(q, id) {
      var i :| 0 <= i < |q| && q[i].id == id;
      assert q[i] in q;
    }
    if exists o | o in q :: o.id == id {
      var o :| o in q && o.id == id;
      var i :| 0 <= i < |q| && q[i] == o;
    }
  }

  /** After the trades: the consumed side is tracked, the own side is untouched, and so is everybody else. */
  lemma TradesTracked(infos: Infos, t: Track, b: Book, o: OrderView)
    requires BookTracked(infos, t, b) && Known(infos, t, o) && o.terms.market == b.market && !b.Has(o.id)
    ensures var opp := Opposite(o.side);
            var out := Match(o, b.On(opp), o.quantity);
            var u := ApplyAll(t, TradeEvents(out.trades));
            && AllOk(infos, t, TradeEvents(out.trades))
            && TakerTracked(infos, u, o, out.left)
            && BookTracked(infos, u, b.With(opp, out.makers))
            && (forall id | id != o.id && !b.Has(id) :: Same(t, u, id))
            && KeptOrFilled(infos, u, b, b.With(opp, out.makers))
  {
    var opp := Opposite(o.side);
    var out := Match(o, b.On(opp), o.quantity);
    var u := ApplyAll(t, TradeEvents(out.trades));
    HasAmong(b, o.id);
    MatchTracked(infos, t, o, b.On(opp), o.quantity);
    MatchKeepsInv(b, o);
    hide Match, AllOk, ApplyAll, SideInv, Same, Tracked;
    forall i | 0 <= i < |b.On(o.side)|
      ensures Same(t, u, b.On(o.side)[i].id)
    {
      OwnNotAmong(b, o.side, i);
      HasOwn(b, o.side, i);
    }
    SameKeepsTracked(infos, t, u, b.On(o.side));
    forall id | id != o.id && !b.Has(id)
      ensures Same(t, u, id)
    {
      HasAmong(b, id);
    }
    UsedUpBook(infos, t, u, b, opp, out.makers);
  }

  lemma UsedUpBook(infos: Infos, t: Track, u: Track, b: Book, side: Side, left: seq<OrderView>)
    requires AllTracked(infos, t, b.On(side)) && UsedUp(u, b.On(side), left)
    ensures KeptOrFilled(infos, u, b, b.With(side, left))
  {
    var after := b.With(side, left);
    forall id | b.Has(id)
      ensures after.Has(id) || (id in infos && FilledOf(u, id) == infos[id].quantity)
    {
      HasAmong(b, id);
      HasAmong(after, id);
      if Among(b.On(side), id) {
        var i :| 0 <= i < |b.On(side)| && b.On(side)[i].id == id;
        assert Tracked(infos, t, b.On(side)[i]);
      }
    }
  }

  lemma OwnNotAmong(b: Book, side: Side, i: nat)
    requires Inv(b) && i < |b.On(side)|
    ensures !Among(b.On(Opposite(side)), b.On(side)[i].id)
  {
    hide SideInv, BookSpec.Uncrossed;
  }

  lemma HasOwn(b: Book, side: Side, i: nat)
    requires i < |b.On(side)|
    ensures b.Has(b.On(side)[i].id)
  {
    assert b.On(side)[i] in b.On(side);
  }

  /** The closing event, if any, fits the account and closes exactly the orders that are not on the book. */
  lemma FinalTracked(infos: Infos, t: Track, u: Track, b: Book, o: OrderView)
    requires Inv(b) && o.terms.market == b.market && !b.Has(o.id) && Known(infos, t, o)
    requires var p := Place(b, o);
             && TakerTracked(infos, u, o, o.quantity - p.filled)
             && BookTracked(infos, u, p.book)
             && (forall id | id != o.id && !b.Has(id) :: Same(t, u, id))
             && KeptOrFilled(infos, u, b, p.book)
    ensures var p := Place(b, o);
            && AllOk(infos, u, FinalEvents(o, p))
            && PlacedWell(infos, t, b, o, ApplyAll(u, FinalEvents(o, p)))
  {
    hide Place, Inv, Same, SumOpen, SumTrades, Rests, Tracked, AllTracked, Match, AllOk, ApplyAll, EventOk;
    var p := Place(b, o);
    PlaceConserves(b, o);
    if !p.status.Rejected? {
      RestsOnBook(b, o);
    }
    var evs := FinalEvents(o, p);
    if evs == [] {
      NoEvents(infos, u);
    } else {
      var ev := evs[0];
      var v := Apply(u, ev);
      assert evs == [ev];
      OneEvent(infos, u, ev);
      FinalOk(infos, u, o, p);
      assert !p.book.Has(o.id);
      CloseTracked(u, o.id, ev);
      ClosedElsewhere(infos, u, v, p.book, o.id);
      forall id | id != o.id && !b.Has(id)
        ensures Same(t, v, id)
      {
        SameTrans(t, u, v, id);
      }
      assert forall id | b.Has(id) :: FilledOf(v, id) == FilledOf(u, id);
    }
  }

  lemma OneEvent(infos: Infos, t: Track, ev: EventView)
    ensures ApplyAll(t, [ev]) == Apply(t, ev)
    ensures AllOk(infos, t, [ev]) <==> EventOk(infos, t, ev)
  {
    assert [ev][1..] == [];
  }

  lemma NoEvents(infos: Infos, t: Track)
    ensures AllOk(infos, t, []) && ApplyAll(t, []) == t
  {
  }

  lemma FinalOk(infos: Infos, u: Track, o: OrderView, p: Placed)
    requires TakerTracked(infos, u, o, o.quantity - p.filled) && 0.0 <= p.filled <= o.quantity && o.quantity > 0.0
    requires p.status.Rejected? ==> p.filled == 0.0
    ensures FinalEvents(o, p) != [] ==> EventOk(infos, u, FinalEvents(o, p)[0])
  {
  }

  lemma SameTrans(t: Track, u: Track, v: Track, id: string)
    requires Same(t, u, id) && Same(u, v, id)
    ensures Same(t, v, id)
  {
  }

  /** Closing an order that is not on the book leaves the book tracked. */
  lemma ClosedElsewhere(infos: Infos, u: Track, v: Track, b: Book, id: string)
    requires BookTracked(infos, u, b) && !b.Has(id)
    requires forall other | other != id :: Same(u, v, other)
    ensures BookTracked(infos, v, b)
  {
    hide Same, Inv, Tracked;
    forall i | 0 <= i < |b.bids|
      ensures Same(u, v, b.bids[i].id)
    {
      HasOwn(b, Buy, i);
    }
    forall i | 0 <= i < |b.asks|
      ensures Same(u, v, b.asks[i].id)
    {
      HasOwn(b, Sell, i);
    }
    SameKeepsTracked(infos, u, v, b.bids);
    SameKeepsTracked(infos, u, v, b.asks);
  }

  lemma InsertTracked(infos: Infos, u: Track, b: Book, side: Side, o: OrderView)
    requires AllTracked(infos, u, b.On(side)) && Tracked(infos, u, o)
    ensures AllTracked(infos, u, Insert(side, b.On(side), o))
  {
    hide Tracked;
    forall i | 0 <= i <= |b.On(side)|
      ensures Tracked(infos, u, Insert(side, b.On(side), o)[i])
    {
      InsertIndex(side, b.On(side), o, i);
    }
  }

  lemma InsertKeeps(infos: Infos, u: Track, b: Book, after: Book, side: Side, o: OrderView)
    requires KeptOrFilled(infos, u, b, after)
    ensures KeptOrFilled(infos, u, b, after.With(side, Insert(side, after.On(side), o)))
  {
    hide Insert, InsertPos, Among;
    var own := after.On(side);
    var next := after.With(side, Insert(side, own, o));
    forall id | after.Has(id)
      ensures next.Has(id)
    {
      HasAmong(after, id);
      HasAmong(next, id);
      if Among(own, id) {
        InsertKeepsIds(side, own, o, id);
      }
    }
  }

  lemma InsertKeepsIds(side: Side, q: seq<OrderView>, o: OrderView, id: string)
    requires Among(q, id)
    ensures Among(Insert(side, q, o), id)
  {
    var i :| 0 <= i < |q| && q[i].id == id;
    var k := InsertPos(side, q, o.price);
    var j := if i < k then i else i + 1;
    hide Insert, InsertPos;
    InsertIndex(side, q, o, j);
    assert Insert(side, q, o)[j].id == id;
  }

  lemma RestingTracked(infos: Infos, u: Track, o: OrderView, filled: real)
    requires TakerTracked(infos, u, o, o.quantity - filled) && o.filled == 0.0
    ensures Tracked(infos, u, FillBy(o, filled))
  {
  }

  /** After the trades of a placement its book is tracked, with the remainder resting if it rests. */
  lemma PlaceTradesTracked(infos: Infos, t: Track, b: Book, o: OrderView)
    requires BookTracked(infos, t, b) && Known(infos, t, o) && o.terms.market == b.market && !b.Has(o.id)
    ensures var p := Place(b, o);
            var u := ApplyAll(t, TradeEvents(p.trades));
            && AllOk(infos, t, TradeEvents(p.trades))
            && TakerTracked(infos, u, o, o.quantity - p.filled)
            && BookTracked(infos, u, p.book)
            && (forall id | id != o.id && !b.Has(id) :: Same(t, u, id))
            && KeptOrFilled(infos, u, b, p.book)
  {
    hide Match, Inv, Same, Insert, PostOnlyCrosses, FokUnfillable, Tracked, AllTracked, EventOk;
    var p := Place(b, o);
    var u := ApplyAll(t, TradeEvents(p.trades));
    PlaceKeepsInv(b, o);
    if PostOnlyCrosses(b, o) || FokUnfillable(b, o) {
      SameAccount(t);
    } else {
      TradesTracked(infos, t, b, o);
      hide AllOk, ApplyAll;
      var opp := Opposite(o.side);
      var out := Match(o, b.On(opp), o.quantity);
      var after := b.With(opp, out.makers);
      if out.left > 0.0 && Rests(o) {
        RestingTracked(infos, u, o, p.filled);
        InsertTracked(infos, u, after, o.side, FillBy(o, p.filled));
        InsertKeeps(infos, u, b, after, o.side, FillBy(o, p.filled));
      }
    }
  }

  /** The events of one placement fit the account, from acceptance to the closing event. */
  lemma PlaceTracked(infos: Infos, t: Track, b: Book, o: OrderView)
    requires BookTracked(infos, t, b) && Known(infos, t, o) && o.terms.market == b.market && !b.Has(o.id)
    ensures var p := Place(b, o);
            && AllOk(infos, t, PlaceEvents(o, p))
            && PlacedWell(infos, t, b, o, ApplyAll(t, PlaceEvents(o, p)))
  {
    var p := Place(b, o);
    PlaceTradesTracked(infos, t, b, o);
    var trades, final := TradeEvents(p.trades), FinalEvents(o, p);
    var u := ApplyAll(t, trades);
    FinalTracked(infos, t, u, b, o);
    assert o.id in infos && o.id !in t.closed;
    hide Place, FinalEvents, PlacedWell, BookTracked, TakerTracked, Known;
    var first, last := AcceptedEvent(o, p), DepthEvent(p.book);
    OneEvent(infos, t, first);
    assert EventOk(infos, t, first) && Apply(t, first) == t;
    AllOkConcat(infos, t, [first], trades);
    AllOkConcat(infos, t, [first] + trades, final);
    OneEvent(infos, ApplyAll(u, final), last);
    AllOkConcat(infos, t, [first] + trades + final, [last]);
  }

  /** A placement leaves every other market's book in step with the account. */
  lemma OtherBookTracked(infos: Infos, t: Track, u: Track, b: Book, other: Book, id: string)
    requires BookTracked(infos, t, b) && BookTracked(infos, t, other) && b.market != other.market
    requires id in infos && infos[id].market == b.market
    requires forall x | x != id && !b.Has(x) :: Same(t, u, x)
    ensures BookTracked(infos, u, other)
  {
    OtherSide(infos, t, u, b, other, Buy, id);
    OtherSide(infos, t, u, b, other, Sell, id);
  }

  lemma OtherSide(infos: Infos, t: Track, u: Track, b: Book, other: Book, side: Side, id: string)
    requires BookTracked(infos, t, b) && BookTracked(infos, t, other) && b.market != other.market
    requires id in infos && infos[id].market == b.market
    requires forall x | x != id && !b.Has(x) :: Same(t, u, x)
    ensures AllTracked(infos, u, other.On(side))
  {
    hide Same, Sorted, DistinctIds, DisjointIds, BookSpec.Uncrossed;
    forall i | 0 <= i < |other.On(side)|
      ensures Same(t, u, other.On(side)[i].id)
    {
      var x := other.On(side)[i];
      assert Tracked(infos, t, x) && infos[x.id].market == other.market;
      if b.Has(x.id) {
        HasInfo(infos, t, b, x.id);
      }
    }
    SameKeepsTracked(infos, t, u, other.On(side));
  }

  // ----- one command, and every run -----

  ghost predicate Closes(ev: EventView, id: string) {
    (ev.Completed? || ev.TurnedDown? || ev.Withdrawn?) && ev.orderId == id
  }

  /** Orders are closed by closing events and by nothing else. */
  lemma {:induction false} ClosedByEvents(t: Track, evs: seq<EventView>)
    ensures forall id :: id in ApplyAll(t, evs).closed <==> id in t.closed || exists k | 0 <= k < |evs| :: Closes(evs[k], id)
    decreases |evs|
  {
    if evs != [] {
      var u, rest := Apply(t, evs[0]), evs[1..];
      ClosedByEvents(u, rest);
      forall id
        ensures id in ApplyAll(t, evs).closed <==> id in t.closed || exists k | 0 <= k < |evs| :: Closes(evs[k], id)
      {
        if k :| 0 <= k < |rest| && Closes(rest[k], id) {
          assert Closes(evs[k + 1], id);
        }
        if k :| 0 <= k < |evs| && Closes(evs[k], id) {
          assert k > 0 ==> Closes(rest[k - 1], id);
        }
      }
    }
  }

  lemma {:induction false} TradesCloseNone(ts: seq<TradeView>, k: nat, id: string)
    requires k < |TradeEvents(ts)|
    ensures !Closes(TradeEvents(ts)[k], id)
    decreases |ts|
  {
    if k > 0 {
      TradesCloseNone(ts[1..], k - 1, id);
    }
  }

  /** The events of a placement close no order but the one placed. */
  lemma PlaceCloses(books: Books, o: OrderView)
    ensures forall k, id | 0 <= k < |PlaceStep(books, o, None).events| && Closes(PlaceStep(books, o, None).events[k], id) ::
              id == o.id
  {
    var evs := PlaceStep(books, o, None).events;
    if WellFormedOrder(o) {
      var p := Place(BookOf(books, o.terms.market), o);
      var ts, final := TradeEvents(p.trades), FinalEvents(o, p);
      hide Place, TradeEvents;
      forall k, id | 0 <= k < |evs| && Closes(evs[k], id)
        ensures id == o.id
      {
        if 1 <= k <= |ts| {
          assert evs[k] == ts[k - 1];
          TradesCloseNone(p.trades, k - 1, id);
        }
      }
    }
  }

  /** Placing a known order: the events fit, all books stay tracked, and the order is closed or on its book. */
  lemma PlaceStepTracked(infos: Infos, t: Track, books: Books, o: OrderView)
    requires BooksTracked(infos, t, books) && Unprocessed(infos, t, books, o)
    ensures var s := PlaceStep(books, o, None); var u := ApplyAll(t, s.events);
            && AllOk(infos, t, s.events) && BooksTracked(infos, u, s.books)
            && (o.id in u.closed <==> !BookOf(s.books, o.terms.market).Has(o.id))
            && (forall id | id != o.id && !BookOf(books, o.terms.market).Has(id) :: Same(t, u, id))
            && KeptOrFilled(infos, u, BookOf(books, o.terms.market), BookOf(s.books, o.terms.market))
            && FilledOf(u, o.id) == (if WellFormedOrder(o) then Place(BookOf(books, o.terms.market), o).filled else 0.0)
            && u.closed <= t.closed + {o.id} && t.closed <= u.closed
  {
    hide Place, PlaceEvents, AllOk, ApplyAll, Same, Inv, BookTracked, KeptOrFilled, Closes;
    var s := PlaceStep(books, o, None);
    var u := ApplyAll(t, s.events);
    PlaceClosesOwn(t, books, o);
    if WellFormedOrder(o) {
      var m := o.terms.market;
      var b := BookOf(books, m);
      OwnBookTracked(infos, t, books, o);
      forall n | n in s.books
        ensures n != "" && s.books[n].market == n && BookTracked(infos, u, s.books[n])
      {
        if n != m {
          OtherBookTracked(infos, t, u, b, books[n], o.id);
        }
      }
    } else {
      InvalidTracked(infos, t, books, o);
    }
  }

  lemma PlaceClosesOwn(t: Track, books: Books, o: OrderView)
    ensures var u := ApplyAll(t, PlaceStep(books, o, None).events);
            u.closed <= t.closed + {o.id} && t.closed <= u.closed
  {
    hide PlaceStep, ApplyAll;
    PlaceCloses(books, o);
    ClosedByEvents(t, PlaceStep(books, o, None).events);
  }

  lemma OwnBookTracked(infos: Infos, t: Track, books: Books, o: OrderView)
    requires BooksTracked(infos, t, books) && Unprocessed(infos, t, books, o) && WellFormedOrder(o)
    ensures var b := BookOf(books, o.terms.market);
            && BookTracked(infos, t, b) && b.market == o.terms.market
            && AllOk(infos, t, PlaceEvents(o, Place(b, o)))
            && PlacedWell(infos, t, b, o, ApplyAll(t, PlaceEvents(o, Place(b, o))))
            && Place(b, o).book.market == b.market
  {
    hide Place, PlaceEvents, AllOk, ApplyAll, PlacedWell;
    var b := BookOf(books, o.terms.market);
    assert BookTracked(infos, t, b) && b.market == o.terms.market;
    PlaceTracked(infos, t, b, o);
    PlaceKeepsInv(b, o);
  }

  /** An order that is not well formed is turned down, and nothing else happens. */
  lemma InvalidTracked(infos: Infos, t: Track, books: Books, o: OrderView)
    requires BooksTracked(infos, t, books) && Unprocessed(infos, t, books, o) && !WellFormedOrder(o)
    ensures var s := PlaceStep(books, o, None); var u := ApplyAll(t, s.events);
            && AllOk(infos, t, s.events) && BooksTracked(infos, u, s.books) && s.books == books
            && (forall id | id != o.id :: Same(t, u, id)) && o.id in u.closed && FilledOf(u, o.id) == 0.0
            && KeptOrFilled(infos, u, BookOf(books, o.terms.market), BookOf(books, o.terms.market))
  {
    var s := PlaceStep(books, o, None);
    var u := ApplyAll(t, s.events);
    var ev := TurnedDown(o.id, o.terms.market, "invalid_order");
    OneEvent(infos, t, ev);
    CloseTracked(t, o.id, ev);
    hide Inv;
    forall n | n in books
      ensures BookTracked(infos, u, books[n])
    {
      NotElsewhere(infos, t, books, o, n);
      ClosedElsewhere(infos, t, u, books[n], o.id);
    }
  }

  /** An order not on its own book is on no other market's book either. */
  lemma NotElsewhere(infos: Infos, t: Track, books: Books, o: OrderView, m: string)
    requires BooksTracked(infos, t, books) && Unprocessed(infos, t, books, o)
    ensures !BookOf(books, m).Has(o.id)
  {
    if BookOf(books, m).Has(o.id) {
      HasInfo(infos, t, books[m], o.id);
    }
  }

  /** Canceling: at most one closing event, of an order that was resting and now is not. */
  lemma CancelStepTracked(infos: Infos, t: Track, books: Books, m: string, id: string, userId: string)
    requires BooksTracked(infos, t, books)
    ensures var s := CancelStep(books, m, id, userId); var u := ApplyAll(t, s.events);
            && AllOk(infos, t, s.events) && BooksTracked(infos, u, s.books)
            && (forall x | x != id || m !in books || !books[m].Has(id) :: Same(t, u, x))
            && (m in books && books[m].Has(id) ==> id in u.closed)
            && u.filled == t.filled
  {
    var s := CancelStep(books, m, id, userId);
    var u := ApplyAll(t, s.events);
    SameAccount(t);
    if m in books && books[m].Has(id) {
      var b, c := books[m], Cancel(books[m], id);
      var ev := Withdrawn(id, m, userId, None, None);
      CancelTracked(infos, t, b, id, ev);
      var v := Apply(t, ev);
      OneEvent(infos, v, DepthEvent(c));
      OneEvent(infos, t, ev);
      assert s.events == [ev] + [DepthEvent(c)];
      AllOkConcat(infos, t, [ev], [DepthEvent(c)]);
      assert u == v;
      hide BookTracked, EventOk, Inv;
      forall n | n in s.books
        ensures n != "" && s.books[n].market == n && BookTracked(infos, u, s.books[n])
      {
        if n != m {
          HasInfo(infos, t, b, id);
          OtherBookTracked(infos, t, u, b, books[n], id);
        }
      }
    }
  }

  lemma HasInfo(infos: Infos, t: Track, b: Book, id: string)
    requires BookTracked(infos, t, b) && b.Has(id)
    ensures id in infos && infos[id].market == b.market && id !in t.closed
    ensures 0.0 <= FilledOf(t, id) < infos[id].quantity
  {
    var o :| (o in b.bids || o in b.asks) && o.id == id;
    assert Tracked(infos, t, o);
    if o in b.bids {
      var i :| 0 <= i < |b.bids| && b.bids[i] == o;
      assert Live(b.bids[i]);
    } else {
      var i :| 0 <= i < |b.asks| && b.asks[i] == o;
      assert Live(b.asks[i]);
    }
  }

  lemma CancelTracked(infos: Infos, t: Track, b: Book, id: string, ev: EventView)
    requires BookTracked(infos, t, b) && b.Has(id)
    requires ev.Withdrawn? && ev.orderId == id && ev.market == b.market && ev.done.None?
    ensures EventOk(infos, t, ev) && BookTracked(infos, Apply(t, ev), Cancel(b, id))
    ensures Apply(t, ev).filled == t.filled && Apply(t, ev).closed == t.closed + {id}
    ensures forall x | x != id :: Same(t, Apply(t, ev), x)
  {
    HasInfo(infos, t, b, id);
    CancelKeepsInv(b, id);
    CloseTracked(t, id, ev);
    var u := Apply(t, ev);
    RemovedTracked(infos, t, u, b.market, Buy, b.bids, id);
    RemovedTracked(infos, t, u, b.market, Sell, b.asks, id);
  }

  lemma RemovedTracked(infos: Infos, t: Track, u: Track, market: string, side: Side, q: seq<OrderView>, id: string)
    requires SideInv(market, side, q) && AllTracked(infos, t, q)
    requires forall x | x != id :: Same(t, u, x)
    ensures AllTracked(infos, u, Without(q, id))
  {
    RemovalKeepsSide(market, side, q, id);
    hide Without, SideInv, Same, Tracked;
    var r := Without(q, id);
    forall i | 0 <= i < |r|
      ensures Tracked(infos, t, r[i]) && Same(t, u, r[i].id)
    {
      var j :| 0 <= j < |q| && q[j] == r[i];
    }
    SameKeepsTracked(infos, t, u, r);
  }

  /** A placement adds no id to its book but its own. */
  lemma PlaceAddsOnly(b: Book, o: OrderView, id: string)
    requires Inv(b) && Placeable(b, o) && id != o.id && !b.Has(id)
    ensures !Place(b, o).book.Has(id)
  {
    MatchKeepsIds(b, o, id);
    hide Match, Inv, PostOnlyCrosses, FokUnfillable, Insert;
    var opp := Opposite(o.side);
    var out := Match(o, b.On(opp), o.quantity);
    InsertAddsOnly(b.With(opp, out.makers), o.side, FillBy(o, o.quantity - out.left), id);
  }

  lemma InsertAddsOnly(b: Book, side: Side, o: OrderView, id: string)
    requires !b.Has(id) && o.id != id
    ensures !b.With(side, Insert(side, b.On(side), o)).Has(id)
  {
    var own := b.On(side);
    forall x | x in Insert(side, own, o)
      ensures x.id != id
    {
      var i :| 0 <= i < |Insert(side, own, o)| && Insert(side, own, o)[i] == x;
      InsertIndex(side, own, o, i);
      assert x == o || x in own;
    }
  }

  lemma CancelAddsOnly(b: Book, gone: string, id: string)
    requires Inv(b) && !b.Has(id)
    ensures !Cancel(b, gone).Has(id)
  {
    RemovalKeepsSide(b.market, Buy, b.bids, gone);
    RemovalKeepsSide(b.market, Sell, b.asks, gone);
    hide Without, Inv;
    assert forall x | x in Cancel(b, gone).bids :: x in b.bids;
    assert forall x | x in Cancel(b, gone).asks :: x in b.asks;
  }

  lemma EmptyInv(market: string)
    ensures Inv(Book(market, [], []))
  {
  }

  /** Runs: the external fallback is off, every placement is known, unprocessed, and placed once. */
  ghost predicate RunReady(infos: Infos, t: Track, books: Books, cs: seq<Command>) {
    && (forall i | 0 <= i < |cs| && cs[i].PlaceCommand? :: cs[i].mark.None? && Unprocessed(infos, t, books, cs[i].order))
    && (forall i, j | 0 <= i < j < |cs| && cs[i].PlaceCommand? && cs[j].PlaceCommand? ::
          cs[i].order.id != cs[j].order.id)
  }

  /** One command leaves every other waiting order unprocessed. */
  lemma StepKeepsWaiting(infos: Infos, t: Track, books: Books, c: Command, o: OrderView)
    requires BooksTracked(infos, t, books) && Unprocessed(infos, t, books, o)
    requires c.PlaceCommand? ==> c.mark.None? && Unprocessed(infos, t, books, c.order) && c.order.id != o.id
    ensures var s := Step(books, c); Unprocessed(infos, ApplyAll(t, s.events), s.books, o)
  {
    hide Inv, AllTracked, Place, PlaceEvents, AllOk, ApplyAll, AllOk;
    var s := Step(books, c);
    NotElsewhere(infos, t, books, o, o.terms.market);
    if c.PlaceCommand? {
      PlaceStepTracked(infos, t, books, c.order);
      NotElsewhere(infos, t, books, o, c.order.terms.market);
      assert Same(t, ApplyAll(t, s.events), o.id);
      if WellFormedOrder(c.order) {
        EmptyInv(c.order.terms.market);
        PlaceAddsOnly(BookOf(books, c.order.terms.market), c.order, o.id);
      }
    } else {
      CancelStepTracked(infos, t, books, c.market, c.orderId, c.userId);
      NotElsewhere(infos, t, books, o, c.market);
      assert Same(t, ApplyAll(t, s.events), o.id);
      if c.market in books {
        CancelAddsOnly(books[c.market], c.orderId, o.id);
      }
    }
  }

  /** Every run: each event fits the account of those before it, and the books stay in step with it. */
  lemma {:induction false} RunTracked(infos: Infos, t: Track, books: Books, cs: seq<Command>)
    requires BooksTracked(infos, t, books) && RunReady(infos, t, books, cs)
    ensures var r := Run(books, cs);
            AllOk(infos, t, r.events) && BooksTracked(infos, ApplyAll(t, r.events), r.books)
    decreases |cs|
  {
    hide BooksTracked, Unprocessed, Step, AllOk, ApplyAll;
    if cs == [] {
      NoEvents(infos, t);
    } else {
      var c, first := cs[0], Step(books, cs[0]);
      var u := ApplyAll(t, first.events);
      StepTracked(infos, t, books, c);
      forall i | 0 <= i < |cs[1..]| && cs[1..][i].PlaceCommand?
        ensures Unprocessed(infos, u, first.books, cs[1..][i].order)
      {
        assert cs[1..][i] == cs[i + 1];
        StepKeepsWaiting(infos, t, books, c, cs[1..][i].order);
      }
      RunTracked(infos, u, first.books, cs[1..]);
      AllOkConcat(infos, t, first.events, Run(first.books, cs[1..]).events);
    }
  }

  lemma StepTracked(infos: Infos, t: Track, books: Books, c: Command)
    requires BooksTracked(infos, t, books)
    requires c.PlaceCommand? ==> c.mark.None? && Unprocessed(infos, t, books, c.order)
    ensures var s := Step(books, c); AllOk(infos, t, s.events) && BooksTracked(infos, ApplyAll(t, s.events), s.books)
  {
    if c.PlaceCommand? {
      PlaceStepTracked(infos, t, books, c.order);
    } else {
      CancelStepTracked(infos, t, books, c.market, c.orderId, c.userId);
    }
  }
}
