/** What holds over every run of the engine, read off the account that its events obey. */
module Runs {
  import opened Orders
  import opened Greedy
  import opened BookSpec
  import opened Exchange
  import opened Discipline
  import opened Sums

  // ----- runs from an empty engine -----

  ghost function InfosOf(cs: seq<Command>): Infos
    decreases |cs|
  {
    if cs == [] then map[]
    else if cs[0].PlaceCommand? then InfosOf(cs[1..])[cs[0].order.id := InfoOf(cs[0].order)]
    else InfosOf(cs[1..])
  }

  /** No id is placed twice, nothing arrives filled, and the external fallback is off. */
  ghost predicate FreshRun(cs: seq<Command>) {
    && (forall i | 0 <= i < |cs| && cs[i].PlaceCommand? :: cs[i].mark.None? && cs[i].order.filled == 0.0)
    && (forall i, j | 0 <= i < j < |cs| && cs[i].PlaceCommand? && cs[j].PlaceCommand? ::
          cs[i].order.id != cs[j].order.id)
  }

  lemma {:induction false} InfosOfRun(cs: seq<Command>)
    requires FreshRun(cs)
    ensures forall i | 0 <= i < |cs| && cs[i].PlaceCommand? ::
              cs[i].order.id in InfosOf(cs) && InfosOf(cs)[cs[i].order.id] == InfoOf(cs[i].order)
    ensures forall id | id in InfosOf(cs) :: exists i | 0 <= i < |cs| :: cs[i].PlaceCommand? && cs[i].order.id == id
    decreases |cs|
  {
    hide InfoOf;
    if cs != [] {
      var rest := cs[1..];
      assert forall i | 0 <= i < |rest| :: rest[i] == cs[i + 1];
      InfosOfRun(rest);
      forall id | id in InfosOf(cs)
        ensures exists i | 0 <= i < |cs| :: cs[i].PlaceCommand? && cs[i].order.id == id
      {
        if id in InfosOf(rest) {
          var i :| 0 <= i < |rest| && rest[i].PlaceCommand? && rest[i].order.id == id;
          assert cs[i + 1].PlaceCommand? && cs[i + 1].order.id == id;
        } else {
          assert cs[0].PlaceCommand? && cs[0].order.id == id;
        }
      }
    }
  }

  lemma FreshRunReady(cs: seq<Command>)
    requires FreshRun(cs)
    ensures RunReady(InfosOf(cs), NO_EVENTS, map[], cs) && BooksTracked(InfosOf(cs), NO_EVENTS, map[])
  {
    InfosOfRun(cs);
  }

  /** Every run with fresh ids publishes a stream in which each event fits those before it. */
  lemma EveryRunDisciplined(cs: seq<Command>)
    requires FreshRun(cs)
    ensures var r := Run(map[], cs);
            && AllOk(InfosOf(cs), NO_EVENTS, r.events)
            && BooksTracked(InfosOf(cs), ApplyAll(NO_EVENTS, r.events), r.books)
  {
    FreshRunReady(cs);
    RunTracked(InfosOf(cs), NO_EVENTS, map[], cs);
  }

  // ----- fills are the sum of trades -----

  /** What one event trades for an order. */
  ghost function TradedIn(ev: EventView, id: string): real {
    if ev.Traded? then (if ev.trade.makerOrderId == id then ev.trade.quantity else 0.0)
                       + (if ev.trade.takerOrderId == id then ev.trade.quantity else 0.0)
    else 0.0
  }

  ghost function TradedFor(evs: seq<EventView>, id: string): real
    decreases |evs|
  {
    if evs == [] then 0.0 else TradedIn(evs[0], id) + TradedFor(evs[1..], id)
  }

  ghost function Volume(evs: seq<EventView>): real
    decreases |evs|
  {
    if evs == [] then 0.0 else (if evs[0].Traded? then evs[0].trade.quantity else 0.0) + Volume(evs[1..])
  }

  /** The account of fills is the sum of the trades, and stays between zero and the order's quantity. */
  lemma {:induction false} FilledIsTraded(infos: Infos, t: Track, evs: seq<EventView>, id: string)
    requires AllOk(infos, t, evs)
    ensures FilledOf(ApplyAll(t, evs), id) == FilledOf(t, id) + TradedFor(evs, id)
    ensures TradedFor(evs, id) >= 0.0
    ensures id in infos && FilledOf(t, id) <= infos[id].quantity ==> FilledOf(ApplyAll(t, evs), id) <= infos[id].quantity
    decreases |evs|
  {
    if evs != [] {
      FilledIsTraded(infos, Apply(t, evs[0]), evs[1..], id);
    }
  }

  /** In every reachable state a resting order is filled by exactly the sum of its trades, below its quantity. */
  lemma RestingFilledIsTraded(cs: seq<Command>, market: string, i: nat, side: Side)
    requires FreshRun(cs)
    requires var r := Run(map[], cs); market in r.books && i < |r.books[market].On(side)|
    ensures var r := Run(map[], cs); var o := r.books[market].On(side)[i];
            o.filled == TradedFor(r.events, o.id) && 0.0 <= o.filled < o.quantity
  {
    EveryRunDisciplined(cs);
    var r := Run(map[], cs);
    var u := ApplyAll(NO_EVENTS, r.events);
    var o := r.books[market].On(side)[i];
    assert BookTracked(InfosOf(cs), u, r.books[market]);
    assert Tracked(InfosOf(cs), u, o) && Live(o);
    FilledIsTraded(InfosOf(cs), NO_EVENTS, r.events, o.id);
  }

  /** Fresh ids, whether or not the external fallback is on. */
  ghost predicate FreshIds(cs: seq<Command>) {
    && (forall i | 0 <= i < |cs| && cs[i].PlaceCommand? :: cs[i].order.filled == 0.0)
    && (forall i, j | 0 <= i < j < |cs| && cs[i].PlaceCommand? && cs[j].PlaceCommand? ::
          cs[i].order.id != cs[j].order.id)
  }

  ghost function WithoutMark(c: Command): Command {
    if c.PlaceCommand? then c.(mark := None) else c
  }

  ghost function WithoutMarks(cs: seq<Command>): (ds: seq<Command>)
    ensures |ds| == |cs| && forall i | 0 <= i < |cs| :: ds[i] == WithoutMark(cs[i])
  {
    seq(|cs|, i requires 0 <= i < |cs| => WithoutMark(cs[i]))
  }

  /** The fallback changes what is reported, never the books. */
  lemma {:induction false} BooksIgnoreMarks(books: Books, cs: seq<Command>)
    ensures Run(books, cs).books == Run(books, WithoutMarks(cs)).books
    decreases |cs|
  {
    hide Place, PlaceEvents;
    if cs != [] {
      assert WithoutMarks(cs)[1..] == WithoutMarks(cs[1..]);
      BooksIgnoreMarks(Step(books, cs[0]).books, cs[1..]);
    }
  }

  /** In every reachable state, the fallback on or off, every bid is strictly below every ask. */
  lemma NeverCrossed(cs: seq<Command>, market: string, i: nat, j: nat)
    requires FreshIds(cs)
    requires var r := Run(map[], cs); market in r.books && i < |r.books[market].bids| && j < |r.books[market].asks|
    ensures var r := Run(map[], cs); r.books[market].bids[i].price < r.books[market].asks[j].price
  {
    var ds := WithoutMarks(cs);
    BooksIgnoreMarks(map[], cs);
    EveryRunDisciplined(ds);
    hide Run;
    var r := Run(map[], ds);
    assert BookTracked(InfosOf(ds), ApplyAll(NO_EVENTS, r.events), r.books[market]);
  }

  // ----- one closing event per order -----

  ghost predicate Concerns(ev: EventView, id: string) {
    Closes(ev, id) || (ev.Accepted? && ev.orderId == id) || TradedIn(ev, id) != 0.0
  }

  lemma {:induction false} ClosedIsFinal(infos: Infos, t: Track, evs: seq<EventView>, id: string, j: nat)
    requires AllOk(infos, t, evs) && id in t.closed && j < |evs|
    ensures !Concerns(evs[j], id)
    decreases |evs|
  {
    if j > 0 {
      ClosedIsFinal(infos, Apply(t, evs[0]), evs[1..], id, j - 1);
    }
  }

  /** Nothing is published about an order after its closing event, so margin is released at most once. */
  lemma {:induction false} AtMostOneRelease(infos: Infos, t: Track, evs: seq<EventView>, id: string, i: nat, j: nat)
    requires AllOk(infos, t, evs) && i < j < |evs| && Closes(evs[i], id)
    ensures !Concerns(evs[j], id)
    decreases |evs|
  {
    if i == 0 {
      ClosedIsFinal(infos, Apply(t, evs[0]), evs[1..], id, j - 1);
    } else {
      AtMostOneRelease(infos, Apply(t, evs[0]), evs[1..], id, i - 1, j - 1);
    }
  }

  lemma {:induction false} TradedForAt(infos: Infos, t: Track, evs: seq<EventView>, id: string, k: nat)
    requires AllOk(infos, t, evs) && k <= |evs|
    ensures AllOk(infos, t, evs[..k]) && AllOk(infos, ApplyAll(t, evs[..k]), evs[k..])
    ensures TradedFor(evs, id) == TradedFor(evs[..k], id) + TradedFor(evs[k..], id)
    decreases |evs|
  {
    assert evs == evs[..k] + evs[k..];
    AllOkConcat(infos, t, evs[..k], evs[k..]);
    if k > 0 {
      assert evs[1..][..k - 1] == evs[..k][1..] && evs[1..][k - 1..] == evs[k..];
      TradedForAt(infos, Apply(t, evs[0]), evs[1..], id, k - 1);
    }
  }

  lemma {:induction false} NoTradesAfterClosing(infos: Infos, t: Track, evs: seq<EventView>, id: string)
    requires AllOk(infos, t, evs) && id in t.closed
    ensures TradedFor(evs, id) == 0.0
    decreases |evs|
  {
    if evs != [] {
      ClosedIsFinal(infos, t, evs, id, 0);
      NoTradesAfterClosing(infos, Apply(t, evs[0]), evs[1..], id);
    }
  }

  /**
   * What a closing event says about all trades of its order in the stream: completed orders have traded their
   * quantity, rejected ones nothing, and what a canceled one has traded plus what it releases is its quantity.
   */
  lemma ClosingSettlesTrades(infos: Infos, evs: seq<EventView>, id: string, k: nat)
    requires AllOk(infos, NO_EVENTS, evs) && k < |evs| && Closes(evs[k], id)
    ensures id in infos
    ensures evs[k].Completed? ==> TradedFor(evs, id) == infos[id].quantity == evs[k].filled
    ensures evs[k].TurnedDown? ==> TradedFor(evs, id) == 0.0
    ensures evs[k].Withdrawn? ==> 0.0 <= TradedFor(evs, id) < infos[id].quantity
    ensures evs[k].Withdrawn? && evs[k].done.Some? ==> evs[k].done.value == TradedFor(evs, id)
    ensures TradedFor(evs, id) == FilledOf(ApplyAll(NO_EVENTS, evs[..k]), id)
  {
    TradedForAt(infos, NO_EVENTS, evs, id, k);
    var t := ApplyAll(NO_EVENTS, evs[..k]);
    FilledIsTraded(infos, NO_EVENTS, evs[..k], id);
    var rest := evs[k..];
    assert rest[0] == evs[k];
    NoTradesAfterClosing(infos, Apply(t, rest[0]), rest[1..], id);
  }

  // ----- where every order ends up -----

  /** An order the engine has processed is closed, on its book, or completely filled. */
  ghost predicate Settled(infos: Infos, t: Track, books: Books, id: string) {
    && id in infos
    && (id in t.closed || BookOf(books, infos[id].market).Has(id) || FilledOf(t, id) == infos[id].quantity)
  }

  lemma CancelKeepsOthers(b: Book, gone: string, id: string)
    requires b.Has(id) && id != gone
    ensures Cancel(b, gone).Has(id)
  {
    HasAmong(b, id);
    HasAmong(Cancel(b, gone), id);
    if Among(b.bids, id) {
      WithoutKeeps(b.bids, gone, id);
    } else {
      WithoutKeeps(b.asks, gone, id);
    }
  }

  lemma WithoutKeeps(q: seq<OrderView>, gone: string, id: string)
    requires Among(q, id) && id != gone
    ensures Among(Without(q, gone), id)
  {
    var i :| 0 <= i < |q| && q[i].id == id;
    var k := Find(q, gone);
    var j := if i < k || k == |q| then i else i - 1;
    WithoutIndex(q, gone, j);
  }

  /** One command keeps settled orders settled, and settles the order it places. */
  lemma StepSettles(infos: Infos, t: Track, books: Books, c: Command, id: string)
    requires BooksTracked(infos, t, books)
    requires c.PlaceCommand? ==> c.mark.None? && Unprocessed(infos, t, books, c.order)
    requires if c.PlaceCommand? && id == c.order.id then true else Settled(infos, t, books, id)
    ensures var s := Step(books, c); Settled(infos, ApplyAll(t, s.events), s.books, id)
  {
    hide Place, PlaceEvents, AllOk, ApplyAll, Inv, AllTracked, FilledOf, EventOk, Unprocessed, Cancel;
    var s := Step(books, c);
    var u := ApplyAll(t, s.events);
    if c.PlaceCommand? {
      PlaceSettles(infos, t, books, c.order, id);
    } else {
      CancelStepTracked(infos, t, books, c.market, c.orderId, c.userId);
      if id == c.orderId && c.market in books && books[c.market].Has(id) {
        HasInfo(infos, t, books[c.market], id);
      } else {
        assert Same(t, u, id);
        if c.market in books && books[c.market].Has(id) && c.orderId != id {
          CancelKeepsOthers(books[c.market], c.orderId, id);
        }
      }
    }
  }

  lemma PlaceSettles(infos: Infos, t: Track, books: Books, o: OrderView, id: string)
    requires BooksTracked(infos, t, books) && Unprocessed(infos, t, books, o)
    requires id == o.id || Settled(infos, t, books, id)
    ensures var s := PlaceStep(books, o, None); Settled(infos, ApplyAll(t, s.events), s.books, id)
  {
    var s := PlaceStep(books, o, None);
    var u := ApplyAll(t, s.events);
    var m := o.terms.market;
    PlaceStepTracked(infos, t, books, o);
    hide Place, PlaceEvents, AllOk, ApplyAll, Inv, AllTracked, FilledOf, EventOk;
    if id != o.id {
      if BookOf(books, m).Has(id) {
        HasInfo(infos, t, books[m], id);
      } else {
        assert Same(t, u, id);
        assert infos[id].market != m ==> BookOf(s.books, infos[id].market) == BookOf(books, infos[id].market);
      }
    }
  }

  lemma {:induction false} RunSettles(infos: Infos, t: Track, books: Books, cs: seq<Command>, id: string)
    requires BooksTracked(infos, t, books) && RunReady(infos, t, books, cs)
    requires Settled(infos, t, books, id) || exists i | 0 <= i < |cs| :: cs[i].PlaceCommand? && cs[i].order.id == id
    ensures var r := Run(books, cs); Settled(infos, ApplyAll(t, r.events), r.books, id)
    decreases |cs|
  {
    hide BooksTracked, Unprocessed, Step, AllOk, ApplyAll, Settled;
    if cs == [] {
      NoEvents(infos, t);
    } else {
      var c, first := cs[0], Step(books, cs[0]);
      var u := ApplyAll(t, first.events);
      StepTracked(infos, t, books, c);
      RunReadyTail(infos, t, books, cs);
      if (c.PlaceCommand? && c.order.id == id) || Settled(infos, t, books, id) {
        StepSettles(infos, t, books, c, id);
      } else {
        var i :| 0 <= i < |cs| && cs[i].PlaceCommand? && cs[i].order.id == id;
        assert cs[1..][i - 1] == cs[i];
      }
      RunSettles(infos, u, first.books, cs[1..], id);
      AllOkConcat(infos, t, first.events, Run(first.books, cs[1..]).events);
    }
  }

  lemma RunReadyTail(infos: Infos, t: Track, books: Books, cs: seq<Command>)
    requires cs != [] && BooksTracked(infos, t, books) && RunReady(infos, t, books, cs)
    ensures var s := Step(books, cs[0]); RunReady(infos, ApplyAll(t, s.events), s.books, cs[1..])
  {
    hide BooksTracked, Unprocessed, Step, ApplyAll;
    var first := Step(books, cs[0]);
    var u := ApplyAll(t, first.events);
    forall i | 0 <= i < |cs[1..]| && cs[1..][i].PlaceCommand?
      ensures cs[1..][i].mark.None? && Unprocessed(infos, u, first.books, cs[1..][i].order)
    {
      assert cs[1..][i] == cs[i + 1];
      StepKeepsWaiting(infos, t, books, cs[0], cs[1..][i].order);
    }
  }

  // ----- conservation of volume -----

  /** What the order has open on the book, if it rests there. */
  ghost function OpenOn(b: Book, id: string): real {
    var k, l := Find(b.bids, id), Find(b.asks, id);
    if k < |b.bids| then OpenQty(b.bids[k]) else if l < |b.asks| then OpenQty(b.asks[l]) else 0.0
  }

  /**
   * What one command gives back of an order without a trade: all of a rejected order, the remainder of an order that
   * does not rest, and what a canceled order had open on the book.
   */
  ghost function ReleasedAt(books: Books, c: Command, id: string): real {
    match c
    case PlaceCommand(o, _) =>
      if o.id != id then 0.0
      else if !WellFormedOrder(o) then o.quantity
      else
        var p := Place(BookOf(books, o.terms.market), o);
        if p.status.Rejected? then o.quantity else if Rests(o) then 0.0 else o.quantity - p.filled
    case CancelCommand(m, x, _) => if x == id && m in books then OpenOn(books[m], id) else 0.0
  }

  /** What a run gives back of an order, added up command by command from the books. */
  ghost function ReleasedIn(books: Books, cs: seq<Command>, id: string): real
    decreases |cs|
  {
    if cs == [] then 0.0 else ReleasedAt(books, cs[0], id) + ReleasedIn(Step(books, cs[0]).books, cs[1..], id)
  }

  /** What the account of events says was given back. */
  ghost function Unfilled(infos: Infos, t: Track, id: string): real
    requires id in infos
  {
    if id in t.closed then infos[id].quantity - FilledOf(t, id) else 0.0
  }

  lemma OpenIsRemainder(infos: Infos, t: Track, b: Book, id: string)
    requires BookTracked(infos, t, b)
    ensures if b.Has(id) then id in infos && OpenOn(b, id) == infos[id].quantity - FilledOf(t, id) && id !in t.closed
            else OpenOn(b, id) == 0.0
  {
    HasAmong(b, id);
    hide Inv;
    var k, l := Find(b.bids, id), Find(b.asks, id);
    if k < |b.bids| {
      assert Tracked(infos, t, b.bids[k]);
    } else if l < |b.asks| {
      assert Tracked(infos, t, b.asks[l]);
    }
  }

  /** What a placement gives back, of its own order or of another one. */
  lemma PlaceReleases(infos: Infos, t: Track, books: Books, o: OrderView, id: string)
    requires BooksTracked(infos, t, books) && Unprocessed(infos, t, books, o) && id in infos
    ensures var s := PlaceStep(books, o, None);
            Unfilled(infos, ApplyAll(t, s.events), id) == Unfilled(infos, t, id) + ReleasedAt(books, PlaceCommand(o, None), id)
  {
    hide PlaceStep, Place, AllOk, ApplyAll, BooksTracked, BookOf, WellFormedOrder;
    PlaceStepTracked(infos, t, books, o);
    var u := ApplyAll(t, PlaceStep(books, o, None).events);
    if id == o.id {
      PlacedRests(infos, t, books, o);
    } else if BookOf(books, o.terms.market).Has(id) {
      RestingIsOpen(infos, t, books, o.terms.market, id);
    } else {
      assert Same(t, u, id);
    }
  }

  lemma RestingIsOpen(infos: Infos, t: Track, books: Books, m: string, id: string)
    requires BooksTracked(infos, t, books) && BookOf(books, m).Has(id)
    ensures id !in t.closed
  {
    HasInfo(infos, t, BookOf(books, m), id);
  }

  lemma PlacedRests(infos: Infos, t: Track, books: Books, o: OrderView)
    requires BooksTracked(infos, t, books) && Unprocessed(infos, t, books, o)
    ensures o.id !in t.closed && o.id in infos && infos[o.id].quantity == o.quantity && FilledOf(t, o.id) == 0.0
    ensures var after := BookOf(PlaceStep(books, o, None).books, o.terms.market);
            if !WellFormedOrder(o) then !after.Has(o.id)
            else
              var p := Place(BookOf(books, o.terms.market), o);
              && (p.status.Rejected? ==> !after.Has(o.id) && p.filled == 0.0)
              && (!p.status.Rejected? ==>
                    && (after.Has(o.id) <==> Rests(o) && p.filled < o.quantity) && p.filled <= o.quantity)
  {
    var b := BookOf(books, o.terms.market);
    if WellFormedOrder(o) {
      EmptyInv(o.terms.market);
      assert Placeable(b, o);
      PlaceConserves(b, o);
      if !Place(b, o).status.Rejected? {
        RestsOnBook(b, o);
      }
    }
    hide Place, PlaceEvents, Inv, AllTracked, SumOpen, SumTrades;
  }

  lemma CancelReleases(infos: Infos, t: Track, books: Books, m: string, x: string, userId: string, id: string)
    requires BooksTracked(infos, t, books) && id in infos
    ensures var s := CancelStep(books, m, x, userId);
            Unfilled(infos, ApplyAll(t, s.events), id) == Unfilled(infos, t, id) + ReleasedAt(books, CancelCommand(m, x, userId), id)
  {
    hide CancelStep, AllOk, ApplyAll, OpenOn, BookTracked, FilledOf;
    CancelStepTracked(infos, t, books, m, x, userId);
    CancelSameFills(infos, t, books, m, x, userId, id);
    if m in books {
      assert BookTracked(infos, t, books[m]);
      OpenIsRemainder(infos, t, books[m], x);
    }
  }

  lemma CancelSameFills(infos: Infos, t: Track, books: Books, m: string, x: string, userId: string, id: string)
    requires BooksTracked(infos, t, books)
    ensures var u := ApplyAll(t, CancelStep(books, m, x, userId).events);
            FilledOf(u, id) == FilledOf(t, id) && (id != x || m !in books || !books[m].Has(x) ==> (id in u.closed <==> id in t.closed))
  {
    hide CancelStep, AllOk, ApplyAll, BooksTracked;
    CancelStepTracked(infos, t, books, m, x, userId);
    var u := ApplyAll(t, CancelStep(books, m, x, userId).events);
    if id != x || m !in books || !books[m].Has(x) {
      assert Same(t, u, id);
    }
  }

  /** What the account says was given back is what the books gave back. */
  lemma {:induction false} RunReleases(infos: Infos, t: Track, books: Books, cs: seq<Command>, id: string)
    requires BooksTracked(infos, t, books) && RunReady(infos, t, books, cs) && id in infos
    ensures Unfilled(infos, ApplyAll(t, Run(books, cs).events), id) == Unfilled(infos, t, id) + ReleasedIn(books, cs, id)
    decreases |cs|
  {
    hide BooksTracked, Unprocessed, Step, AllOk, ApplyAll, ReleasedAt, Unfilled;
    if cs == [] {
      NoEvents(infos, t);
    } else {
      var c, first := cs[0], Step(books, cs[0]);
      StepTracked(infos, t, books, c);
      RunReadyTail(infos, t, books, cs);
      StepReleases(infos, t, books, c, id);
      RunReleases(infos, ApplyAll(t, first.events), first.books, cs[1..], id);
      AllOkConcat(infos, t, first.events, Run(first.books, cs[1..]).events);
    }
  }

  lemma StepReleases(infos: Infos, t: Track, books: Books, c: Command, id: string)
    requires BooksTracked(infos, t, books) && id in infos
    requires c.PlaceCommand? ==> c.mark.None? && Unprocessed(infos, t, books, c.order)
    ensures Unfilled(infos, ApplyAll(t, Step(books, c).events), id) == Unfilled(infos, t, id) + ReleasedAt(books, c, id)
  {
    hide *;
    CommandParts(books, c);
    if c.PlaceCommand? {
      PlaceReleases(infos, t, books, c.order, id);
    } else {
      CancelReleases(infos, t, books, c.market, c.orderId, c.userId, id);
    }
  }

  lemma CommandParts(books: Books, c: Command)
    ensures c.PlaceCommand? && c.mark.None? ==> c == PlaceCommand(c.order, None) && Step(books, c) == PlaceStep(books, c.order, None)
    ensures c.CancelCommand? ==>
              c == CancelCommand(c.market, c.orderId, c.userId) && Step(books, c) == CancelStep(books, c.market, c.orderId, c.userId)
  {
    hide PlaceStep, CancelStep;
  }

  /**
   * Every order placed in a run: its quantity is what it traded, what it has open on its book, and what rejections,
   * dropped remainders and cancellations gave back.
   */
  lemma OrderConserved(cs: seq<Command>, id: string)
    requires FreshRun(cs) && id in InfosOf(cs)
    ensures var r, info := Run(map[], cs), InfosOf(cs)[id];
            info.quantity == TradedFor(r.events, id) + OpenOn(BookOf(r.books, info.market), id) + ReleasedIn(map[], cs, id)
  {
    hide Run, AllOk, ApplyAll, OpenOn, InfosOf, FreshRun, ReleasedIn, RunReady, BookTracked;
    var r, infos := Run(map[], cs), InfosOf(cs);
    var u := ApplyAll(NO_EVENTS, r.events);
    EveryRunDisciplined(cs);
    FreshRunReady(cs);
    InfosOfRun(cs);
    FilledIsTraded(infos, NO_EVENTS, r.events, id);
    RunSettles(infos, NO_EVENTS, map[], cs, id);
    RunReleases(infos, NO_EVENTS, map[], cs, id);
    EmptyTracked(infos, u, infos[id].market);
    OpenIsRemainder(infos, u, BookOf(r.books, infos[id].market), id);
  }

  lemma EmptyTracked(infos: Infos, u: Track, market: string)
    ensures BookTracked(infos, u, Book(market, [], []))
  {
  }

  ghost function AddAt(f: string -> real, id: string, x: real): string -> real {
    k => if k == id then f(k) + x else f(k)
  }

  /** Each trade counts on both of its orders. */
  lemma {:induction false} VolumeOnBothSides(infos: Infos, t: Track, evs: seq<EventView>)
    requires AllOk(infos, t, evs)
    ensures Sum(infos.Keys, id => FilledOf(ApplyAll(t, evs), id)) == Sum(infos.Keys, id => FilledOf(t, id)) + 2.0 * Volume(evs)
    decreases |evs|
  {
    if evs == [] {
      SumSame(infos.Keys, id => FilledOf(ApplyAll(t, evs), id), id => FilledOf(t, id));
    } else {
      var u := Apply(t, evs[0]);
      VolumeOnBothSides(infos, u, evs[1..]);
      EventVolume(infos, t, evs[0]);
      SumSame(infos.Keys, id => FilledOf(ApplyAll(t, evs), id), id => FilledOf(ApplyAll(u, evs[1..]), id));
    }
  }

  lemma EventVolume(infos: Infos, t: Track, ev: EventView)
    requires EventOk(infos, t, ev)
    ensures Sum(infos.Keys, id => FilledOf(Apply(t, ev), id))
         == Sum(infos.Keys, id => FilledOf(t, id)) + 2.0 * (if ev.Traded? then ev.trade.quantity else 0.0)
  {
    var f, g: string -> real := id => FilledOf(t, id), id => FilledOf(Apply(t, ev), id);
    if ev.Traded? {
      var tr := ev.trade;
      var h := AddAt(f, tr.makerOrderId, tr.quantity);
      SumChange(infos.Keys, f, h, tr.makerOrderId);
      SumChange(infos.Keys, h, g, tr.takerOrderId);
    } else {
      SumSame(infos.Keys, f, g);
    }
  }

  /**
   * Conservation over every run with fresh ids: the volume placed is twice the volume traded, plus what rests on the
   * books, plus what rejections, dropped remainders and cancellations gave back.
   */
  lemma RunConserves(cs: seq<Command>)
    requires FreshRun(cs)
    ensures var r, infos := Run(map[], cs), InfosOf(cs);
            Sum(infos.Keys, id => if id in infos then infos[id].quantity else 0.0)
            == 2.0 * Volume(r.events)
             + Sum(infos.Keys, id => if id in infos then OpenOn(BookOf(r.books, infos[id].market), id) else 0.0)
             + Sum(infos.Keys, id => ReleasedIn(map[], cs, id))
  {
    var r, infos := Run(map[], cs), InfosOf(cs);
    var u := ApplyAll(NO_EVENTS, r.events);
    EveryRunDisciplined(cs);
    VolumeOnBothSides(infos, NO_EVENTS, r.events);
    var quantity: string -> real := id => if id in infos then infos[id].quantity else 0.0;
    var filled: string -> real := id => FilledOf(u, id);
    var open: string -> real := id => if id in infos then OpenOn(BookOf(r.books, infos[id].market), id) else 0.0;
    var released: string -> real := id => ReleasedIn(map[], cs, id);
    var rest: string -> real := id => open(id) + released(id);
    forall id | id in infos.Keys
      ensures quantity(id) == filled(id) + rest(id)
    {
      OrderConserved(cs, id);
      FilledIsTraded(infos, NO_EVENTS, r.events, id);
    }
    hide Run, BooksTracked, AllOk, ApplyAll, OpenOn, InfosOf, FreshRun, ReleasedIn;
    SumAdd(infos.Keys, filled, rest, quantity);
    SumAdd(infos.Keys, open, released, rest);
    NothingFilled(infos.Keys);
  }

  lemma {:induction false} NothingFilled(ids: set<string>)
    ensures Sum(ids, id => FilledOf(NO_EVENTS, id)) == 0.0
    decreases |ids|
  {
    if ids != {} {
      var k :| k in ids;
      SumPick(ids, id => FilledOf(NO_EVENTS, id), k);
      NothingFilled(ids - {k});
    }
  }
}
