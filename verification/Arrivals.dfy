/** Time priority over whole runs: at one price, orders stand in the order in which they were placed. */
module Arrivals {
  import opened Orders
  import opened Greedy
  import opened BookSpec
  import opened Exchange
  import opened Discipline
  import Runs
  import Outcomes

  /** For each order its position in the stream of commands. */
  type Times = map<string, nat>

  ghost predicate TimesOf(cs: seq<Command>, at: Times) {
    forall i | 0 <= i < |cs| && cs[i].PlaceCommand? :: cs[i].order.id in at && at[cs[i].order.id] == i
  }

  /** All placed before `now`, and those of one price in order. */
  ghost predicate Queued(at: Times, now: nat, q: seq<OrderView>) {
    && (forall i | 0 <= i < |q| :: q[i].id in at && at[q[i].id] < now)
    && (forall i, j | 0 <= i < j < |q| && q[i].price == q[j].price :: at[q[i].id] < at[q[j].id])
  }

  ghost predicate AllQueued(at: Times, now: nat, books: Books) {
    forall m | m in books :: Queued(at, now, books[m].bids) && Queued(at, now, books[m].asks)
  }

  lemma SuffixQueued(at: Times, now: nat, q: seq<OrderView>, p: seq<OrderView>)
    requires SuffixUpToFill(q, p) && Queued(at, now, p)
    ensures Queued(at, now, q)
  {
    var d := |p| - |q|;
    assert forall i | 0 <= i < |q| :: q[i].id == p[d + i].id && q[i].price == p[d + i].price;
  }

  lemma WithoutQueued(at: Times, now: nat, q: seq<OrderView>, id: string)
    requires Queued(at, now, q)
    ensures Queued(at, now, Without(q, id))
  {
    var k, r := Find(q, id), Without(q, id);
    forall i | 0 <= i < |r|
      ensures r[i] == q[if i < k then i else i + 1]
    {
      WithoutIndex(q, id, i);
    }
  }

  lemma InsertQueued(at: Times, now: nat, q: seq<OrderView>, k: nat, o: OrderView)
    requires Queued(at, now, q) && k <= |q| && o.id in at && at[o.id] == now
    requires forall i | k <= i < |q| :: q[i].price != o.price
    ensures Queued(at, now + 1, q[..k] + [o] + q[k..])
  {
    var r := q[..k] + [o] + q[k..];
    assert forall i | 0 <= i < |r| :: r[i] == if i < k then q[i] else if i == k then o else q[i - 1];
  }

  lemma LaterQueued(at: Times, now: nat, q: seq<OrderView>)
    requires Queued(at, now, q)
    ensures Queued(at, now + 1, q)
  {
  }

  lemma PlaceQueued(at: Times, now: nat, b: Book, o: OrderView)
    requires Inv(b) && Placeable(b, o) && o.id in at && at[o.id] == now
    requires Queued(at, now, b.bids) && Queued(at, now, b.asks)
    ensures Queued(at, now + 1, Place(b, o).book.bids) && Queued(at, now + 1, Place(b, o).book.asks)
  {
    var own, opp := b.On(o.side), b.On(Opposite(o.side));
    var k := Outcomes.RestsBehind(b, o);
    OtherSideSuffix(b, o);
    hide Place, Inv, Match, SuffixUpToFill, Queued;
    SuffixQueued(at, now, Place(b, o).book.On(Opposite(o.side)), opp);
    LaterQueued(at, now, Place(b, o).book.On(Opposite(o.side)));
    LaterQueued(at, now, own);
    if Place(b, o).book.On(o.side) != own {
      InsertQueued(at, now, own, k, Outcomes.Remainder(o, Place(b, o).filled));
    }
  }

  lemma OtherSideSuffix(b: Book, o: OrderView)
    requires Inv(b) && Placeable(b, o)
    ensures SuffixUpToFill(Place(b, o).book.On(Opposite(o.side)), b.On(Opposite(o.side)))
  {
    var opp := b.On(Opposite(o.side));
    MatchLeavesSuffix(o, opp, o.quantity);
    hide Match, Inv, PostOnlyCrosses, FokUnfillable, Sorted, Insert;
    if !PostOnlyCrosses(b, o) && !FokUnfillable(b, o) {
      PlaceIs(b, o);
    }
  }

  lemma StepQueued(infos: Infos, t: Track, books: Books, c: Command, at: Times, now: nat)
    requires BooksTracked(infos, t, books) && AllQueued(at, now, books)
    requires c.PlaceCommand? ==> Unprocessed(infos, t, books, c.order) && c.order.id in at && at[c.order.id] == now
    ensures AllQueued(at, now + 1, Step(books, c).books)
  {
    hide Place, Queued, Inv, PlaceEvents, AllTracked, Without;
    var later := now + 1;
    forall m | m in books
      ensures Queued(at, later, books[m].bids) && Queued(at, later, books[m].asks)
    {
      LaterQueued(at, now, books[m].bids);
      LaterQueued(at, now, books[m].asks);
    }
    match c
    case PlaceCommand(o, mark) =>
      if WellFormedOrder(o) {
        var b := BookOf(books, o.terms.market);
        EmptyQueued(at, now);
        EmptyInv(o.terms.market);
        BookReady(infos, t, books, o);
        PlaceQueued(at, now, b, o);
      }
    case CancelCommand(m, id, _) =>
      if m in books {
        WithoutQueued(at, later, books[m].bids, id);
        WithoutQueued(at, later, books[m].asks, id);
      }
  }

  lemma EmptyQueued(at: Times, now: nat)
    ensures Queued(at, now, [])
  {
  }

  lemma BookReady(infos: Infos, t: Track, books: Books, o: OrderView)
    requires BooksTracked(infos, t, books) && Unprocessed(infos, t, books, o) && WellFormedOrder(o)
    ensures Inv(BookOf(books, o.terms.market)) && Placeable(BookOf(books, o.terms.market), o)
  {
    EmptyInv(o.terms.market);
    hide Inv, AllTracked;
    if o.terms.market in books {
      assert BookTracked(infos, t, books[o.terms.market]);
    }
  }

  lemma {:induction false} RunQueued(infos: Infos, t: Track, books: Books, cs: seq<Command>, k: nat, at: Times)
    requires BooksTracked(infos, t, books) && k <= |cs| && RunReady(infos, t, books, cs[k..])
    requires TimesOf(cs, at) && AllQueued(at, k, books)
    ensures AllQueued(at, |cs|, Run(books, cs[k..]).books)
    decreases |cs| - k
  {
    hide BooksTracked, Unprocessed, Step, AllOk, ApplyAll, AllQueued;
    if k < |cs| {
      var c, first := cs[k], Step(books, cs[k]);
      assert cs[k..][0] == c && cs[k..][1..] == cs[k + 1..];
      StepTracked(infos, t, books, c);
      Runs.RunReadyTail(infos, t, books, cs[k..]);
      StepQueued(infos, t, books, c, at, k);
      RunQueued(infos, ApplyAll(t, first.events), first.books, cs, k + 1, at);
    }
  }

  /**
   * In every reachable state, fallback on or off: of two orders resting on one side at one price, the one in front was
   * placed first.
   */
  lemma TimePriority(cs: seq<Command>, at: Times, market: string, side: Side, i: nat, j: nat)
    requires Runs.FreshIds(cs) && TimesOf(cs, at)
    requires var r := Run(map[], cs); market in r.books && i < j < |r.books[market].On(side)|
    ensures var q := Run(map[], cs).books[market].On(side);
            && q[i].id in at && q[j].id in at && at[q[i].id] < |cs| && at[q[j].id] < |cs|
            && (q[i].price == q[j].price ==> at[q[i].id] < at[q[j].id])
            && (if side.Buy? then q[i].price >= q[j].price else q[i].price <= q[j].price)
  {
    hide *;
    FreshQueued(cs, at);
    QueuedAt(at, |cs|, Run(map[], cs).books, market, side, i, j);
    FreshBook(cs, market);
    SortedPrices(Run(map[], cs).books[market], side, i, j);
  }

  lemma QueuedAt(at: Times, now: nat, books: Books, m: string, side: Side, i: nat, j: nat)
    requires AllQueued(at, now, books) && m in books && i < j < |books[m].On(side)|
    ensures var q := books[m].On(side);
            && q[i].id in at && q[j].id in at && at[q[i].id] < now && at[q[j].id] < now
            && (q[i].price == q[j].price ==> at[q[i].id] < at[q[j].id])
  {
  }

  lemma FreshQueued(cs: seq<Command>, at: Times)
    requires Runs.FreshIds(cs) && TimesOf(cs, at)
    ensures AllQueued(at, |cs|, Run(map[], cs).books)
  {
    var ds := Runs.WithoutMarks(cs);
    Runs.BooksIgnoreMarks(map[], cs);
    Runs.FreshRunReady(ds);
    assert ds[0..] == ds;
    hide Run;
    RunQueued(Runs.InfosOf(ds), NO_EVENTS, map[], ds, 0, at);
  }

  lemma FreshBook(cs: seq<Command>, m: string)
    requires Runs.FreshIds(cs) && m in Run(map[], cs).books
    ensures Inv(Run(map[], cs).books[m])
  {
    var ds := Runs.WithoutMarks(cs);
    Runs.BooksIgnoreMarks(map[], cs);
    Runs.EveryRunDisciplined(ds);
    hide Run, Inv;
    assert BookTracked(Runs.InfosOf(ds), ApplyAll(NO_EVENTS, Run(map[], ds).events), Run(map[], ds).books[m]);
  }

  lemma SortedPrices(b: Book, side: Side, i: nat, j: nat)
    requires Inv(b) && i < j < |b.On(side)|
    ensures var q := b.On(side); if side.Buy? then q[i].price >= q[j].price else q[i].price <= q[j].price
  {
  }
}
