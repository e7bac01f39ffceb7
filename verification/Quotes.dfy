/** What the injector writes is what it was quoted: every placement in the stream, and every order it believes to rest. */
module Quotes {
  import opened Orders
  import opened Injectors
  import opened BookSpec
  import opened Exchange
  import opened Engines

  /** The levels of a quote, each with its side. */
  ghost function Offers(q: Quote): set<(Side, Level)> {
    (set l | l in q.bids :: (Buy, l)) + (set l | l in q.asks :: (Sell, l))
  }

  ghost function AllOffers(ops: seq<Op>): set<(Side, Level)>
    decreases |ops|
  {
    if ops == [] then {} else (if ops[0].Update? then Offers(ops[0].quote) else {}) + AllOffers(ops[1..])
  }

  /** Every placement is of an offered level, on its side. */
  ghost predicate WrittenAsOffered(offers: set<(Side, Level)>, stream: seq<LpCommand>) {
    forall c | c in stream && c.LpPlace? :: (c.side, Level(c.price, c.quantity)) in offers
  }

  /** The placement of this entry is in the stream. */
  ghost predicate Written(stream: seq<LpCommand>, side: Side, o: Active) {
    exists c :: c in stream && c.LpPlace? && c.id == o.id && c.side == side && c.price == o.price && c.quantity == o.quantity
  }

  ghost predicate AllWritten(stream: seq<LpCommand>, side: Side, q: seq<Active>) {
    forall o | o in q :: Written(stream, side, o)
  }

  ghost predicate Faithful(offers: set<(Side, Level)>, d: Desk) {
    && WrittenAsOffered(offers, d.stream)
    && AllWritten(d.stream, Buy, d.bids) && AllWritten(d.stream, Sell, d.asks)
  }

  lemma StillWritten(stream: seq<LpCommand>, c: LpCommand, side: Side, q: seq<Active>)
    requires AllWritten(stream, side, q)
    ensures AllWritten(stream + [c], side, q)
  {
    forall o | o in q
      ensures Written(stream + [c], side, o)
    {
      var x :| x in stream && x.LpPlace? && x.id == o.id && x.side == side && x.price == o.price && x.quantity == o.quantity;
      assert x in stream + [c];
    }
  }

  lemma CancelFaithful(w: World, offers: set<(Side, Level)>, d: Desk, id: string)
    requires Faithful(offers, d)
    ensures Faithful(offers, CancelSent(w, d, id))
  {
    hide Written;
    StillWritten(d.stream, LpCancel(id), Buy, d.bids);
    StillWritten(d.stream, LpCancel(id), Sell, d.asks);
    assert forall c | c in d.stream + [LpCancel(id)] :: c in d.stream || c == LpCancel(id);
  }

  lemma PlaceFaithful(w: World, offers: set<(Side, Level)>, d: Desk, side: Side, l: Level)
    requires Faithful(offers, d) && (side, l) in offers
    ensures Faithful(offers, PlaceSent(w, d, side, l))
  {
    if !w.fails(d.writes) {
      var c, o := LpPlace(w.idOf(d.writes), side, l.price, l.quantity, w.clock(d.writes)), Active(l.price, w.idOf(d.writes), l.quantity);
      StillWritten(d.stream, c, Buy, d.bids);
      StillWritten(d.stream, c, Sell, d.asks);
      assert c in d.stream + [c] && Written(d.stream + [c], side, o);
      assert forall x | x in d.stream + [c] :: x in d.stream || x == c;
      assert forall x | x in d.On(side) + [o] :: x in d.On(side) || x == o;
      hide Written;
    }
  }

  lemma KeepOne(stream: seq<LpCommand>, side: Side, q: seq<Active>, o: Active)
    requires AllWritten(stream, side, q) && Written(stream, side, o)
    ensures AllWritten(stream, side, q + [o])
  {
    hide Written;
    assert forall x | x in q + [o] :: x in q || x == o;
  }

  lemma {:induction false} DroppedFaithful(w: World, offers: set<(Side, Level)>, d: Desk, side: Side, levels: seq<Level>, k: nat)
    requires Faithful(offers, d) && k <= |d.On(side)|
    ensures var e := Dropped(w, d, side, levels, k);
            Faithful(offers, e) && d.stream <= e.stream && e.On(Opposite(side)) == d.On(Opposite(side))
    decreases k
  {
    hide Written, WrittenAsOffered, Wanted;
    if k > 0 {
      DroppedFaithful(w, offers, d, side, levels, k - 1);
      var before, o := Dropped(w, d, side, levels, k - 1), d.On(side)[k - 1];
      if Wanted(levels, o.price) {
        LaterWritten(d.stream, before.stream, side, d.On(side));
        assert o in d.On(side);
        KeepOne(before.stream, side, before.On(side), o);
      } else {
        CancelFaithful(w, offers, before, o.id);
      }
    }
  }

  lemma LaterWritten(stream: seq<LpCommand>, later: seq<LpCommand>, side: Side, q: seq<Active>)
    requires AllWritten(stream, side, q) && stream <= later
    ensures AllWritten(later, side, q)
  {
    forall o | o in q
      ensures Written(later, side, o)
    {
      var x :| x in stream && x.LpPlace? && x.id == o.id && x.side == side && x.price == o.price && x.quantity == o.quantity;
      var i :| 0 <= i < |stream| && stream[i] == x;
      assert later[i] == x;
    }
  }

  lemma {:induction false} SuppliedFaithful(w: World, offers: set<(Side, Level)>, d: Desk, side: Side, levels: seq<Level>, k: nat)
    requires Faithful(offers, d) && k <= |levels| && forall l | l in levels :: (side, l) in offers
    ensures Faithful(offers, Supplied(w, d, side, levels, k))
    decreases k
  {
    hide Faithful, HasPrice, PlaceSent;
    if k > 0 {
      SuppliedFaithful(w, offers, d, side, levels, k - 1);
      assert levels[k - 1] in levels;
      PlaceFaithful(w, offers, Supplied(w, d, side, levels, k - 1), side, levels[k - 1]);
    }
  }

  lemma {:induction false} RecalledFaithful(w: World, offers: set<(Side, Level)>, d: Desk, all: seq<Active>, k: nat)
    requires Faithful(offers, d) && k <= |all|
    ensures Faithful(offers, Recalled(w, d, all, k))
    decreases k
  {
    hide Faithful, CancelSent;
    if k > 0 {
      RecalledFaithful(w, offers, d, all, k - 1);
      CancelFaithful(w, offers, Recalled(w, d, all, k - 1), all[k - 1].id);
    }
  }

  lemma OpFaithful(w: World, offers: set<(Side, Level)>, d: Desk, op: Op)
    requires Faithful(offers, d) && (op.Update? ==> Offers(op.quote) <= offers)
    ensures Faithful(offers, Apply(w, d, op))
  {
    match op
    case Update(q) =>
      hide Faithful;
      OffersOf(q);
      var d1 := Dropped(w, d, Buy, q.bids, |d.bids|);
      DroppedFaithful(w, offers, d, Buy, q.bids, |d.bids|);
      var d2 := Dropped(w, d1, Sell, q.asks, |d1.asks|);
      DroppedFaithful(w, offers, d1, Sell, q.asks, |d1.asks|);
      SuppliedFaithful(w, offers, d2, Buy, q.bids, |q.bids|);
      SuppliedFaithful(w, offers, Supplied(w, d2, Buy, q.bids, |q.bids|), Sell, q.asks, |q.asks|);
    case CancelEverything =>
      RecalledFaithful(w, offers, d, d.bids + d.asks, |d.bids + d.asks|);
  }

  lemma OffersOf(q: Quote)
    ensures forall l | l in q.bids :: (Buy, l) in Offers(q)
    ensures forall l | l in q.asks :: (Sell, l) in Offers(q)
  {
  }

  lemma {:induction false} RunFaithful(w: World, offers: set<(Side, Level)>, d: Desk, ops: seq<Op>)
    requires Faithful(offers, d) && AllOffers(ops) <= offers
    ensures Faithful(offers, ApplyAll(w, d, ops))
    decreases |ops|
  {
    hide Faithful, Apply, Offers;
    if ops != [] {
      OpFaithful(w, offers, d, ops[0]);
      RunFaithful(w, offers, Apply(w, d, ops[0]), ops[1..]);
    }
  }

  /**
   * Over any sequence of updates and withdrawals, whatever fails: every placement in the stream is a level of some quote,
   * on its side, at its price and for its quantity; and every active entry of a side has such a placement under its id.
   */
  lemma WritesWhatIsQuoted(w: World, ops: seq<Op>)
    ensures var e := ApplyAll(w, EMPTY_DESK, ops);
            && (forall c | c in e.stream && c.LpPlace? :: (c.side, Level(c.price, c.quantity)) in AllOffers(ops))
            && (forall o | o in e.bids :: Written(e.stream, Buy, o)) && (forall o | o in e.asks :: Written(e.stream, Sell, o))
  {
    hide ApplyAll, Written;
    RunFaithful(w, AllOffers(ops), EMPTY_DESK, ops);
  }

  // ----- the order of the writes -----

  ghost predicate OnlyCancels(cs: seq<LpCommand>) {
    forall i | 0 <= i < |cs| :: cs[i].LpCancel?
  }

  ghost predicate OnlyPlacements(cs: seq<LpCommand>) {
    forall i | 0 <= i < |cs| :: cs[i].LpPlace?
  }

  /** Appending at most one cancel, or at most one placement. */
  lemma AppendedCancel(first: seq<LpCommand>, before: seq<LpCommand>, after: seq<LpCommand>)
    requires first <= before && OnlyCancels(before[|first|..])
    requires after == before || exists id :: after == before + [LpCancel(id)]
    ensures first <= after && OnlyCancels(after[|first|..])
  {
    if id :| after == before + [LpCancel(id)] {
      assert after[|first|..] == before[|first|..] + [LpCancel(id)];
    }
  }

  lemma AppendedPlacement(first: seq<LpCommand>, before: seq<LpCommand>, after: seq<LpCommand>)
    requires first <= before && OnlyPlacements(before[|first|..])
    requires after == before || (|after| == |before| + 1 && before <= after && after[|before|].LpPlace?)
    ensures first <= after && OnlyPlacements(after[|first|..])
  {
    if after != before {
      assert after == before + [after[|before|]];
      assert after[|first|..] == before[|first|..] + [after[|before|]];
    }
  }

  lemma {:induction false} DroppedCancels(w: World, d: Desk, side: Side, levels: seq<Level>, k: nat)
    requires k <= |d.On(side)|
    ensures var e := Dropped(w, d, side, levels, k); d.stream <= e.stream && OnlyCancels(e.stream[|d.stream|..])
    decreases k
  {
    hide Wanted, OnlyCancels;
    if k == 0 {
      NothingAppended(d.stream);
    } else {
      DroppedCancels(w, d, side, levels, k - 1);
      AppendedCancel(d.stream, Dropped(w, d, side, levels, k - 1).stream, Dropped(w, d, side, levels, k).stream);
    }
  }

  lemma NothingAppended(stream: seq<LpCommand>)
    ensures OnlyCancels(stream[|stream|..]) && OnlyPlacements(stream[|stream|..])
  {
  }

  lemma {:induction false} SuppliedPlaces(w: World, d: Desk, side: Side, levels: seq<Level>, k: nat)
    requires k <= |levels|
    ensures var e := Supplied(w, d, side, levels, k); d.stream <= e.stream && OnlyPlacements(e.stream[|d.stream|..])
    decreases k
  {
    hide HasPrice, OnlyPlacements;
    if k == 0 {
      NothingAppended(d.stream);
    } else {
      SuppliedPlaces(w, d, side, levels, k - 1);
      AppendedPlacement(d.stream, Supplied(w, d, side, levels, k - 1).stream, Supplied(w, d, side, levels, k).stream);
    }
  }

  lemma SplitStream(a: seq<LpCommand>, b: seq<LpCommand>, c: seq<LpCommand>)
    requires a <= b <= c
    ensures a <= c && c[|a|..] == b[|a|..] + c[|b|..]
  {
  }

  /** An update writes its cancels, of both sides, before its placements. */
  lemma CancelsFirst(w: World, d: Desk, q: Quote) returns (cancels: seq<LpCommand>, placements: seq<LpCommand>)
    ensures Updated(w, d, q).stream == d.stream + cancels + placements
    ensures OnlyCancels(cancels) && OnlyPlacements(placements)
  {
    hide OnlyCancels, OnlyPlacements, Dropped, Supplied;
    var d1 := Dropped(w, d, Buy, q.bids, |d.bids|);
    DroppedCancels(w, d, Buy, q.bids, |d.bids|);
    var d2 := Dropped(w, d1, Sell, q.asks, |d1.asks|);
    DroppedCancels(w, d1, Sell, q.asks, |d1.asks|);
    var d3 := Supplied(w, d2, Buy, q.bids, |q.bids|);
    SuppliedPlaces(w, d2, Buy, q.bids, |q.bids|);
    var e := Supplied(w, d3, Sell, q.asks, |q.asks|);
    SuppliedPlaces(w, d3, Sell, q.asks, |q.asks|);
    cancels, placements := d2.stream[|d.stream|..], e.stream[|d2.stream|..];
    SplitStream(d.stream, d1.stream, d2.stream);
    SplitStream(d2.stream, d3.stream, e.stream);
    BothCancel(d1.stream[|d.stream|..], d2.stream[|d1.stream|..]);
    BothPlace(d3.stream[|d2.stream|..], e.stream[|d3.stream|..]);
  }

  lemma BothCancel(p: seq<LpCommand>, q: seq<LpCommand>)
    requires OnlyCancels(p) && OnlyCancels(q)
    ensures OnlyCancels(p + q)
  {
  }

  lemma BothPlace(p: seq<LpCommand>, q: seq<LpCommand>)
    requires OnlyPlacements(p) && OnlyPlacements(q)
    ensures OnlyPlacements(p + q)
  {
  }

  /** A cancel of the injector takes the order off the market's book, and leaves every other market's book alone. */
  lemma WiredCancel(books: Books, market: string, id: string)
    requires market in books && Inv(books[market]) && books[market].Has(id)
    ensures var s := EntryStep(books, Wire(market, LpCancel(id)), None);
            && s.books.Keys == books.Keys && !s.books[market].Has(id)
            && (forall m | m in books && m != market :: s.books[m] == books[m])
            && |s.events| == 2 && s.events[0] == Withdrawn(id, market, EXTERNAL_USER_ID, None, None)
  {
    CancelKeepsInv(books[market], id);
    hide Inv, Cancel, DepthEvent;
  }
}
