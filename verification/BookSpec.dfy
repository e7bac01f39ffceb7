/** The order book as two flat priority lists: what placing and canceling mean, and what they keep. */
module BookSpec {
  import opened Orders
  import opened Greedy

  datatype Book = Book(market: string, bids: seq<OrderView>, asks: seq<OrderView>)
  {
    ghost function On(side: Side): seq<OrderView> {
      if side.Buy? then bids else asks
    }

    ghost function With(side: Side, q: seq<OrderView>): Book {
      if side.Buy? then this.(bids := q) else this.(asks := q)
    }

    ghost predicate Has(id: string) {
      (exists o | o in bids :: o.id == id) || (exists o | o in asks :: o.id == id)
    }
  }

  // ----- the invariant -----

  ghost predicate DistinctIds(q: seq<OrderView>) {
    forall i, j | 0 <= i < j < |q| :: q[i].id != q[j].id
  }

  ghost predicate DisjointIds(p: seq<OrderView>, q: seq<OrderView>) {
    forall i, j | 0 <= i < |p| && 0 <= j < |q| :: p[i].id != q[j].id
  }

  ghost predicate Uncrossed(bids: seq<OrderView>, asks: seq<OrderView>) {
    forall i, j | 0 <= i < |bids| && 0 <= j < |asks| :: bids[i].price < asks[j].price
  }

  /** The orders of one side: live, in priority order, all of this market, and of the kind that rests. */
  ghost predicate SideInv(market: string, side: Side, q: seq<OrderView>) {
    && AllLive(side, q) && Sorted(side, q) && DistinctIds(q)
    && forall i | 0 <= i < |q| :: q[i].terms.market == market && q[i].terms.kind.Limit? && q[i].terms.tif.GTC?
  }

  ghost predicate Inv(b: Book) {
    && SideInv(b.market, Buy, b.bids) && SideInv(b.market, Sell, b.asks)
    && DisjointIds(b.bids, b.asks)
    && Uncrossed(b.bids, b.asks)
  }

  // ----- operations -----

  /** Behind every order at least as good as `price`, before the first strictly worse one. */
  ghost function InsertPos(side: Side, q: seq<OrderView>, price: real): (k: nat)
    ensures k <= |q|
    ensures forall i | 0 <= i < k :: !Ahead(side, price, q[i].price)
    ensures k < |q| ==> Ahead(side, price, q[k].price)
  {
    if q == [] || Ahead(side, price, q[0].price) then 0 else 1 + InsertPos(side, q[1..], price)
  }

  ghost function Insert(side: Side, q: seq<OrderView>, o: OrderView): seq<OrderView> {
    var k := InsertPos(side, q, o.price);
    q[..k] + [o] + q[k..]
  }

  datatype Placed = Placed(book: Book, trades: seq<TradeView>, filled: real, status: OrderStatus)

  ghost predicate PostOnlyCrosses(b: Book, o: OrderView) {
    var opp := b.On(Opposite(o.side));
    o.terms.kind.Limit? && o.terms.postOnly && opp != [] && Crosses(o, opp[0].price)
  }

  ghost predicate FokUnfillable(b: Book, o: OrderView) {
    o.terms.kind.Limit? && o.terms.tif.FOK? && Available(o, b.On(Opposite(o.side))) < o.quantity
  }

  ghost predicate Rests(o: OrderView) {
    o.terms.kind.Limit? && o.terms.tif.GTC?
  }

  /** Placing an order that nothing has filled yet. */
  ghost function Place(b: Book, o: OrderView): Placed {
    if PostOnlyCrosses(b, o) || FokUnfillable(b, o) then Placed(b, [], 0.0, Rejected)
    else
      var opp := Opposite(o.side);
      var out := Match(o, b.On(opp), o.quantity);
      var filled := o.quantity - out.left;
      var after := b.With(opp, out.makers);
      if out.left <= 0.0 then Placed(after, out.trades, filled, Filled)
      else if Rests(o) then
        Placed(after.With(o.side, Insert(o.side, after.On(o.side), FillBy(o, filled))), out.trades, filled,
               if filled > 0.0 then PartiallyFilled else Open)
      else Placed(after, out.trades, filled, if filled > 0.0 then PartiallyFilled else Canceled)
  }

  /** The first position of an id, or the length when it is absent. */
  ghost function Find(q: seq<OrderView>, id: string): (k: nat)
    ensures k <= |q|
    ensures forall i | 0 <= i < k :: q[i].id != id
    ensures k < |q| ==> q[k].id == id
  {
    if q == [] || q[0].id == id then 0 else 1 + Find(q[1..], id)
  }

  /** The queue without the order of this id. */
  ghost function Without(q: seq<OrderView>, id: string): seq<OrderView> {
    var k := Find(q, id);
    if k < |q| then q[..k] + q[k + 1..] else q
  }

  ghost function Cancel(b: Book, id: string): Book {
    b.(bids := Without(b.bids, id), asks := Without(b.asks, id))
  }

  /** An order the engine accepts for this book: positive quantity, nothing filled, an id not in use. */
  ghost predicate Placeable(b: Book, o: OrderView) {
    o.filled == 0.0 && o.quantity > 0.0 && o.terms.market == b.market && !b.Has(o.id)
  }

  // ----- placing keeps the invariant -----

  lemma SuffixKeepsSide(market: string, side: Side, q: seq<OrderView>, p: seq<OrderView>)
    requires SideInv(market, side, p) && SuffixUpToFill(q, p) && AllLive(side, q)
    ensures SideInv(market, side, q)
  {
    SuffixSorted(side, q, p);
    var d := |p| - |q|;
    assert forall i | 0 <= i < |q| :: q[i].id == p[d + i].id && q[i].terms == p[d + i].terms;
  }

  lemma InsertIndex(side: Side, q: seq<OrderView>, o: OrderView, i: nat)
    requires i <= |q|
    ensures var k, r := InsertPos(side, q, o.price), Insert(side, q, o);
            |r| == |q| + 1 && r[i] == if i < k then q[i] else if i == k then o else q[i - 1]
  {
  }

  lemma InsertSorted(side: Side, q: seq<OrderView>, o: OrderView)
    requires Sorted(side, q)
    ensures Sorted(side, Insert(side, q, o))
  {
    var k, r := InsertPos(side, q, o.price), Insert(side, q, o);
    forall i, j | 0 <= i < j < |r|
      ensures !Ahead(side, r[j].price, r[i].price)
    {
      InsertIndex(side, q, o, i);
      InsertIndex(side, q, o, j);
    }
  }

  lemma InsertKeepsSide(market: string, side: Side, q: seq<OrderView>, o: OrderView)
    requires SideInv(market, side, q) && Live(o) && o.side == side && o.terms.market == market && Rests(o)
    requires forall i | 0 <= i < |q| :: q[i].id != o.id
    ensures SideInv(market, side, Insert(side, q, o))
    ensures forall i | 0 <= i <= |q| :: Insert(side, q, o)[i] == o || Insert(side, q, o)[i] in q
  {
    var r := Insert(side, q, o);
    InsertSorted(side, q, o);
    forall i | 0 <= i < |r|
      ensures r[i] == o || r[i] in q
    {
      InsertIndex(side, q, o, i);
    }
    forall i, j | 0 <= i < j < |r|
      ensures r[i].id != r[j].id
    {
      InsertIndex(side, q, o, i);
      InsertIndex(side, q, o, j);
    }
  }

  /** A taker that still wants more finds no acceptable price left, so resting it cannot cross the book. */
  lemma RestUncrossed(o: OrderView, q: seq<OrderView>)
    requires o.terms.kind.Limit? && Sorted(Opposite(o.side), q)
    requires q == [] || !Crosses(o, q[0].price)
    ensures forall i | 0 <= i < |q| :: if o.side.Buy? then o.price < q[i].price else q[i].price < o.price
  {
  }

  lemma MatchKeepsInv(b: Book, o: OrderView)
    requires Inv(b)
    ensures Inv(b.With(Opposite(o.side), Match(o, b.On(Opposite(o.side)), o.quantity).makers))
  {
    var opp := Opposite(o.side);
    var out := Match(o, b.On(opp), o.quantity);
    MatchLeavesSuffix(o, b.On(opp), o.quantity);
    hide Match;
    SuffixKeepsSide(b.market, opp, out.makers, b.On(opp));
    SuffixApart(opp, out.makers, b.On(opp), b.On(o.side));
  }

  lemma SuffixApart(side: Side, q: seq<OrderView>, p: seq<OrderView>, other: seq<OrderView>)
    requires SuffixUpToFill(q, p) && Apart(side, p, other)
    ensures Apart(side, q, other)
  {
    var d := |p| - |q|;
    assert forall i | 0 <= i < |q| :: q[i].price == p[d + i].price && q[i].id == p[d + i].id;
  }

  /** Everything in `own` is apart from everything in `opp`: other ids, and prices that do not meet. */
  ghost predicate Apart(side: Side, own: seq<OrderView>, opp: seq<OrderView>) {
    && DisjointIds(own, opp)
    && forall i, j | 0 <= i < |own| && 0 <= j < |opp| ::
         if side.Buy? then own[i].price < opp[j].price else opp[j].price < own[i].price
  }

  lemma InsertApart(o: OrderView, own: seq<OrderView>, opp: seq<OrderView>)
    requires Apart(o.side, own, opp) && forall i | 0 <= i < |opp| :: opp[i].id != o.id
    requires o.terms.kind.Limit? && Sorted(Opposite(o.side), opp) && (opp == [] || !Crosses(o, opp[0].price))
    ensures Apart(o.side, Insert(o.side, own, o), opp)
  {
    RestUncrossed(o, opp);
    var r := Insert(o.side, own, o);
    forall i, j | 0 <= i < |r| && 0 <= j < |opp|
      ensures r[i].id != opp[j].id
      ensures if o.side.Buy? then r[i].price < opp[j].price else opp[j].price < r[i].price
    {
      InsertIndex(o.side, own, o, i);
    }
  }

  /** Resting an order that crosses nothing, under an id not in use, keeps the invariant. */
  lemma RestKeepsInv(b: Book, o: OrderView)
    requires Inv(b) && !b.Has(o.id) && Live(o) && o.terms.market == b.market && Rests(o)
    requires var opp := b.On(Opposite(o.side)); opp == [] || !Crosses(o, opp[0].price)
    ensures Inv(b.With(o.side, Insert(o.side, b.On(o.side), o)))
  {
    var own, opp := b.On(o.side), b.On(Opposite(o.side));
    assert forall i | 0 <= i < |own| :: own[i] in own && own[i].id != o.id;
    assert forall i | 0 <= i < |opp| :: opp[i] in opp && opp[i].id != o.id;
    assert Apart(o.side, Insert(o.side, own, o), opp) by {
      InsertApart(o, own, opp);
    }
    assert SideInv(b.market, o.side, Insert(o.side, own, o)) by {
      InsertKeepsSide(b.market, o.side, own, o);
    }
  }

  lemma RestRemainder(b: Book, o: OrderView, filled: real)
    requires Inv(b) && !b.Has(o.id) && o.filled == 0.0 && 0.0 <= filled < o.quantity
    requires o.terms.market == b.market && Rests(o)
    requires var opp := b.On(Opposite(o.side)); opp == [] || !Crosses(o, opp[0].price)
    ensures Inv(b.With(o.side, Insert(o.side, b.On(o.side), FillBy(o, filled))))
  {
    RestKeepsInv(b, FillBy(o, filled));
  }

  lemma MatchKeepsIds(b: Book, o: OrderView, id: string)
    requires Inv(b) && !b.Has(id)
    ensures !b.With(Opposite(o.side), Match(o, b.On(Opposite(o.side)), o.quantity).makers).Has(id)
  {
    var p := b.On(Opposite(o.side));
    var q := Match(o, p, o.quantity).makers;
    MatchLeavesSuffix(o, p, o.quantity);
    forall x | x in q
      ensures x.id != id
    {
      var i :| 0 <= i < |q| && q[i] == x;
      assert p[|p| - |q| + i] in p;
    }
  }

  /** With a fresh id, every placement keeps the book live, sorted, free of duplicates and uncrossed. */
  lemma PlaceKeepsInv(b: Book, o: OrderView)
    requires Inv(b) && Placeable(b, o)
    ensures Inv(Place(b, o).book) && Place(b, o).book.market == b.market
  {
    if !PostOnlyCrosses(b, o) && !FokUnfillable(b, o) {
      FillKeepsInv(b, o);
      var opp := Opposite(o.side);
      hide Match, Inv, Insert, Available, PostOnlyCrosses, FokUnfillable;
      var out := Match(o, b.On(opp), o.quantity);
      if out.left > 0.0 && Rests(o) {
        RestRemainder(b.With(opp, out.makers), o, o.quantity - out.left);
      }
    }
  }

  lemma FillKeepsInv(b: Book, o: OrderView)
    requires Inv(b) && Placeable(b, o)
    ensures var opp := Opposite(o.side);
            var out := Match(o, b.On(opp), o.quantity);
            var after := b.With(opp, out.makers);
            && Inv(after) && !after.Has(o.id) && 0.0 <= out.left <= o.quantity
            && (out.left > 0.0 ==> out.makers == [] || !Crosses(o, out.makers[0].price))
  {
    MatchConserves(o, b.On(Opposite(o.side)), o.quantity);
    hide Match;
    MatchKeepsInv(b, o);
    MatchKeepsIds(b, o, o.id);
  }

  // ----- canceling -----

  lemma WithoutIndex(q: seq<OrderView>, id: string, i: nat)
    requires i < |Without(q, id)|
    ensures var k := Find(q, id);
            Without(q, id)[i] == (if i < k then q[i] else q[i + 1])
  {
    hide Find;
  }

  lemma RemovalKeepsSide(market: string, side: Side, q: seq<OrderView>, id: string)
    requires SideInv(market, side, q)
    ensures SideInv(market, side, Without(q, id))
    ensures forall i | 0 <= i < |Without(q, id)| :: Without(q, id)[i] in q && Without(q, id)[i].id != id
  {
    hide Find, Without, SideInv;
    var k, r := Find(q, id), Without(q, id);
    WithoutLength(q, id);
    forall i | 0 <= i < |r|
      ensures Kept(k, i) < |q| && r[i] == q[Kept(k, i)]
    {
      WithoutIndex(q, id, i);
    }
    SubqueueKeepsSide(market, side, q, r, k);
    forall i | 0 <= i < |r|
      ensures r[i] in q && r[i].id != id
    {
      assert r[i] == q[Kept(k, i)];
      KeptOther(market, side, q, id, k, i);
    }
  }

  lemma KeptOther(market: string, side: Side, q: seq<OrderView>, id: string, k: nat, i: nat)
    requires SideInv(market, side, q) && k == Find(q, id) && Kept(k, i) < |q|
    ensures q[Kept(k, i)].id != id
  {
  }

  lemma SubqueueKeepsSide(market: string, side: Side, q: seq<OrderView>, r: seq<OrderView>, k: nat)
    requires SideInv(market, side, q)
    requires |r| <= |q| && (forall i | 0 <= i < |r| :: Kept(k, i) < |q| && r[i] == q[Kept(k, i)])
    ensures SideInv(market, side, r)
  {
  }

  /** Where the order at position `i` was before the one at `k` was removed. */
  ghost function Kept(k: nat, i: nat): nat {
    if i < k then i else i + 1
  }

  lemma WithoutLength(q: seq<OrderView>, id: string)
    ensures var k := Find(q, id);
            if k < |q| then |Without(q, id)| == |q| - 1 && q[k].id == id else Without(q, id) == q
  {
  }

  lemma CancelKeepsInv(b: Book, id: string)
    requires Inv(b)
    ensures Inv(Cancel(b, id)) && !Cancel(b, id).Has(id)
  {
    hide Without, SideInv;
    RemovalKeepsSide(b.market, Buy, b.bids, id);
    RemovalKeepsSide(b.market, Sell, b.asks, id);
    StillApart(b.bids, b.asks, Cancel(b, id).bids, Cancel(b, id).asks);
  }

  lemma StillApart(p: seq<OrderView>, q: seq<OrderView>, p': seq<OrderView>, q': seq<OrderView>)
    requires DisjointIds(p, q) && Uncrossed(p, q)
    requires (forall i | 0 <= i < |p'| :: p'[i] in p) && (forall i | 0 <= i < |q'| :: q'[i] in q)
    ensures DisjointIds(p', q') && Uncrossed(p', q')
  {
    forall i, j | 0 <= i < |p'| && 0 <= j < |q'|
      ensures p'[i].id != q'[j].id && p'[i].price < q'[j].price
    {
      assert p'[i] in p && q'[j] in q;
      var k :| 0 <= k < |p| && p[k] == p'[i];
      var l :| 0 <= l < |q| && q[l] == q'[j];
      assert p[k].id != q[l].id && p[k].price < q[l].price;
    }
  }

  ghost function SumAt(q: seq<OrderView>, price: real): real {
    if q == [] then 0.0 else (if q[0].price == price then OpenQty(q[0]) else 0.0) + SumAt(q[1..], price)
  }

  lemma {:induction false} SumAtConcat(p: seq<OrderView>, q: seq<OrderView>, price: real)
    ensures SumAt(p + q, price) == SumAt(p, price) + SumAt(q, price)
  {
    if p == [] {
      assert p + q == q;
    } else {
      assert (p + q)[1..] == p[1..] + q;
      SumAtConcat(p[1..], q, price);
    }
  }

  /**
   * Canceling is exact: only the order of that id goes, the others keep their order, and the volume at its price
   * (and at no other price) falls by what it had open.
   */
  lemma CancelExact(q: seq<OrderView>, id: string, price: real)
    ensures var k, r := Find(q, id), Without(q, id);
            if k < |q|
            then q == r[..k] + [q[k]] + r[k..]
                 && SumAt(r, price) == SumAt(q, price) - (if q[k].price == price then OpenQty(q[k]) else 0.0)
            else r == q && forall i | 0 <= i < |q| :: q[i].id != id
  {
    var k, r := Find(q, id), Without(q, id);
    if k < |q| {
      assert r[..k] == q[..k] && r[k..] == q[k + 1..];
      assert q == q[..k] + [q[k]] + q[k + 1..];
      SumAtConcat(q[..k] + [q[k]], q[k + 1..], price);
      SumAtConcat(q[..k], [q[k]], price);
      SumAtConcat(q[..k], q[k + 1..], price);
      assert [q[k]][1..] == [];
    }
  }

  // ----- what one placement promises -----

  /** Volume: the trades add up to the taker's fill, to the fall on the other side, and leave the own side alone. */
  lemma PlaceConserves(b: Book, o: OrderView)
    requires Inv(b) && Placeable(b, o)
    ensures var p := Place(b, o); var opp := Opposite(o.side);
            && 0.0 <= p.filled <= o.quantity
            && SumTrades(p.trades) == p.filled
            && SumOpen(b.On(opp)) - SumOpen(p.book.On(opp)) == p.filled
            && SumOpen(p.book.On(o.side)) - SumOpen(b.On(o.side))
               == (if Rests(o) && !p.status.Rejected? then o.quantity - p.filled else 0.0)
            && (p.status.Filled? <==> p.filled == o.quantity)
            && (p.status.Rejected? ==> p.book == b && p.trades == [])
  {
    hide Match, Available, SumOpen, SumTrades, Inv, Insert, PostOnlyCrosses, FokUnfillable;
    if PostOnlyCrosses(b, o) || FokUnfillable(b, o) {
      NothingTraded();
    } else {
      MatchSide(b, o);
      var opp := Opposite(o.side);
      var out := Match(o, b.On(opp), o.quantity);
      PlaceIs(b, o);
      RestingVolume(b.With(opp, out.makers), o, out.left);
    }
  }

  lemma NothingTraded()
    ensures SumTrades([]) == 0.0
  {
  }

  /** The outcome of an order that is not turned away. */
  lemma PlaceIs(b: Book, o: OrderView)
    requires !PostOnlyCrosses(b, o) && !FokUnfillable(b, o)
    ensures var opp := Opposite(o.side);
            var out := Match(o, b.On(opp), o.quantity);
            var p := Place(b, o);
            && p.trades == out.trades && p.filled == o.quantity - out.left
            && p.book == Rested(b.With(opp, out.makers), o, out.left)
            && (p.status.Filled? <==> out.left <= 0.0) && !p.status.Rejected?
  {
    hide Match, Insert, PostOnlyCrosses, FokUnfillable;
  }

  /** The book with the remainder of an order, if it rests. */
  ghost function Rested(b: Book, o: OrderView, left: real): Book {
    if left > 0.0 && Rests(o) then b.With(o.side, Insert(o.side, b.On(o.side), FillBy(o, o.quantity - left))) else b
  }

  lemma RestingVolume(b: Book, o: OrderView, left: real)
    requires 0.0 <= left && o.filled == 0.0
    ensures var r := Rested(b, o, left);
            && r.On(Opposite(o.side)) == b.On(Opposite(o.side))
            && SumOpen(r.On(o.side)) - SumOpen(b.On(o.side)) == if Rests(o) then left else 0.0
  {
    hide SumOpen, Insert;
    if left > 0.0 && Rests(o) {
      InsertVolume(o.side, b.On(o.side), FillBy(o, o.quantity - left));
    }
  }

  lemma MatchSide(b: Book, o: OrderView)
    requires Inv(b) && o.quantity >= 0.0
    ensures var opp := b.On(Opposite(o.side)); var out := Match(o, opp, o.quantity);
            && 0.0 <= out.left <= o.quantity && SumTrades(out.trades) == o.quantity - out.left
            && SumOpen(opp) - SumOpen(out.makers) == o.quantity - out.left
  {
    MatchConserves(o, b.On(Opposite(o.side)), o.quantity);
  }

  lemma InsertVolume(side: Side, q: seq<OrderView>, o: OrderView)
    ensures SumOpen(Insert(side, q, o)) == SumOpen(q) + OpenQty(o)
  {
    var k := InsertPos(side, q, o.price);
    SumOpenConcat(q[..k] + [o], q[k..]);
    SumOpenConcat(q[..k], [o]);
    SumOpenConcat(q[..k], q[k..]);
    assert [o][1..] == [];
    assert q[..k] + q[k..] == q;
  }

  /**
   * Fill-or-kill for limit orders: rejected with nothing changed, or filled completely. Which one is decided by
   * the acceptable volume, and the branch for a fill-or-kill order left unfilled is never taken.
   */
  lemma FokAllOrNothing(b: Book, o: OrderView)
    requires Inv(b) && Placeable(b, o) && o.terms.kind.Limit? && o.terms.tif.FOK?
    ensures var p := Place(b, o);
            && (p.status.Rejected? || p.status.Filled?)
            && (p.status.Rejected? ==> p.book == b && p.trades == [])
            && (p.status.Filled? ==> SumTrades(p.trades) == o.quantity)
            && (p.status.Filled? <==> !PostOnlyCrosses(b, o) && Available(o, b.On(Opposite(o.side))) >= o.quantity)
  {
    var opp := b.On(Opposite(o.side));
    AvailablePredictsMatch(o, opp, o.quantity);
    MatchConserves(o, opp, o.quantity);
  }

  /** Market orders skip the dry run: fill-or-kill holds for them if and only if the other side is empty or deep enough. */
  lemma MarketFokIff(b: Book, o: OrderView)
    requires Inv(b) && Placeable(b, o) && o.terms.kind.Market? && o.terms.tif.FOK?
    ensures var p := Place(b, o); var opp := b.On(Opposite(o.side));
            (p.trades == [] || p.filled == o.quantity) <==> (opp == [] || SumOpen(opp) >= o.quantity)
  {
    var opp := b.On(Opposite(o.side));
    AvailablePredictsMatch(o, opp, o.quantity);
    MatchConserves(o, opp, o.quantity);
    AllAvailable(o, opp);
    SumOpenNonneg(Opposite(o.side), opp);
  }

  /** Such a partial fill, in a book that holds one resting sell order of less than what is wanted. */
  lemma MarketFokFillsPartly(offered: real, wanted: real)
    requires 0.0 < offered < wanted
    ensures var sell := OrderView("s", "u", Sell, 10.0, offered, 0.0, 1.0, Terms("m", Limit, GTC, false, false, "", "", 0));
            var buy := OrderView("b", "v", Buy, 0.0, wanted, 0.0, 1.0, Terms("m", OrderType.Market, FOK, false, false, "", "", 0));
            var b := Place(Book("m", [], []), sell).book;
            Inv(b) && Placeable(b, buy) && Place(b, buy).trades != [] && Place(b, buy).filled < buy.quantity
  {
    var sell := OrderView("s", "u", Sell, 10.0, offered, 0.0, 1.0, Terms("m", Limit, GTC, false, false, "", "", 0));
    var buy := OrderView("b", "v", Buy, 0.0, wanted, 0.0, 1.0, Terms("m", OrderType.Market, FOK, false, false, "", "", 0));
    var b := Place(Book("m", [], []), sell).book;
    PlaceKeepsInv(Book("m", [], []), sell);
    assert b == Book("m", [], [sell]);
    assert [sell][1..] == [];
    assert SumOpen(b.asks) == offered;
    PlaceConserves(b, buy);
    MarketFokIff(b, buy);
  }

  lemma {:induction false} AllAvailable(o: OrderView, q: seq<OrderView>)
    requires o.terms.kind.Market?
    ensures Available(o, q) == SumOpen(q)
  {
    if q != [] {
      AllAvailable(o, q[1..]);
    }
  }

  /** A post-only limit order never takes liquidity. */
  lemma PostOnlyNeverTakes(b: Book, o: OrderView)
    requires Inv(b) && Placeable(b, o) && o.terms.kind.Limit? && o.terms.postOnly
    ensures Place(b, o).trades == [] && (Rests(o) ==> Place(b, o).status.Rejected? || Place(b, o).status.Open?)
  {
  }
}
