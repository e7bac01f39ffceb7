/** What a command does that the stream delivers a second time: the matcher does not look whether an id is in use. */
module Redelivery {
  import opened Orders
  import opened Greedy
  import opened BookSpec

  /** What the matcher sees: no more than a positive quantity, nothing filled, and the market. */
  ghost predicate Sendable(b: Book, o: OrderView) {
    o.filled == 0.0 && o.quantity > 0.0 && o.terms.market == b.market
  }

  /** The book after the trades of an order, before its remainder rests. */
  ghost function Traded(b: Book, o: OrderView): Book {
    b.With(Opposite(o.side), Match(o, b.On(Opposite(o.side)), o.quantity).makers)
  }

  lemma TradedKeepsInv(b: Book, o: OrderView)
    requires Inv(b) && Sendable(b, o)
    ensures Inv(Traded(b, o))
    ensures var out := Match(o, b.On(Opposite(o.side)), o.quantity);
            0.0 <= out.left <= o.quantity && (out.left > 0.0 ==> out.makers == [] || !Crosses(o, out.makers[0].price))
  {
    MatchConserves(o, b.On(Opposite(o.side)), o.quantity);
    MatchKeepsInv(b, o);
  }

  /** Two orders of one id, if an order rests on a book that has its id. */
  lemma RestsTwice(b: Book, o: OrderView)
    requires b.Has(o.id)
    ensures !Inv(b.With(o.side, Insert(o.side, b.On(o.side), o)))
  {
    var own, opp := b.On(o.side), b.On(Opposite(o.side));
    var r, k := Insert(o.side, own, o), InsertPos(o.side, own, o.price);
    assert r[k] == o;
    if x :| x in own && x.id == o.id {
      var i :| 0 <= i < |own| && own[i] == x;
      var j := if i < k then i else i + 1;
      assert r[j] == x;
      assert !DistinctIds(r);
    } else {
      var x :| x in opp && x.id == o.id;
      var i :| 0 <= i < |opp| && opp[i] == x;
      assert !DisjointIds(r, opp) && !DisjointIds(opp, r);
    }
  }

  /**
   * Exactly when placing breaks a book: a remainder comes to rest while the book, after the trades, still has an order of
   * its id.
   */
  lemma PlaceKeepsInvIff(b: Book, o: OrderView)
    requires Inv(b) && Sendable(b, o)
    ensures var p := Place(b, o);
            Inv(p.book) <==> !(Rests(o) && !p.status.Rejected? && p.filled < o.quantity && Traded(b, o).Has(o.id))
  {
    hide Match, Inv, PostOnlyCrosses, FokUnfillable, Traded, Rested, Rests;
    if PostOnlyCrosses(b, o) || FokUnfillable(b, o) {
      assert Place(b, o).status.Rejected? && Place(b, o).book == b;
    } else {
      hide Place;
      TradedKeepsInv(b, o);
      PlaceIs(b, o);
      TradedIs(b, o);
      RestedInvIff(Traded(b, o), o, Match(o, b.On(Opposite(o.side)), o.quantity).left);
    }
  }

  lemma TradedIs(b: Book, o: OrderView)
    ensures var out := Match(o, b.On(Opposite(o.side)), o.quantity);
            && Traded(b, o) == b.With(Opposite(o.side), out.makers)
            && Traded(b, o).On(Opposite(o.side)) == out.makers && Traded(b, o).market == b.market
  {
    hide Match;
  }

  lemma RestedInvIff(t: Book, o: OrderView, left: real)
    requires Inv(t) && Sendable(t, o) && 0.0 <= left <= o.quantity
    requires left > 0.0 ==> var opp := t.On(Opposite(o.side)); opp == [] || !Crosses(o, opp[0].price)
    ensures Inv(Rested(t, o, left)) <==> !(Rests(o) && left > 0.0 && t.Has(o.id))
  {
    hide Inv, Insert;
    if left > 0.0 && Rests(o) {
      if t.Has(o.id) {
        RestsTwice(t, FillBy(o, o.quantity - left));
      } else {
        RestRemainder(t, o, o.quantity - left);
      }
    }
  }

  /** Nothing on the other side is acceptable to an order whose like is resting. */
  lemma NothingToTake(b: Book, o: OrderView, i: nat)
    requires Inv(b) && Rests(o) && i < |b.On(o.side)| && b.On(o.side)[i].price == o.price
    ensures var opp := b.On(Opposite(o.side)); opp == [] || !Crosses(o, opp[0].price)
  {
  }

  /**
   * The placement command of a resting order, delivered again: whatever its first copy has traded meanwhile, it rests a
   * second time with its whole quantity. The book has two orders of the id, and canceling the id leaves one of them.
   */
  lemma RestingOrderDoubles(b: Book, o: OrderView, i: nat, filled: real)
    requires Inv(b) && Sendable(b, o) && Rests(o)
    requires i < |b.On(o.side)| && b.On(o.side)[i] == FillBy(o, filled)
    ensures var p := Place(b, o);
            && p == Placed(b.With(o.side, Insert(o.side, b.On(o.side), o)), [], 0.0, OrderStatus.Open)
            && !Inv(p.book)
            && SumOpen(p.book.On(o.side)) == SumOpen(b.On(o.side)) + o.quantity
            && Cancel(p.book, o.id).Has(o.id)
  {
    NothingToTake(b, o, i);
    var own, opp := b.On(o.side), b.On(Opposite(o.side));
    assert Match(o, opp, o.quantity) == Outcome(opp, [], o.quantity);
    assert FillBy(o, 0.0) == o;
    assert own[i] in own;
    RestsTwice(b, o);
    InsertVolume(o.side, own, o);
    hide Match, Inv, SumOpen, FokUnfillable;
    assert b.With(Opposite(o.side), opp) == b;
    CancelLeavesOne(o.side, own, o, i);
  }

  lemma CancelLeavesOne(side: Side, own: seq<OrderView>, o: OrderView, i: nat)
    requires i < |own| && own[i].id == o.id
    ensures exists x | x in Without(Insert(side, own, o), o.id) :: x.id == o.id
  {
    var r, k := Insert(side, own, o), InsertPos(side, own, o.price);
    var j := if i < k then i else i + 1;
    assert r[k] == o && r[j] == own[i];
    var f := Find(r, o.id);
    var other := if f == k then j else k;
    assert f < |r| && other != f && r[other].id == o.id;
    var w := Without(r, o.id);
    assert w[if other < f then other else other - 1] == r[other];
  }
}
