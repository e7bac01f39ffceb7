/** Price levels holding FIFO queues: how the engine stores one side of the book, and the flat list it stands for. */
module Levels {
  import opened Decimals
  import opened DecimalText
  import opened Orders
  import opened Greedy
  import opened BookSpec

  datatype Level = Level(price: Decimal, orders: seq<Order>)

  /** Where a resting order is to be found: its side, and its price as printed. */
  datatype IndexEntry = IndexEntry(isBid: bool, priceKey: string)

  function Flat(ls: seq<Level>): seq<Order> {
    if ls == [] then [] else ls[0].orders + Flat(ls[1..])
  }

  ghost function ViewLevels(ls: seq<Level>): seq<OrderView> {
    ViewOrders(Flat(ls))
  }

  // ----- representation invariant of one side -----

  /** Every number of the order is within the bound under which int64 arithmetic is exact. */
  ghost predicate NumbersFit(o: Order, s: nat) {
    Fits(o.price, s) && Fits(o.quantity, s) && Fits(o.filled, s) && Fits(o.leverage, s)
  }

  ghost predicate OrderAt(o: Order, price: real, s: nat) {
    NumbersFit(o, s) && Val(o.price) == price
  }

  ghost predicate AllAt(q: seq<Order>, price: real, s: nat) {
    forall i | 0 <= i < |q| :: OrderAt(q[i], price, s)
  }

  ghost predicate LevelOk(l: Level, s: nat) {
    Fits(l.price, s) && AllAt(l.orders, Val(l.price), s)
  }

  ghost predicate LevelsOk(side: Side, ls: seq<Level>, s: nat) {
    && (forall i | 0 <= i < |ls| :: LevelOk(ls[i], s) && ls[i].orders != [])
    && (forall i, j | 0 <= i < j < |ls| :: Ahead(side, Val(ls[i].price), Val(ls[j].price)))
  }

  // ----- the index -----

  ghost predicate Listed(index: map<string, IndexEntry>, isBid: bool, q: seq<Order>) {
    forall o | o in q :: o.id in index && index[o.id] == IndexEntry(isBid, ToString(o.price))
  }

  ghost predicate Holds(q: seq<Order>, id: string) {
    exists o | o in q :: o.id == id
  }

  ghost predicate IdsDistinct(q: seq<Order>) {
    forall i, j | 0 <= i < j < |q| :: q[i].id != q[j].id
  }

  /** The index holds exactly the ids of the two queues, each with its side and printed price. */
  ghost predicate IndexOk(index: map<string, IndexEntry>, isBid: bool, q: seq<Order>, other: seq<Order>) {
    && Listed(index, isBid, q) && Listed(index, !isBid, other)
    && forall id | id in index :: Holds(q, id) || Holds(other, id)
  }

  // ----- views -----

  lemma ViewConcat(p: seq<Order>, q: seq<Order>)
    ensures ViewOrders(p + q) == ViewOrders(p) + ViewOrders(q)
  {
  }

  lemma ViewDrop(q: seq<Order>, k: nat)
    requires k <= |q|
    ensures ViewOrders(q[k..]) == ViewOrders(q)[k..]
    ensures ViewOrders(q[..k]) == ViewOrders(q)[..k]
  {
  }

  lemma {:induction false} FlatConcat(ls: seq<Level>, ms: seq<Level>)
    ensures Flat(ls + ms) == Flat(ls) + Flat(ms)
  {
    if ls == [] {
      assert ls + ms == ms;
    } else {
      assert (ls + ms)[1..] == ls[1..] + ms;
      FlatConcat(ls[1..], ms);
    }
  }

  lemma TailOk(side: Side, ls: seq<Level>, s: nat)
    requires LevelsOk(side, ls, s) && ls != []
    ensures LevelsOk(side, ls[1..], s)
  {
  }

  /** Behind the first level, every order has a strictly worse price. */
  lemma {:induction false} FlatBehind(side: Side, price: real, ls: seq<Level>, s: nat)
    requires LevelsOk(side, ls, s)
    requires forall i | 0 <= i < |ls| :: Ahead(side, price, Val(ls[i].price))
    ensures forall i | 0 <= i < |Flat(ls)| :: NumbersFit(Flat(ls)[i], s) && Ahead(side, price, Val(Flat(ls)[i].price))
  {
    if ls != [] {
      FlatBehind(side, price, ls[1..], s);
      var f, g := ls[0].orders, Flat(ls[1..]);
      forall i | 0 <= i < |Flat(ls)|
        ensures NumbersFit(Flat(ls)[i], s) && Ahead(side, price, Val(Flat(ls)[i].price))
      {
        if i < |f| {
          assert OrderAt(f[i], Val(ls[0].price), s);
        } else {
          assert Flat(ls)[i] == g[i - |f|];
        }
      }
    }
  }

  lemma {:induction false} FlatFits(side: Side, ls: seq<Level>, s: nat)
    requires LevelsOk(side, ls, s)
    ensures forall i | 0 <= i < |Flat(ls)| :: NumbersFit(Flat(ls)[i], s)
  {
    if ls != [] {
      FlatFits(side, ls[1..], s);
      var f, g := ls[0].orders, Flat(ls[1..]);
      forall i | 0 <= i < |Flat(ls)|
        ensures NumbersFit(Flat(ls)[i], s)
      {
        if i < |f| {
          assert OrderAt(f[i], Val(ls[0].price), s);
        } else {
          assert Flat(ls)[i] == g[i - |f|];
        }
      }
    }
  }

  // ----- std::map operator[] followed by push_back -----

  /** Strict order of the level map: ascending prices for asks, descending for bids. */
  predicate KeyBefore(side: Side, p: Decimal, q: Decimal) {
    if side.Buy? then Gt(p, q) else Lt(p, q)
  }

  /** Append to the level of this price, which is created in its place if it does not exist. */
  function PushBack(side: Side, ls: seq<Level>, o: Order): seq<Level> {
    if ls == [] || KeyBefore(side, o.price, ls[0].price) then [Level(o.price, [o])] + ls
    else if KeyBefore(side, ls[0].price, o.price) then [ls[0]] + PushBack(side, ls[1..], o)
    else [Level(ls[0].price, ls[0].orders + [o])] + ls[1..]
  }

  lemma InsertUnique(side: Side, q: seq<OrderView>, o: OrderView, k: nat)
    requires k <= |q|
    requires forall i | 0 <= i < k :: !Ahead(side, o.price, q[i].price)
    requires k < |q| ==> Ahead(side, o.price, q[k].price)
    ensures Insert(side, q, o) == q[..k] + [o] + q[k..]
  {
  }

  lemma InsertBehind(side: Side, p: seq<OrderView>, q: seq<OrderView>, o: OrderView)
    requires forall i | 0 <= i < |p| :: !Ahead(side, o.price, p[i].price)
    ensures Insert(side, p + q, o) == p + Insert(side, q, o)
  {
    hide InsertPos;
    var k := InsertPos(side, q, o.price);
    var all := p + q;
    assert Insert(side, all, o) == all[..|p| + k] + [o] + all[|p| + k..] by {
      assert forall i | |p| <= i < |p| + k :: all[i] == q[i - |p|];
      InsertUnique(side, all, o, |p| + k);
    }
    SplitBehind(p, q, k);
  }

  lemma SplitBehind(p: seq<OrderView>, q: seq<OrderView>, k: nat)
    requires k <= |q|
    ensures (p + q)[..|p| + k] == p + q[..k] && (p + q)[|p| + k..] == q[k..]
  {
  }

  /** On levels, push_back is insertion behind all orders of equal or better price. */
  lemma {:induction false} PushBackInserts(side: Side, ls: seq<Level>, o: Order, s: nat)
    requires LevelsOk(side, ls, s) && NumbersFit(o, s)
    ensures ViewLevels(PushBack(side, ls, o)) == Insert(side, ViewLevels(ls), ViewOrder(o))
  {
    var v := ViewOrder(o);
    if ls == [] {
      assert PushBack(side, ls, o)[1..] == [];
      assert Flat([Level(o.price, [o])]) == [o];
      InsertUnique(side, [], v, 0);
    } else {
      CompareExact(o.price, ls[0].price, s);
      CompareExact(ls[0].price, o.price, s);
      var p, q := ls[0].orders, Flat(ls[1..]);
      ViewConcat(p, q);
      assert forall i | 0 <= i < |p| :: OrderAt(p[i], Val(ls[0].price), s);
      TailOk(side, ls, s);
      if KeyBefore(side, o.price, ls[0].price) {
        PushFront(side, ls, o, s);
      } else if KeyBefore(side, ls[0].price, o.price) {
        PushBackInserts(side, ls[1..], o, s);
        assert PushBack(side, ls, o)[1..] == PushBack(side, ls[1..], o);
        ViewConcat(p, Flat(PushBack(side, ls[1..], o)));
        InsertBehind(side, ViewOrders(p), ViewOrders(q), v);
      } else {
        PushSameLevel(side, ls, o, s);
      }
    }
  }

  lemma PushFront(side: Side, ls: seq<Level>, o: Order, s: nat)
    requires LevelsOk(side, ls, s) && ls != [] && Ahead(side, Val(o.price), Val(ls[0].price))
    ensures ViewLevels([Level(o.price, [o])] + ls) == Insert(side, ViewLevels(ls), ViewOrder(o))
  {
    var v := ViewOrder(o);
    assert ([Level(o.price, [o])] + ls)[1..] == ls;
    ViewConcat([o], Flat(ls));
    assert ViewOrders([o]) == [v];
    assert ViewLevels(ls)[0] == ViewOrder(ls[0].orders[0]) && OrderAt(ls[0].orders[0], Val(ls[0].price), s);
    InsertUnique(side, ViewLevels(ls), v, 0);
  }

  lemma PushSameLevel(side: Side, ls: seq<Level>, o: Order, s: nat)
    requires LevelsOk(side, ls, s) && ls != [] && Val(o.price) == Val(ls[0].price)
    ensures var r := [Level(ls[0].price, ls[0].orders + [o])] + ls[1..];
            ViewLevels(r) == Insert(side, ViewLevels(ls), ViewOrder(o))
  {
    var r := [Level(ls[0].price, ls[0].orders + [o])] + ls[1..];
    var p, q := ls[0].orders, Flat(ls[1..]);
    var v := ViewOrder(o);
    TailOk(side, ls, s);
    FlatBehind(side, Val(ls[0].price), ls[1..], s);
    assert r[1..] == ls[1..];
    ViewConcat(p, q);
    ViewConcat(p + [o], q);
    ViewConcat(p, [o]);
    assert ViewOrders([o]) == [v];
    assert forall i | 0 <= i < |p| :: OrderAt(p[i], Val(ls[0].price), s);
    var all := ViewOrders(p) + ViewOrders(q);
    InsertUnique(side, all, v, |p|);
    assert all[..|p|] == ViewOrders(p) && all[|p|..] == ViewOrders(q);
  }

  ghost predicate AllBehind(side: Side, price: real, ls: seq<Level>) {
    forall i | 0 <= i < |ls| :: Ahead(side, price, Val(ls[i].price))
  }

  lemma ConsOk(side: Side, l: Level, ls: seq<Level>, s: nat)
    requires LevelOk(l, s) && l.orders != [] && LevelsOk(side, ls, s) && AllBehind(side, Val(l.price), ls)
    ensures LevelsOk(side, [l] + ls, s)
  {
  }

  lemma {:induction false} PushBackBehind(side: Side, price: real, ls: seq<Level>, o: Order)
    requires AllBehind(side, price, ls) && Ahead(side, price, Val(o.price))
    ensures AllBehind(side, price, PushBack(side, ls, o))
  {
    if ls != [] {
      PushBackBehind(side, price, ls[1..], o);
    }
  }

  lemma {:induction false} PushBackOk(side: Side, ls: seq<Level>, o: Order, s: nat)
    requires LevelsOk(side, ls, s) && NumbersFit(o, s)
    ensures LevelsOk(side, PushBack(side, ls, o), s)
  {
    assert LevelOk(Level(o.price, [o]), s);
    if ls != [] {
      CompareExact(o.price, ls[0].price, s);
      CompareExact(ls[0].price, o.price, s);
      TailOk(side, ls, s);
      if KeyBefore(side, o.price, ls[0].price) {
        ConsOk(side, Level(o.price, [o]), ls, s);
      } else if KeyBefore(side, ls[0].price, o.price) {
        PushBackOk(side, ls[1..], o, s);
        PushBackBehind(side, Val(ls[0].price), ls[1..], o);
        ConsOk(side, ls[0], PushBack(side, ls[1..], o), s);
      } else {
        ConsOk(side, Level(ls[0].price, ls[0].orders + [o]), ls[1..], s);
      }
    }
  }

  lemma {:induction false} PushBackMembers(side: Side, ls: seq<Level>, o: Order)
    ensures forall x :: x in Flat(PushBack(side, ls, o)) <==> x in Flat(ls) || x == o
  {
    var r := PushBack(side, ls, o);
    if ls == [] || KeyBefore(side, o.price, ls[0].price) {
      assert r[1..] == ls;
    } else {
      if KeyBefore(side, ls[0].price, o.price) {
        PushBackMembers(side, ls[1..], o);
        assert r[1..] == PushBack(side, ls[1..], o);
      } else {
        assert r[1..] == ls[1..];
      }
    }
  }

  // ----- the index follows the queues -----

  lemma IndexPop(index: map<string, IndexEntry>, isBid: bool, q: seq<Order>, other: seq<Order>)
    requires IndexOk(index, isBid, q, other) && q != [] && IdsDistinct(q)
    ensures IndexOk(index - {q[0].id}, isBid, q[1..], other)
  {
    var r := index - {q[0].id};
    forall id | id in r
      ensures Holds(q[1..], id) || Holds(other, id)
    {
      assert id in index;
      if Holds(q, id) {
        var o :| o in q && o.id == id;
        assert o in q[1..];
      }
    }
    assert q[0] in q;
  }

  lemma IndexRefill(index: map<string, IndexEntry>, isBid: bool, q: seq<Order>, other: seq<Order>, front: Order)
    requires IndexOk(index, isBid, q, other) && q != []
    requires front == q[0].(filled := front.filled, status := front.status)
    ensures IndexOk(index, isBid, [front] + q[1..], other)
  {
    RefillHolds(q, front);
    RefillListed(index, isBid, q, front);
    hide Holds, Listed;
  }

  lemma RefillListed(index: map<string, IndexEntry>, isBid: bool, q: seq<Order>, front: Order)
    requires Listed(index, isBid, q) && q != [] && front.id == q[0].id && front.price == q[0].price
    ensures Listed(index, isBid, [front] + q[1..])
  {
    hide ToString;
    var r := [front] + q[1..];
    assert q[0] in q;
    assert forall o | o in r :: o == front || o in q;
  }

  lemma RefillHolds(q: seq<Order>, front: Order)
    requires q != [] && front.id == q[0].id
    ensures forall id :: Holds([front] + q[1..], id) <==> Holds(q, id)
  {
    var r := [front] + q[1..];
    assert q == [q[0]] + q[1..] && front in r && q[0] in q;
    forall id
      ensures Holds(r, id) <==> Holds(q, id)
    {
      if Holds(q, id) {
        var o :| o in q && o.id == id;
        assert if o == q[0] then front in r else o in r;
      }
      if Holds(r, id) {
        var o :| o in r && o.id == id;
        assert if o == front then q[0] in q else o in q;
      }
    }
  }

  lemma IndexAdd(index: map<string, IndexEntry>, isBid: bool, q: seq<Order>, other: seq<Order>, o: Order, r: seq<Order>)
    requires IndexOk(index, isBid, q, other) && !Holds(q, o.id) && !Holds(other, o.id)
    requires forall x :: x in r <==> x in q || x == o
    ensures IndexOk(index[o.id := IndexEntry(isBid, ToString(o.price))], isBid, r, other)
  {
    var index' := index[o.id := IndexEntry(isBid, ToString(o.price))];
    forall id | id in index'
      ensures Holds(r, id) || Holds(other, id)
    {
      if id == o.id {
        assert o in r;
      } else if Holds(q, id) {
        var x :| x in q && x.id == id;
        assert x in r;
      }
    }
  }

  lemma IndexDrop(index: map<string, IndexEntry>, isBid: bool, q: seq<Order>, other: seq<Order>, id: string, r: seq<Order>)
    requires IndexOk(index, isBid, q, other) && Holds(q, id)
    requires forall x :: x in r <==> x in q && x.id != id
    ensures IndexOk(index - {id}, isBid, r, other)
  {
    var index' := index - {id};
    forall i | i in index'
      ensures Holds(r, i) || Holds(other, i)
    {
      assert i in index;
      if Holds(q, i) {
        var x :| x in q && x.id == i;
        assert x in r;
      }
    }
  }

  // ----- volumes over levels -----

  lemma {:induction false} AvailableConcat(taker: OrderView, p: seq<OrderView>, q: seq<OrderView>)
    ensures Available(taker, p + q) == Available(taker, p) + Available(taker, q)
  {
    if p == [] {
      assert p + q == q;
    } else {
      assert (p + q)[1..] == p[1..] + q;
      AvailableConcat(taker, p[1..], q);
    }
  }

  lemma {:induction false} AllAvailableAt(taker: OrderView, p: seq<OrderView>)
    requires forall i | 0 <= i < |p| :: Crosses(taker, p[i].price)
    ensures Available(taker, p) == SumOpen(p)
  {
    if p != [] {
      AllAvailableAt(taker, p[1..]);
    }
  }

  /** The book's depth: one entry per price, in priority order, with the open volume at that price. */
  ghost function Depths(q: seq<OrderView>): seq<(real, real)> {
    if q == [] then []
    else
      var rest := Depths(q[1..]);
      if rest != [] && rest[0].0 == q[0].price
      then [(q[0].price, OpenQty(q[0]) + rest[0].1)] + rest[1..]
      else [(q[0].price, OpenQty(q[0]))] + rest
  }

  lemma {:induction false} DepthsHead(q: seq<OrderView>)
    ensures q != [] ==> Depths(q) != [] && Depths(q)[0].0 == q[0].price
  {
  }

  /** One level contributes one entry. */
  lemma {:induction false} DepthsOfLevel(p: seq<OrderView>, q: seq<OrderView>, price: real)
    requires p != [] && forall i | 0 <= i < |p| :: p[i].price == price
    requires q != [] ==> q[0].price != price
    ensures Depths(p + q) == [(price, SumOpen(p))] + Depths(q)
  {
    assert (p + q)[1..] == p[1..] + q;
    if |p| == 1 {
      assert p[1..] + q == q;
      DepthsHead(q);
    } else {
      DepthsOfLevel(p[1..], q, price);
      var rest := [(price, SumOpen(p[1..]))] + Depths(q);
      assert rest[1..] == Depths(q);
    }
  }

  ghost function VolumeIn(d: seq<(real, real)>, price: real): real {
    if d == [] then 0.0 else (if d[0].0 == price then d[0].1 else 0.0) + VolumeIn(d[1..], price)
  }

  ghost predicate Strict(side: Side, d: seq<(real, real)>) {
    forall k, l | 0 <= k < l < |d| :: Ahead(side, d[k].0, d[l].0)
  }

  lemma StrictCons(side: Side, e: (real, real), d: seq<(real, real)>)
    requires d != [] && Strict(side, d) && Ahead(side, e.0, d[0].0)
    ensures Strict(side, [e] + d)
  {
    assert forall l | 0 <= l < |d| :: l > 0 ==> Ahead(side, d[0].0, d[l].0);
  }

  /** What the entries mean: prices strictly worsen, and at every price they show the volume resting there. */
  lemma {:induction false} DepthsMeaning(side: Side, q: seq<OrderView>, price: real)
    requires Sorted(side, q)
    ensures Strict(side, Depths(q))
    ensures VolumeIn(Depths(q), price) == SumAt(q, price)
  {
    if q != [] {
      var rest := Depths(q[1..]);
      DepthsMeaning(side, q[1..], price);
      DepthsHead(q[1..]);
      if rest != [] && rest[0].0 == q[0].price {
        assert Depths(q)[1..] == rest[1..];
      } else {
        assert Depths(q)[1..] == rest;
        if rest != [] {
          assert rest[0].0 == q[1].price;
          StrictCons(side, (q[0].price, OpenQty(q[0])), rest);
        }
      }
    }
  }
}
