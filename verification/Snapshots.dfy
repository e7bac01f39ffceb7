/** The snapshot records of a book, and why writing and reading them back preserves it. */
module Snapshots {
  import opened Decimals
  import opened DecimalText
  import opened Orders
  import opened Greedy
  import opened BookSpec
  import opened Levels

  /** One order of a snapshot: decimals and enumerations are text. */
  datatype OrderJson = OrderJson(
    id: string, userId: string, side: string, kind: string, price: string, quantity: string, filled: string,
    tif: string, reduceOnly: bool, postOnly: bool, clientOrderId: string, leverage: string,
    marginMode: string, timestamp: int)

  datatype BookJson = BookJson(market: string, bids: seq<OrderJson>, asks: seq<OrderJson>)

  function SideStr(s: Side): string {
    if s.Buy? then "buy" else "sell"
  }

  function ParseSide(s: string): Side {
    if s == "sell" then Sell else Buy
  }

  function TypeStr(t: OrderType): string {
    if t.Limit? then "limit" else "market"
  }

  function ParseType(s: string): OrderType {
    if s == "limit" then Limit else OrderType.Market
  }

  function TifStr(t: TimeInForce): string {
    match t
    case GTC => "GTC"
    case IOC => "IOC"
    case FOK => "FOK"
  }

  function ParseTif(s: string): TimeInForce {
    if s == "IOC" then IOC else if s == "FOK" then FOK else GTC
  }

  function ToJson(o: Order): OrderJson {
    OrderJson(o.id, o.userId, SideStr(o.side), TypeStr(o.terms.kind), ToString(o.price), ToString(o.quantity),
              ToString(o.filled), TifStr(o.terms.tif), o.terms.reduceOnly, o.terms.postOnly,
              o.terms.clientOrderId, ToString(o.leverage), o.terms.marginMode, o.terms.timestamp)
  }

  function FromJson(market: string, j: OrderJson): Order {
    var quantity, filled := Parse(j.quantity), Parse(j.filled);
    Order(j.id, j.userId, ParseSide(j.side), Parse(j.price), quantity, filled, Parse(j.leverage),
          Terms(market, ParseType(j.kind), ParseTif(j.tif), j.reduceOnly, j.postOnly,
                j.clientOrderId, j.marginMode, j.timestamp),
          if Ge(filled, quantity) then OrderStatus.Filled else OrderStatus.Open)
  }

  function AllToJson(q: seq<Order>): (js: seq<OrderJson>)
    ensures |js| == |q| && forall i | 0 <= i < |q| :: js[i] == ToJson(q[i])
  {
    seq(|q|, i requires 0 <= i < |q| => ToJson(q[i]))
  }

  function AllFromJson(market: string, js: seq<OrderJson>): (q: seq<Order>)
    ensures |q| == |js| && forall i | 0 <= i < |js| :: q[i] == FromJson(market, js[i])
  {
    seq(|js|, i requires 0 <= i < |js| => FromJson(market, js[i]))
  }

  /** Reading back a written order changes nothing a book can observe: only decimal scales and the status may differ. */
  lemma OrderRoundTrip(o: Order, s: nat)
    requires NumbersFit(o, s)
    ensures var r := FromJson(o.terms.market, ToJson(o)); ViewOrder(r) == ViewOrder(o) && NumbersFit(r, s)
  {
    hide ToString, Parse, Val, Fits, SideStr, ParseSide, TypeStr, ParseType, TifStr, ParseTif;
    FitsRoundTrip(o.price, s);
    FitsRoundTrip(o.quantity, s);
    FitsRoundTrip(o.filled, s);
    FitsRoundTrip(o.leverage, s);
    WordsRoundTrip(o.side, o.terms.kind, o.terms.tif);
  }

  lemma WordsRoundTrip(s: Side, t: OrderType, f: TimeInForce)
    ensures ParseSide(SideStr(s)) == s && ParseType(TypeStr(t)) == t && ParseTif(TifStr(f)) == f
  {
  }

  lemma OrdersRoundTrip(market: string, q: seq<Order>, s: nat)
    requires forall i | 0 <= i < |q| :: NumbersFit(q[i], s) && q[i].terms.market == market
    ensures var r := AllFromJson(market, AllToJson(q));
            && ViewOrders(r) == ViewOrders(q)
            && (forall i | 0 <= i < |r| :: NumbersFit(r[i], s))
  {
    hide ToString, Parse, Val, Fits, NumbersFit, FromJson, ToJson;
    var r := AllFromJson(market, AllToJson(q));
    forall i | 0 <= i < |q|
      ensures ViewOrder(r[i]) == ViewOrder(q[i]) && NumbersFit(r[i], s)
    {
      OrderRoundTrip(q[i], s);
    }
  }

  // ----- rebuilding levels and index, order by order -----

  /** What restoring does to one side, from its first snapshot row to its last. */
  function PushAll(side: Side, ls: seq<Level>, q: seq<Order>): seq<Level>
    decreases |q|
  {
    if q == [] then ls else PushAll(side, PushBack(side, ls, q[0]), q[1..])
  }

  function IndexAll(index: map<string, IndexEntry>, isBid: bool, q: seq<Order>): map<string, IndexEntry>
    decreases |q|
  {
    if q == [] then index
    else IndexAll(index[q[0].id := IndexEntry(isBid, ToString(q[0].price))], isBid, q[1..])
  }

  /** Rows that come in priority order are appended in that order. */
  lemma {:induction false} PushAllAppends(side: Side, ls: seq<Level>, q: seq<Order>, s: nat)
    requires LevelsOk(side, ls, s) && forall i | 0 <= i < |q| :: NumbersFit(q[i], s)
    requires Sorted(side, ViewLevels(ls) + ViewOrders(q))
    ensures LevelsOk(side, PushAll(side, ls, q), s)
    ensures ViewLevels(PushAll(side, ls, q)) == ViewLevels(ls) + ViewOrders(q)
    decreases |q|
  {
    hide ToString, LevelsOk, NumbersFit, Val;
    if q == [] {
      assert ViewLevels(ls) + ViewOrders(q) == ViewLevels(ls);
    } else {
      var next := PushBack(side, ls, q[0]);
      PushBackOk(side, ls, q[0], s);
      PushBackInserts(side, ls, q[0], s);
      InsertLast(side, ViewLevels(ls), ViewOrders(q));
      ViewDrop(q, 1);
      PushAllAppends(side, next, q[1..], s);
    }
  }

  lemma InsertLast(side: Side, p: seq<OrderView>, q: seq<OrderView>)
    requires q != [] && Sorted(side, p + q)
    ensures Insert(side, p, q[0]) == p + [q[0]]
    ensures (p + [q[0]]) + q[1..] == p + q
  {
    var r := p + q;
    assert r[|p|] == q[0];
    forall i | 0 <= i < |p|
      ensures !Ahead(side, q[0].price, p[i].price)
    {
      assert r[i] == p[i];
    }
    InsertUnique(side, p, q[0], |p|);
    assert p[..|p|] == p && p[|p|..] == [];
    assert p + [q[0]] + [] == p + [q[0]];
  }

  /** Index entries of rows with fresh, distinct ids, whatever the levels they are filed under. */
  lemma {:induction false} IndexAllOk(index: map<string, IndexEntry>, isBid: bool, p: seq<Order>, q: seq<Order>, other: seq<Order>)
    requires IndexOk(index, isBid, p, other) && IdsDistinct(p + q)
    requires forall i | 0 <= i < |q| :: !Holds(other, q[i].id)
    ensures IndexOk(IndexAll(index, isBid, q), isBid, p + q, other)
    decreases |q|
  {
    hide ToString;
    if q == [] {
      assert p + q == p;
    } else {
      FreshBehind(p, q);
      var r := p + [q[0]];
      IndexAdd(index, isBid, p, other, q[0], r);
      assert r + q[1..] == p + q;
      IndexAllOk(index[q[0].id := IndexEntry(isBid, ToString(q[0].price))], isBid, r, q[1..], other);
    }
  }

  lemma FreshBehind(p: seq<Order>, q: seq<Order>)
    requires q != [] && IdsDistinct(p + q)
    ensures !Holds(p, q[0].id)
  {
    var r := p + q;
    assert r[|p|] == q[0];
    forall o | o in p
      ensures o.id != q[0].id
    {
      var i :| 0 <= i < |p| && p[i] == o;
      assert r[i] == o;
    }
  }

  /** A snapshot row list read as a book. */
  ghost function Decode(state: BookJson): Book {
    Book(state.market, ViewOrders(AllFromJson(state.market, state.bids)), ViewOrders(AllFromJson(state.market, state.asks)))
  }

  ghost predicate RowsFit(q: seq<Order>, s: nat) {
    forall i | 0 <= i < |q| :: NumbersFit(q[i], s)
  }

  /** Snapshots that describe a book the engine could have been in. */
  ghost predicate Restorable(state: BookJson, s: nat) {
    && RowsFit(AllFromJson(state.market, state.bids), s) && RowsFit(AllFromJson(state.market, state.asks), s)
    && Inv(Decode(state))
    && SumOpen(Decode(state).bids) < Cap(s) && SumOpen(Decode(state).asks) < Cap(s)
  }

  lemma {:induction false} PushAllMembers(side: Side, ls: seq<Level>, q: seq<Order>)
    ensures forall x :: x in Flat(PushAll(side, ls, q)) <==> x in Flat(ls) || x in q
    decreases |q|
  {
    hide PushBack, Flat;
    if q != [] {
      PushBackMembers(side, ls, q[0]);
      PushAllMembers(side, PushBack(side, ls, q[0]), q[1..]);
    }
  }

  lemma IndexSameMembers(index: map<string, IndexEntry>, isBid: bool, p: seq<Order>, q: seq<Order>, p': seq<Order>, q': seq<Order>)
    requires IndexOk(index, isBid, p, q)
    requires (forall x :: x in p' <==> x in p) && (forall x :: x in q' <==> x in q)
    ensures IndexOk(index, isBid, p', q')
  {
    hide ToString;
    forall id | id in index
      ensures Holds(p', id) || Holds(q', id)
    {
      if Holds(p, id) {
        var x :| x in p && x.id == id;
        assert x in p';
      } else {
        var x :| x in q && x.id == id;
        assert x in q';
      }
    }
  }

  lemma RestoredSide(market: string, side: Side, q: seq<Order>, s: nat)
    requires RowsFit(q, s) && SideInv(market, side, ViewOrders(q))
    ensures var ls := PushAll(side, [], q);
            LevelsOk(side, ls, s) && ViewLevels(ls) == ViewOrders(q) && forall x :: x in Flat(ls) <==> x in q
  {
    assert ViewLevels([]) + ViewOrders(q) == ViewOrders(q);
    PushAllAppends(side, [], q, s);
    PushAllMembers(side, [], q);
  }

  /** Every comparison of a price with the level prices, and of a row's fill with its quantity, while rows are filed. */
  ghost predicate FiledInRange(side: Side, ls: seq<Level>, q: seq<Order>)
    decreases |q|
  {
    q == []
    || (&& CompareInRange(q[0].filled, q[0].quantity)
        && (forall i | 0 <= i < |ls| :: CompareInRange(q[0].price, ls[i].price) && CompareInRange(ls[i].price, q[0].price))
        && FiledInRange(side, PushBack(side, ls, q[0]), q[1..]))
  }

  lemma {:induction false} FilingStaysInRange(side: Side, ls: seq<Level>, q: seq<Order>, s: nat)
    requires LevelsOk(side, ls, s) && RowsFit(q, s)
    ensures FiledInRange(side, ls, q)
    decreases |q|
  {
    hide ToString, PushBack, Val, Fits, CompareInRange;
    if q != [] {
      RowComparesInRange(ls, q[0], s, side);
      PushBackOk(side, ls, q[0], s);
      assert forall i | 0 <= i < |q[1..]| :: q[1..][i] == q[i + 1];
      FilingStaysInRange(side, PushBack(side, ls, q[0]), q[1..], s);
    }
  }

  lemma RowComparesInRange(ls: seq<Level>, o: Order, s: nat, side: Side)
    requires LevelsOk(side, ls, s) && NumbersFit(o, s)
    ensures CompareInRange(o.filled, o.quantity)
    ensures forall i | 0 <= i < |ls| :: CompareInRange(o.price, ls[i].price) && CompareInRange(ls[i].price, o.price)
  {
    hide CompareInRange, Val, Fits, Ahead;
    CompareExact(o.filled, o.quantity, s);
    forall i | 0 <= i < |ls|
      ensures CompareInRange(o.price, ls[i].price) && CompareInRange(ls[i].price, o.price)
    {
      assert LevelOk(ls[i], s);
      CompareExact(o.price, ls[i].price, s);
    }
  }

  /** Restoring a restorable snapshot overflows nowhere. */
  lemma RestoreStaysInRange(state: BookJson, s: nat)
    requires Restorable(state, s)
    ensures FiledInRange(Buy, [], AllFromJson(state.market, state.bids)) && FiledInRange(Sell, [], AllFromJson(state.market, state.asks))
  {
    hide RowsFit, Inv, SumOpen, FiledInRange;
    FilingStaysInRange(Buy, [], AllFromJson(state.market, state.bids), s);
    FilingStaysInRange(Sell, [], AllFromJson(state.market, state.asks), s);
  }

  lemma RestoredIndex(market: string, bids: seq<Order>, asks: seq<Order>)
    requires Inv(Book(market, ViewOrders(bids), ViewOrders(asks)))
    ensures IndexOk(IndexAll(IndexAll(map[], true, bids), false, asks), true, bids, asks)
  {
    IdsOfView(bids);
    IdsOfView(asks);
    DisjointOfView(bids, asks);
    hide ToString, IndexAll, ViewOrders, IdsDistinct, Holds, IndexOk;
    assert [] + bids == bids && [] + asks == asks;
    EmptyIndex();
    IndexAllOk(map[], true, [], bids, []);
    var index := IndexAll(map[], true, bids);
    IndexSwap(index, true, bids, []);
    IndexAllOk(index, false, [], asks, bids);
    IndexSwap(IndexAll(index, false, asks), false, asks, bids);
  }

  lemma EmptyIndex()
    ensures IndexOk(map[], true, [], [])
    ensures forall id :: !Holds([], id)
  {
  }

  lemma IndexSwap(index: map<string, IndexEntry>, isBid: bool, p: seq<Order>, q: seq<Order>)
    requires IndexOk(index, isBid, p, q)
    ensures IndexOk(index, !isBid, q, p)
  {
    hide ToString;
  }

  lemma IdsOfView(q: seq<Order>)
    requires DistinctIds(ViewOrders(q))
    ensures IdsDistinct(q)
  {
    hide Val;
    assert forall i | 0 <= i < |q| :: ViewOrders(q)[i].id == q[i].id;
  }

  lemma DisjointOfView(p: seq<Order>, q: seq<Order>)
    requires DisjointIds(ViewOrders(p), ViewOrders(q))
    ensures forall i | 0 <= i < |q| :: !Holds(p, q[i].id)
  {
    hide Val;
    forall i | 0 <= i < |q|
      ensures !Holds(p, q[i].id)
    {
      assert ViewOrders(q)[i].id == q[i].id;
      forall o | o in p
        ensures o.id != q[i].id
      {
        var j :| 0 <= j < |p| && p[j] == o;
        assert ViewOrders(p)[j].id == o.id;
      }
    }
  }

  /** The status an order is restored with: filled exactly if nothing of it is left, open otherwise. */
  lemma RestoredStatus(market: string, j: OrderJson, s: nat)
    requires NumbersFit(FromJson(market, j), s)
    ensures var o := FromJson(market, j);
            o.status == if Val(o.filled) >= Val(o.quantity) then OrderStatus.Filled else OrderStatus.Open
  {
    hide Parse, Val, Fits;
    CompareExact(FromJson(market, j).filled, FromJson(market, j).quantity, s);
  }

  /** A row under its own names: numbers as the decimals print, words as they are spelled, flags and names as they are. */
  lemma RowSays(o: Order, s: nat)
    requires NumbersFit(o, s)
    ensures var j := ToJson(o);
            && j.id == o.id && j.userId == o.userId && j.clientOrderId == o.terms.clientOrderId && j.marginMode == o.terms.marginMode
            && Val(Parse(j.price)) == Val(o.price) && Val(Parse(j.quantity)) == Val(o.quantity)
            && Val(Parse(j.filled)) == Val(o.filled) && Val(Parse(j.leverage)) == Val(o.leverage)
            && j.reduceOnly == o.terms.reduceOnly && j.postOnly == o.terms.postOnly && j.timestamp == o.terms.timestamp
            && (j.side == if o.side.Buy? then "buy" else "sell")
            && (j.kind == if o.terms.kind.Limit? then "limit" else "market")
            && (j.tif == if o.terms.tif.GTC? then "GTC" else if o.terms.tif.IOC? then "IOC" else "FOK")
  {
    hide ToString, Parse, Val, Fits;
    FitsRoundTrip(o.price, s);
    FitsRoundTrip(o.quantity, s);
    FitsRoundTrip(o.filled, s);
    FitsRoundTrip(o.leverage, s);
  }

  /** And what other words are taken for. */
  lemma WordsRead(word: string)
    ensures ParseSide(word).Sell? <==> word == "sell"
    ensures ParseType(word).Limit? <==> word == "limit"
    ensures (ParseTif(word).IOC? <==> word == "IOC") && (ParseTif(word).FOK? <==> word == "FOK")
  {
  }
}
