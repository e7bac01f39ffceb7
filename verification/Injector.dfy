/**
 * The liquidity provider's quote injector: it reconciles the prices it has resting in one market with the quotes it
 * is given, by placing and canceling straight through the command stream, where each write can fail.
 */
module Injectors {
  import opened Orders
  import opened DecimalText
  import opened Exchange
  import opened Engines

  datatype Level = Level(price: string, quantity: string)
  datatype Quote = Quote(bids: seq<Level>, asks: seq<Level>)
  datatype Active = Active(price: string, id: string, quantity: string)

  datatype LpCommand =
    | LpPlace(id: string, side: Side, price: string, quantity: string, at: int)
    | LpCancel(id: string)

  /** The outside world, by number of the write: the id generated for it, the clock, and whether it fails. */
  datatype World = World(idOf: nat -> string, clock: nat -> int, fails: nat -> bool)

  /**
   * What the injector believes to be resting, in insertion order, the stream as far as it comes from here, the number
   * of writes attempted, and, as history, the ids dropped although their cancel was not written.
   */
  datatype Desk = Desk(bids: seq<Active>, asks: seq<Active>, stream: seq<LpCommand>, writes: nat, orphans: set<string>) {
    function On(side: Side): seq<Active> { if side.Buy? then bids else asks }
    function With(side: Side, q: seq<Active>): Desk { if side.Buy? then this.(bids := q) else this.(asks := q) }
  }

  const EMPTY_DESK := Desk([], [], [], 0, {})

  // ----- the wire -----

  function Payload(market: string, id: string, side: Side, price: string, quantity: string, at: int): JsonObject {
    map[
      "id" := Str(id), "orderId" := Str(id), "userId" := Str(EXTERNAL_USER_ID), "market" := Str(market),
      "side" := Str(if side.Buy? then "buy" else "sell"), "orderType" := Str("limit"), "price" := Str(price),
      "quantity" := Str(quantity), "timeInForce" := Str("GTC"), "reduceOnly" := Bool(false), "postOnly" := Bool(false),
      "clientOrderId" := Str(ClientId(market, side, price, at)), "leverage" := Str("1"),
      "marginMode" := Str("isolated"), "timestamp" := Num(at)]
  }

  /** The stream entry the engine reads. */
  function Wire(market: string, c: LpCommand): Entry {
    match c
    case LpPlace(id, side, price, quantity, at) => PlaceOrderEntry(Some(Payload(market, id, side, price, quantity, at)))
    case LpCancel(id) => CancelOrderEntry(market, id, EXTERNAL_USER_ID)
  }

  function ClientId(market: string, side: Side, price: string, at: int): string {
    "BINANCE-LP-" + market + "-" + (if side.Buy? then "buy" else "sell") + "-" + price + "-" + IntText(at)
  }

  // ----- what each step does -----

  predicate HasPrice(q: seq<Active>, price: string) {
    exists i | 0 <= i < |q| :: q[i].price == price
  }

  predicate Wanted(levels: seq<Level>, price: string) {
    exists i | 0 <= i < |levels| :: levels[i].price == price
  }

  function CancelSent(w: World, d: Desk, id: string): Desk {
    if w.fails(d.writes) then d.(writes := d.writes + 1, orphans := d.orphans + {id})
    else d.(writes := d.writes + 1, stream := d.stream + [LpCancel(id)])
  }

  /** The attempt to write a placement. */
  function PlaceTried(w: World, d: Desk, side: Side, l: Level): Desk {
    if w.fails(d.writes) then d.(writes := d.writes + 1)
    else
      d.(writes := d.writes + 1,
         stream := d.stream + [LpPlace(w.idOf(d.writes), side, l.price, l.quantity, w.clock(d.writes))])
  }

  function PlaceSent(w: World, d: Desk, side: Side, l: Level): Desk {
    var tried := PlaceTried(w, d, side, l);
    if w.fails(d.writes) then tried
    else tried.With(side, d.On(side) + [Active(l.price, w.idOf(d.writes), l.quantity)])
  }

  /** The first `k` entries of one side looked at: stale ones are canceled and dropped, whether or not the write succeeds. */
  function Dropped(w: World, d: Desk, side: Side, levels: seq<Level>, k: nat): (e: Desk)
    requires k <= |d.On(side)|
  {
    if k == 0 then d.With(side, [])
    else
      var before := Dropped(w, d, side, levels, k - 1);
      var o := d.On(side)[k - 1];
      if Wanted(levels, o.price) then before.With(side, before.On(side) + [o])
      else CancelSent(w, before, o.id)
  }

  /** The first `k` levels of a quote looked at: a price that is not active is placed. */
  function Supplied(w: World, d: Desk, side: Side, levels: seq<Level>, k: nat): Desk
    requires k <= |levels|
  {
    if k == 0 then d
    else
      var before := Supplied(w, d, side, levels, k - 1);
      if HasPrice(before.On(side), levels[k - 1].price) then before else PlaceSent(w, before, side, levels[k - 1])
  }

  function Updated(w: World, d: Desk, q: Quote): Desk {
    var d1 := Dropped(w, d, Buy, q.bids, |d.bids|);
    var d2 := Dropped(w, d1, Sell, q.asks, |d1.asks|);
    var d3 := Supplied(w, d2, Buy, q.bids, |q.bids|);
    Supplied(w, d3, Sell, q.asks, |q.asks|)
  }

  function Recalled(w: World, d: Desk, all: seq<Active>, k: nat): Desk
    requires k <= |all|
  {
    if k == 0 then d else CancelSent(w, Recalled(w, d, all, k - 1), all[k - 1].id)
  }

  function Cleared(w: World, d: Desk): Desk {
    Recalled(w, d, d.bids + d.asks, |d.bids + d.asks|).(bids := [], asks := [])
  }

  // ----- the invariant -----

  ghost function Placed(stream: seq<LpCommand>): set<string> {
    set c | c in stream && c.LpPlace? :: c.id
  }

  ghost function Canceled(stream: seq<LpCommand>): set<string> {
    set c | c in stream && c.LpCancel? :: c.id
  }

  ghost function Ids(q: seq<Active>): set<string> {
    set o | o in q :: o.id
  }

  ghost function ActiveIds(d: Desk): set<string> {
    Ids(d.bids) + Ids(d.asks)
  }

  ghost predicate DistinctEntries(q: seq<Active>) {
    forall i, j | 0 <= i < j < |q| :: q[i].price != q[j].price && q[i].id != q[j].id
  }

  /** Ids come from writes already made, and no two writes share one. */
  ghost predicate Generated(w: World, ids: set<string>, writes: nat) {
    forall id | id in ids :: exists n: nat :: n < writes && w.idOf(n) == id
  }

  ghost predicate Unique(w: World) {
    forall m: nat, n: nat | m < n :: w.idOf(m) != w.idOf(n)
  }

  /** Ids under way: everything placed is active, canceled in the stream, or orphaned, and only one of these. */
  ghost predicate Balanced(w: World, active: set<string>, d: Desk) {
    && Placed(d.stream) == active + Canceled(d.stream) + d.orphans
    && active !! Canceled(d.stream) && active !! d.orphans && Canceled(d.stream) !! d.orphans
    && Generated(w, Placed(d.stream), d.writes)
  }

  ghost predicate Sound(w: World, d: Desk) {
    && DistinctEntries(d.bids) && DistinctEntries(d.asks) && Ids(d.bids) !! Ids(d.asks)
    && Balanced(w, ActiveIds(d), d)
  }

  /** No write between these two failed. */
  ghost predicate NoFailures(w: World, from: nat, to: nat) {
    forall n: nat | from <= n < to :: !w.fails(n)
  }

  // ----- every write keeps it -----

  lemma StreamMore(stream: seq<LpCommand>, c: LpCommand)
    ensures Placed(stream + [c]) == if c.LpPlace? then Placed(stream) + {c.id} else Placed(stream)
    ensures Canceled(stream + [c]) == if c.LpCancel? then Canceled(stream) + {c.id} else Canceled(stream)
  {
    assert c in stream + [c];
    assert forall x | x in stream + [c] :: x in stream || x == c;
    assert forall x | x in stream :: x in stream + [c];
  }

  lemma GeneratedLater(w: World, ids: set<string>, writes: nat)
    requires Generated(w, ids, writes)
    ensures Generated(w, ids, writes + 1) && Generated(w, ids + {w.idOf(writes)}, writes + 1)
  {
  }

  lemma NotYetGenerated(w: World, ids: set<string>, writes: nat)
    requires Generated(w, ids, writes) && Unique(w)
    ensures w.idOf(writes) !in ids
  {
  }

  lemma CancelBalances(w: World, active: set<string>, d: Desk, id: string)
    requires Balanced(w, active, d) && id in active
    ensures Balanced(w, active - {id}, CancelSent(w, d, id))
  {
    hide Generated, Placed, Canceled;
    StreamMore(d.stream, LpCancel(id));
    GeneratedLater(w, Placed(d.stream), d.writes);
  }

  lemma PlaceBalances(w: World, active: set<string>, d: Desk, side: Side, l: Level)
    requires Balanced(w, active, d) && Unique(w)
    ensures Balanced(w, if w.fails(d.writes) then active else active + {w.idOf(d.writes)}, PlaceSent(w, d, side, l))
    ensures w.idOf(d.writes) !in active
  {
    hide Generated, Placed, Canceled;
    NotYetGenerated(w, Placed(d.stream), d.writes);
    GeneratedLater(w, Placed(d.stream), d.writes);
    StreamMore(d.stream, LpPlace(w.idOf(d.writes), side, l.price, l.quantity, w.clock(d.writes)));
  }

  lemma IdsSplit(p: seq<Active>, o: Active, q: seq<Active>)
    requires DistinctEntries(p + [o] + q)
    ensures Ids(p + [o] + q) == Ids(p + q) + {o.id} && o.id !in Ids(p + q)
    ensures DistinctEntries(p + q)
  {
    var all, less := p + [o] + q, p + q;
    assert all[|p|] == o;
    forall i | 0 <= i < |less|
      ensures less[i] == all[if i < |p| then i else i + 1]
    {
    }
    assert forall x | x in all :: x == o || x in less;
    assert forall x | x in less :: x in all;
  }

  /** A stale entry canceled and dropped. */
  lemma DropSound(w: World, d: Desk, side: Side, p: seq<Active>, o: Active, q: seq<Active>)
    requires Sound(w, d.With(side, p + [o] + q))
    ensures Sound(w, CancelSent(w, d, o.id).With(side, p + q))
  {
    var before := d.With(side, p + [o] + q);
    var after := CancelSent(w, d, o.id).With(side, p + q);
    IdsSplit(p, o, q);
    hide Ids, DistinctEntries;
    CancelBalances(w, ActiveIds(before), before, o.id);
    assert ActiveIds(after) == ActiveIds(before) - {o.id};
    hide ActiveIds, Placed, Canceled, Generated;
    assert Balanced(w, ActiveIds(after), after);
  }

  lemma IdsMore(q: seq<Active>, o: Active)
    ensures Ids(q + [o]) == Ids(q) + {o.id}
    ensures DistinctEntries(q) && !HasPrice(q, o.price) && o.id !in Ids(q) ==> DistinctEntries(q + [o])
  {
    assert forall x | x in q + [o] :: x in q || x == o;
    assert forall x | x in q :: x in q + [o];
    assert o in q + [o];
  }

  /** A level placed at a price that is not active. */
  lemma PlaceSound(w: World, d: Desk, side: Side, l: Level)
    requires Sound(w, d) && Unique(w) && !HasPrice(d.On(side), l.price)
    ensures Sound(w, PlaceSent(w, d, side, l))
  {
    var o := Active(l.price, w.idOf(d.writes), l.quantity);
    PlaceBalances(w, ActiveIds(d), d, side, l);
    IdsMore(d.On(side), o);
    hide Ids, DistinctEntries, Placed, Canceled, Generated, HasPrice;
    var after := PlaceSent(w, d, side, l);
    if !w.fails(d.writes) {
      assert ActiveIds(after) == ActiveIds(d) + {o.id};
    }
  }

  // ----- dropping stale entries -----

  /** What the reconciliation of one side has done after `k` entries. */
  ghost predicate DropsWell(w: World, d: Desk, side: Side, levels: seq<Level>, k: nat, e: Desk) {
    && k <= |d.On(side)|
    && e.On(Opposite(side)) == d.On(Opposite(side)) && d.writes <= e.writes && d.orphans <= e.orphans
    && (NoFailures(w, d.writes, e.writes) ==> e.orphans == d.orphans)
    && Sound(w, e.With(side, e.On(side) + d.On(side)[k..]))
    && (forall o | o in e.On(side) :: o in d.On(side) && Wanted(levels, o.price))
    && (forall i | 0 <= i < k :: Wanted(levels, d.On(side)[i].price) ==> d.On(side)[i] in e.On(side))
    && (e.writes == d.writes ==> e.stream == d.stream && e.orphans == d.orphans && e.On(side) == d.On(side)[..k])
    && ((forall i | 0 <= i < k :: Wanted(levels, d.On(side)[i].price)) ==> e.writes == d.writes)
  }

  lemma {:induction false} DroppedWell(w: World, d: Desk, side: Side, levels: seq<Level>, k: nat)
    requires Sound(w, d) && k <= |d.On(side)|
    ensures DropsWell(w, d, side, levels, k, Dropped(w, d, side, levels, k))
  {
    hide Sound, DropsWell;
    if k == 0 {
      DropStart(w, d, side, levels);
    } else {
      DroppedWell(w, d, side, levels, k - 1);
      DropNext(w, d, side, levels, k - 1, Dropped(w, d, side, levels, k - 1));
    }
  }

  lemma DropStart(w: World, d: Desk, side: Side, levels: seq<Level>)
    requires Sound(w, d)
    ensures DropsWell(w, d, side, levels, 0, d.With(side, []))
  {
    hide Sound, NoFailures, Wanted;
    var e := d.With(side, []);
    assert [] + d.On(side)[0..] == d.On(side);
    assert e.With(side, e.On(side) + d.On(side)[0..]) == d;
  }

  lemma DropNext(w: World, d: Desk, side: Side, levels: seq<Level>, k: nat, b: Desk)
    requires DropsWell(w, d, side, levels, k, b) && k < |d.On(side)|
    ensures var o := d.On(side)[k];
            DropsWell(w, d, side, levels, k + 1,
                      if Wanted(levels, o.price) then b.With(side, b.On(side) + [o]) else CancelSent(w, b, o.id))
  {
    hide Sound, Wanted, NoFailures;
    CancelNext(w, d.writes, b, d.On(side)[k].id);
    var o, p, rest := d.On(side)[k], b.On(side), d.On(side)[k + 1..];
    assert d.On(side)[k..] == [o] + rest;
    assert p + d.On(side)[k..] == p + [o] + rest;
    assert d.On(side)[..k + 1] == d.On(side)[..k] + [o];
    if Wanted(levels, o.price) {
      var e := b.With(side, p + [o]);
      assert e.With(side, e.On(side) + rest) == b.With(side, p + [o] + rest);
      assert forall x | x in e.On(side) :: x in p || x == o;
    } else {
      DropSound(w, b, side, p, o, rest);
      var e := CancelSent(w, b, o.id);
      assert e.On(side) == p;
    }
  }

  lemma CancelNext(w: World, first: nat, b: Desk, id: string)
    requires first <= b.writes
    ensures var e := CancelSent(w, b, id);
            && e.writes == b.writes + 1 && b.orphans <= e.orphans
            && (NoFailures(w, first, e.writes) ==> NoFailures(w, first, b.writes) && e.orphans == b.orphans)
  {
  }

  // ----- placing new levels -----

  ghost predicate AllPresent(q: seq<Active>, levels: seq<Level>, k: nat)
    requires k <= |levels|
  {
    forall i | 0 <= i < k :: HasPrice(q, levels[i].price)
  }

  /** What placing has done after `k` levels of a quote. */
  ghost predicate SuppliesWell(w: World, d: Desk, side: Side, levels: seq<Level>, k: nat, e: Desk) {
    && k <= |levels|
    && e.On(Opposite(side)) == d.On(Opposite(side)) && d.writes <= e.writes && e.orphans == d.orphans
    && Sound(w, e) && d.On(side) <= e.On(side)
    && (forall i | |d.On(side)| <= i < |e.On(side)| :: Wanted(levels, e.On(side)[i].price))
    && (NoFailures(w, d.writes, e.writes) ==> AllPresent(e.On(side), levels, k))
    && (AllPresent(d.On(side), levels, k) ==> e == d)
  }

  lemma {:induction false} SuppliedWell(w: World, d: Desk, side: Side, levels: seq<Level>, k: nat)
    requires Sound(w, d) && Unique(w) && k <= |levels|
    ensures SuppliesWell(w, d, side, levels, k, Supplied(w, d, side, levels, k))
  {
    hide Sound, Unique, SuppliesWell;
    if k == 0 {
      SupplyStart(w, d, side, levels);
    } else {
      SuppliedWell(w, d, side, levels, k - 1);
      SupplyNext(w, d, side, levels, k - 1, Supplied(w, d, side, levels, k - 1));
    }
  }

  lemma SupplyStart(w: World, d: Desk, side: Side, levels: seq<Level>)
    requires Sound(w, d)
    ensures SuppliesWell(w, d, side, levels, 0, d)
  {
    hide Sound, NoFailures, Wanted;
  }

  lemma SupplyNext(w: World, d: Desk, side: Side, levels: seq<Level>, k: nat, b: Desk)
    requires SuppliesWell(w, d, side, levels, k, b) && k < |levels| && Unique(w)
    ensures SuppliesWell(w, d, side, levels, k + 1,
                      if HasPrice(b.On(side), levels[k].price) then b else PlaceSent(w, b, side, levels[k]))
  {
    hide Sound, Unique, Wanted, HasPrice, NoFailures;
    var l := levels[k];
    if !HasPrice(b.On(side), l.price) {
      PlaceSound(w, b, side, l);
      var e := PlaceSent(w, b, side, l);
      assert Wanted(levels, l.price) by {
        WantedAt(levels, k);
      }
      Sent(w, d.writes, b, side, l);
      PricesStay(b.On(side), e.On(side));
    }
  }

  lemma WantedAt(levels: seq<Level>, k: nat)
    requires k < |levels|
    ensures Wanted(levels, levels[k].price)
  {
  }

  lemma Sent(w: World, first: nat, b: Desk, side: Side, l: Level)
    requires first <= b.writes
    ensures var e := PlaceSent(w, b, side, l);
            && e.On(Opposite(side)) == b.On(Opposite(side)) && e.writes == b.writes + 1 && e.orphans == b.orphans
            && b.On(side) <= e.On(side) && |e.On(side)| <= |b.On(side)| + 1
            && (|e.On(side)| > |b.On(side)| ==> e.On(side)[|b.On(side)|].price == l.price)
            && (NoFailures(w, first, e.writes) ==> NoFailures(w, first, b.writes) && HasPrice(e.On(side), l.price))
  {
    var e := PlaceSent(w, b, side, l);
    if NoFailures(w, first, e.writes) {
      assert !w.fails(b.writes);
      assert e.On(side)[|b.On(side)|].price == l.price;
    }
  }

  lemma PricesStay(p: seq<Active>, q: seq<Active>)
    requires p <= q
    ensures forall price | HasPrice(p, price) :: HasPrice(q, price)
  {
    forall price | HasPrice(p, price)
      ensures HasPrice(q, price)
    {
      var i :| 0 <= i < |p| && p[i].price == price;
      assert q[i].price == price;
    }
  }

  // ----- reconciliation -----

  function LevelsOf(q: Quote, side: Side): seq<Level> {
    if side.Buy? then q.bids else q.asks
  }

  lemma AllDropped(w: World, d: Desk, side: Side, levels: seq<Level>)
    requires Sound(w, d)
    ensures var e := Dropped(w, d, side, levels, |d.On(side)|);
            && Sound(w, e) && e.On(Opposite(side)) == d.On(Opposite(side))
            && d.writes <= e.writes && d.orphans <= e.orphans
            && (NoFailures(w, d.writes, e.writes) ==> e.orphans == d.orphans)
            && (forall o | o in e.On(side) :: o in d.On(side) && Wanted(levels, o.price))
            && (forall o | o in d.On(side) && Wanted(levels, o.price) :: o in e.On(side))
            && ((forall o | o in d.On(side) :: Wanted(levels, o.price)) ==> e == d)
  {
    var q := d.On(side);
    var e := Dropped(w, d, side, levels, |q|);
    DroppedWell(w, d, side, levels, |q|);
    hide Sound, NoFailures, Wanted, Dropped;
    assert e.On(side) + q[|q|..] == e.On(side) && q[..|q|] == q;
    assert e.With(side, e.On(side)) == e;
    forall o | o in q && Wanted(levels, o.price)
      ensures o in e.On(side)
    {
      var i :| 0 <= i < |q| && q[i] == o;
    }
  }

  lemma FailuresSplit(w: World, a: nat, b: nat, c: nat)
    requires a <= b <= c
    ensures NoFailures(w, a, c) <==> NoFailures(w, a, b) && NoFailures(w, b, c)
  {
  }

  /** What a reconciled side looks like. */
  ghost predicate SideReconciled(w: World, d: Desk, e: Desk, side: Side, levels: seq<Level>) {
    && (forall o | o in e.On(side) :: Wanted(levels, o.price))
    && (forall o | o in d.On(side) && Wanted(levels, o.price) :: o in e.On(side))
    && (NoFailures(w, d.writes, e.writes) ==> AllPresent(e.On(side), levels, |levels|))
  }

  lemma SideUpdated(w: World, d0: Desk, d1: Desk, d2: Desk, e: Desk, side: Side, levels: seq<Level>)
    requires d1.On(side) <= d2.On(side) == e.On(side)
    requires forall o | o in d1.On(side) :: Wanted(levels, o.price)
    requires forall i | |d1.On(side)| <= i < |d2.On(side)| :: Wanted(levels, d2.On(side)[i].price)
    requires forall o | o in d0.On(side) && Wanted(levels, o.price) :: o in d1.On(side)
    requires d0.writes <= d1.writes <= d2.writes <= e.writes
    requires NoFailures(w, d1.writes, d2.writes) ==> AllPresent(d2.On(side), levels, |levels|)
    ensures SideReconciled(w, d0, e, side, levels)
  {
    hide Wanted, HasPrice;
    forall o | o in e.On(side)
      ensures Wanted(levels, o.price)
    {
      var i :| 0 <= i < |e.On(side)| && e.On(side)[i] == o;
      assert i < |d1.On(side)| ==> d1.On(side)[i] == o;
    }
  }

  /**
   * After an update every active price is wanted, entries at prices that stay wanted are untouched, and if no write of
   * the update failed every wanted price is active. Failed placements are simply missing; failed cancels are orphans.
   */
  lemma Reconciles(w: World, d: Desk, q: Quote)
    requires Sound(w, d) && Unique(w)
    ensures var e := Updated(w, d, q);
            && Sound(w, e) && d.writes <= e.writes && d.orphans <= e.orphans
            && SideReconciled(w, d, e, Buy, q.bids) && SideReconciled(w, d, e, Sell, q.asks)
            && (NoFailures(w, d.writes, e.writes) ==> e.orphans == d.orphans)
  {
    hide Sound, Unique, NoFailures, Wanted, Dropped, Supplied, AllPresent, HasPrice, SideReconciled;
    var d1 := Dropped(w, d, Buy, q.bids, |d.bids|);
    AllDropped(w, d, Buy, q.bids);
    var d2 := Dropped(w, d1, Sell, q.asks, |d1.asks|);
    AllDropped(w, d1, Sell, q.asks);
    var d3 := Supplied(w, d2, Buy, q.bids, |q.bids|);
    SuppliedWell(w, d2, Buy, q.bids, |q.bids|);
    var e := Supplied(w, d3, Sell, q.asks, |q.asks|);
    SuppliedWell(w, d3, Sell, q.asks, |q.asks|);
    SideUpdated(w, d, d2, d3, e, Buy, q.bids);
    SideUpdated(w, d, d3, e, e, Sell, q.asks);
    FailuresSplit(w, d.writes, d1.writes, e.writes);
    FailuresSplit(w, d1.writes, d2.writes, e.writes);
  }

  /** Quotes that are all active, with nothing stale, send nothing. */
  lemma SteadyIsSilent(w: World, d: Desk, q: Quote)
    requires Sound(w, d) && Unique(w)
    requires forall side: Side, o | o in d.On(side) :: Wanted(LevelsOf(q, side), o.price)
    requires AllPresent(d.bids, q.bids, |q.bids|) && AllPresent(d.asks, q.asks, |q.asks|)
    ensures Updated(w, d, q) == d
  {
    hide Sound, Unique, NoFailures, Wanted, Dropped, Supplied, AllPresent, HasPrice;
    assert forall o | o in d.On(Buy) :: Wanted(LevelsOf(q, Buy), o.price);
    assert forall o | o in d.On(Sell) :: Wanted(LevelsOf(q, Sell), o.price);
    AllDropped(w, d, Buy, q.bids);
    AllDropped(w, d, Sell, q.asks);
    SuppliedWell(w, d, Buy, q.bids, |q.bids|);
    SuppliedWell(w, d, Sell, q.asks, |q.asks|);
  }

  /** So repeating an update whose writes all succeeded changes nothing and sends nothing. */
  lemma UpdateIsIdempotent(w: World, d: Desk, q: Quote)
    requires Sound(w, d) && Unique(w) && NoFailures(w, d.writes, Updated(w, d, q).writes)
    ensures Updated(w, Updated(w, d, q), q) == Updated(w, d, q)
  {
    hide Sound, Unique, NoFailures, Wanted, Updated, AllPresent, HasPrice;
    Reconciles(w, d, q);
    var e := Updated(w, d, q);
    forall side: Side, o | o in e.On(side)
      ensures Wanted(LevelsOf(q, side), o.price)
    {
      assert SideReconciled(w, d, e, side, LevelsOf(q, side));
    }
    SteadyIsSilent(w, e, q);
  }

  // ----- withdrawing everything -----

  ghost predicate DistinctIdsIn(q: seq<Active>) {
    forall i, j | 0 <= i < j < |q| :: q[i].id != q[j].id
  }

  lemma AllDistinct(w: World, d: Desk)
    requires Sound(w, d)
    ensures DistinctIdsIn(d.bids + d.asks) && Ids(d.bids + d.asks) == ActiveIds(d)
  {
    var all := d.bids + d.asks;
    assert forall i | 0 <= i < |d.bids| :: d.bids[i].id in Ids(d.bids);
    assert forall i | 0 <= i < |d.asks| :: d.asks[i].id in Ids(d.asks);
    assert forall x | x in all :: x in d.bids || x in d.asks;
    assert forall x | x in d.bids || x in d.asks :: x in all;
  }

  lemma {:induction false} RecalledWell(w: World, d: Desk, all: seq<Active>, k: nat)
    requires k <= |all| && DistinctIdsIn(all) && Balanced(w, Ids(all), d)
    ensures var e := Recalled(w, d, all, k);
            && Balanced(w, Ids(all[k..]), e) && d.writes <= e.writes && d.orphans <= e.orphans
            && e.bids == d.bids && e.asks == d.asks
            && (NoFailures(w, d.writes, e.writes) ==> e.orphans == d.orphans)
  {
    hide Balanced, NoFailures;
    if k == 0 {
      assert all[0..] == all;
    } else {
      RecalledWell(w, d, all, k - 1);
      var b, o, rest := Recalled(w, d, all, k - 1), all[k - 1], all[k..];
      assert all[k - 1..] == [o] + rest;
      HeadId(all, k - 1);
      CancelBalances(w, Ids(all[k - 1..]), b, o.id);
      CancelNext(w, d.writes, b, o.id);
    }
  }

  lemma HeadId(all: seq<Active>, k: nat)
    requires k < |all| && DistinctIdsIn(all)
    ensures all[k].id in Ids(all[k..]) && Ids(all[k..]) - {all[k].id} == Ids(all[k + 1..])
  {
    var rest := all[k + 1..];
    assert all[k..] == [all[k]] + rest;
    assert all[k] in all[k..];
    forall x | x in rest
      ensures x.id != all[k].id && x in all[k..]
    {
      var i :| 0 <= i < |rest| && rest[i] == x;
      assert all[k + 1 + i] == x;
    }
    assert forall x | x in all[k..] :: x == all[k] || x in rest;
  }

  /** Afterwards nothing is active, and every id ever placed is canceled in the stream or an orphan. */
  lemma ClearsAll(w: World, d: Desk)
    requires Sound(w, d)
    ensures var e := Cleared(w, d);
            && Sound(w, e) && e.bids == [] && e.asks == [] && d.writes <= e.writes && d.orphans <= e.orphans
            && Placed(e.stream) == Canceled(e.stream) + e.orphans
            && (NoFailures(w, d.writes, e.writes) ==> e.orphans == d.orphans)
  {
    var all := d.bids + d.asks;
    AllDistinct(w, d);
    RecalledWell(w, d, all, |all|);
    assert all[|all|..] == [];
    var e := Cleared(w, d);
    hide NoFailures, Recalled, Placed, Canceled, Generated;
    assert ActiveIds(e) == {} == Ids([]);
  }

  // ----- every run -----

  datatype Op = Update(quote: Quote) | CancelEverything

  function Apply(w: World, d: Desk, op: Op): Desk {
    match op
    case Update(q) => Updated(w, d, q)
    case CancelEverything => Cleared(w, d)
  }

  function ApplyAll(w: World, d: Desk, ops: seq<Op>): Desk
    decreases |ops|
  {
    if ops == [] then d else ApplyAll(w, Apply(w, d, ops[0]), ops[1..])
  }

  lemma {:induction false} RunSound(w: World, d: Desk, ops: seq<Op>)
    requires Sound(w, d) && Unique(w)
    ensures var e := ApplyAll(w, d, ops);
            && Sound(w, e) && d.writes <= e.writes && d.orphans <= e.orphans
            && (NoFailures(w, d.writes, e.writes) ==> e.orphans == d.orphans)
    decreases |ops|
  {
    hide Sound, Unique, Updated, Cleared, NoFailures;
    if ops != [] {
      match ops[0] {
        case Update(q) => Reconciles(w, d, q);
        case CancelEverything => ClearsAll(w, d);
      }
      var d1 := Apply(w, d, ops[0]);
      RunSound(w, d1, ops[1..]);
      FailuresSplit(w, d.writes, d1.writes, ApplyAll(w, d1, ops[1..]).writes);
    }
  }

  /**
   * Over any sequence of updates and withdrawals, whatever fails: the active ids are exactly the ids placed and not
   * canceled in the stream if and only if no cancel write has failed; the difference is exactly the orphans, which
   * nothing will ever cancel.
   */
  lemma ActiveIffNothingOrphaned(w: World, ops: seq<Op>)
    requires Unique(w)
    ensures var e := ApplyAll(w, EMPTY_DESK, ops);
            && (ActiveIds(e) == Placed(e.stream) - Canceled(e.stream) <==> e.orphans == {})
            && Placed(e.stream) - Canceled(e.stream) - ActiveIds(e) == e.orphans
            && Canceled(e.stream) <= Placed(e.stream)
            && (NoFailures(w, 0, e.writes) ==> e.orphans == {})
  {
    assert Sound(w, EMPTY_DESK);
    RunSound(w, EMPTY_DESK, ops);
    var e := ApplyAll(w, EMPTY_DESK, ops);
    hide ApplyAll, ActiveIds, Placed, Canceled, Generated, NoFailures;
    assert Balanced(w, ActiveIds(e), e);
  }

  /** Such an orphan: the second write, the cancel of the only quote, fails, and the order stays in the engine. */
  lemma OrphanPossible(idOf: nat -> string, clock: nat -> int)
    ensures var w := World(idOf, clock, n => n == 1);
            var e := ApplyAll(w, EMPTY_DESK, [Update(Quote([Level("10", "1")], [])), Update(Quote([], []))]);
            ActiveIds(e) == {} && e.orphans == {idOf(0)}
            && Placed(e.stream) == {idOf(0)} && Canceled(e.stream) == {}
  {
    var w := World(idOf, clock, n => n == 1);
    var l := Level("10", "1");
    var first, second := Quote([l], []), Quote([], []);
    var d := Desk([Active("10", idOf(0), "1")], [], [LpPlace(idOf(0), Buy, "10", "1", clock(0))], 1, {});
    assert Updated(w, EMPTY_DESK, first) == d by {
      assert Supplied(w, EMPTY_DESK, Buy, [l], 0) == EMPTY_DESK;
      assert !HasPrice([], "10");
    }
    var e := d.(bids := [], writes := 2, orphans := {idOf(0)});
    assert Updated(w, d, second) == e by {
      assert Dropped(w, d, Buy, [], 0) == d.(bids := []);
      assert !Wanted([], "10");
    }
    var ops := [Update(first), Update(second)];
    assert ops[1..][1..] == [] && ops[1..][0] == Update(second);
    assert ApplyAll(w, e, []) == e;
    assert ApplyAll(w, d, ops[1..]) == e;
    StreamMore([], LpPlace(idOf(0), Buy, "10", "1", clock(0)));
    assert [] + e.stream == e.stream;
  }

  lemma WiredNames(market: string, id: string, side: Side, price: string, quantity: string, at: int)
    ensures var j := Payload(market, id, side, price, quantity, at);
            && JStr(j, "id", JStr(j, "orderId", "")) == id && JStr(j, "userId", "") == EXTERNAL_USER_ID
            && JStr(j, "market", "") == market
            && JStr(j, "side", "buy") == (if side.Buy? then "buy" else "sell")
  {
    hide ClientId;
  }

  lemma WiredNumbers(market: string, id: string, side: Side, price: string, quantity: string, at: int)
    ensures var j := Payload(market, id, side, price, quantity, at);
            && JStr(j, "price", "0") == price && JStr(j, "quantity", "0") == quantity && JInt(j, "timestamp", 0) == at
  {
    hide ClientId;
  }

  lemma WiredTerms(market: string, id: string, side: Side, price: string, quantity: string, at: int)
    ensures var j := Payload(market, id, side, price, quantity, at);
            && JStr(j, "orderType", "limit") == "limit" && JStr(j, "timeInForce", "GTC") == "GTC"
            && !JBool(j, "reduceOnly", false) && !JBool(j, "postOnly", false)
  {
    hide ClientId;
  }

  /** The engine reads a placement as the good-till-canceled limit order that was meant. */
  lemma WiredOrder(market: string, id: string, side: Side, price: string, quantity: string, at: int)
    requires id != "" && price != ""
    ensures var o := OrderOf(Wire(market, LpPlace(id, side, price, quantity, at)).payload.value);
            && o.id == id && o.userId == EXTERNAL_USER_ID && o.side == side && o.price == Parse(price)
            && o.quantity == Parse(quantity) && o.terms.market == market && o.terms.kind.Limit? && o.terms.tif.GTC?
            && !o.terms.reduceOnly && !o.terms.postOnly && o.terms.timestamp == at
  {
    hide Parse, Payload, JStr, JBool, JInt;
    WiredNames(market, id, side, price, quantity, at);
    WiredNumbers(market, id, side, price, quantity, at);
    WiredTerms(market, id, side, price, quantity, at);
  }

  // ----- the injector itself -----

  function WithoutPrice(q: seq<Active>, price: string): seq<Active> {
    if q == [] then []
    else if q[0].price == price then WithoutPrice(q[1..], price)
    else [q[0]] + WithoutPrice(q[1..], price)
  }

  lemma {:induction false} NothingRemoved(q: seq<Active>, price: string)
    requires !HasPrice(q, price)
    ensures WithoutPrice(q, price) == q
    decreases |q|
  {
    if q != [] {
      assert q[0].price != price;
      assert forall i | 0 <= i < |q[1..]| :: q[1..][i] == q[i + 1];
      NothingRemoved(q[1..], price);
    }
  }

  /** Deleting a key removes its entry and no other. */
  lemma {:induction false} RemovesOne(p: seq<Active>, o: Active, q: seq<Active>)
    requires DistinctEntries(p + [o] + q)
    ensures WithoutPrice(p + [o] + q, o.price) == p + q
    decreases |p|
  {
    var all := p + [o] + q;
    assert all[|p|] == o;
    if p == [] {
      assert all[1..] == q && p + q == q;
      forall i | 0 <= i < |q|
        ensures q[i].price != o.price
      {
        assert all[i + 1] == q[i] && all[0] == o;
      }
      NothingRemoved(q, o.price);
    } else {
      assert all[0] == p[0] && all[1..] == p[1..] + [o] + q;
      assert forall i | 0 <= i < |all[1..]| :: all[1..][i] == all[i + 1];
      RemovesOne(p[1..], o, q);
      assert p + q == [p[0]] + (p[1..] + q);
    }
  }

  /** The two active maps keep insertion order; their keys are the entries' prices. */
  class DirectOrderInjector {
    const world: World
    var activeBids: seq<Active>
    var activeAsks: seq<Active>
    var stream: seq<LpCommand>
    var writes: nat
    ghost var orphans: set<string>

    constructor (world: World)
      ensures this.world == world && View() == EMPTY_DESK
    {
      this.world := world;
      activeBids, activeAsks, stream, writes, orphans := [], [], [], 0, {};
    }

    ghost function View(): Desk
      reads this
    {
      Desk(activeBids, activeAsks, stream, writes, orphans)
    }

    method SetActive(side: Side, q: seq<Active>)
      modifies this`activeBids, this`activeAsks
      ensures View() == old(View()).With(side, q)
    {
      if side.Buy? {
        activeBids := q;
      } else {
        activeAsks := q;
      }
    }

    function On(side: Side): (q: seq<Active>)
      reads this
      ensures q == View().On(side)
    {
      if side.Buy? then activeBids else activeAsks
    }

    /** The caller forgets the id either way; if the write fails it stays in the stream uncanceled. */
    method CancelOrder(id: string)
      modifies this`stream, this`writes, this`orphans
      ensures View() == CancelSent(world, old(View()), id)
    {
      if world.fails(writes) {
        orphans := orphans + {id};
      } else {
        stream := stream + [LpCancel(id)];
      }
      writes := writes + 1;
    }

    method PlaceOrder(side: Side, l: Level) returns (id: Option<string>)
      modifies this`stream, this`writes
      ensures id == if world.fails(old(writes)) then None else Some(world.idOf(old(writes)))
      ensures View() == PlaceTried(world, old(View()), side, l)
    {
      if world.fails(writes) {
        id := None;
      } else {
        id := Some(world.idOf(writes));
        stream := stream + [LpPlace(id.value, side, l.price, l.quantity, world.clock(writes))];
      }
      writes := writes + 1;
    }

    method CancelStale(side: Side, levels: seq<Level>)
      requires Sound(world, View())
      modifies this
      ensures View() == Dropped(world, old(View()), side, levels, |old(View()).On(side)|)
    {
      hide Sound, CancelSent, Wanted, WithoutPrice, Midway, Dropped;
      ghost var d := View();
      var entries := On(side);
      MidwayEnds(world, d, side, levels);
      var k := 0;
      while k < |entries|
        invariant 0 <= k <= |entries| && entries == d.On(side)
        invariant View() == Midway(world, d, side, levels, k)
      {
        var order := entries[k];
        MidwayStep(world, d, side, levels, k);
        if !Wanted(levels, order.price) {
          CancelOrder(order.id);
          CancelKeepsEntries(world, Midway(world, d, side, levels, k), order.id);
          SetActive(side, WithoutPrice(On(side), order.price));
        }
        k := k + 1;
      }
    }

    method PlaceMissing(side: Side, levels: seq<Level>)
      modifies this
      ensures View() == Supplied(world, old(View()), side, levels, |levels|)
    {
      ghost var d := View();
      var k := 0;
      while k < |levels|
        invariant 0 <= k <= |levels|
        invariant View() == Supplied(world, d, side, levels, k)
      {
        hide Supplied, HasPrice, Sound, PlaceTried;
        var l := levels[k];
        SuppliedStep(world, d, side, levels, k);
        ghost var before := View();
        TriedKeepsEntries(world, before, side, l);
        if !HasPrice(On(side), l.price) {
          var id := PlaceOrder(side, l);
          if id.Some? {
            SetActive(side, On(side) + [Active(l.price, id.value, l.quantity)]);
          }
          assert View() == PlaceSent(world, before, side, l);
        }
        k := k + 1;
      }
    }

    /** Stale bids and asks are canceled first, then missing bids and asks are placed. */
    method UpdateQuotes(q: Quote)
      requires Sound(world, View()) && Unique(world)
      modifies this
      ensures View() == Updated(world, old(View()), q) && Sound(world, View())
    {
      hide Sound, Dropped, Supplied, Unique;
      Reconciles(world, View(), q);
      AllDropped(world, View(), Buy, q.bids);
      CancelStale(Buy, q.bids);
      CancelStale(Sell, q.asks);
      PlaceMissing(Buy, q.bids);
      PlaceMissing(Sell, q.asks);
    }

    method CancelAll()
      requires Sound(world, View())
      modifies this
      ensures View() == Cleared(world, old(View())) && Sound(world, View())
    {
      hide Sound;
      ghost var d := View();
      ClearsAll(world, d);
      var all := activeBids + activeAsks;
      var k := 0;
      while k < |all|
        invariant 0 <= k <= |all|
        invariant View() == Recalled(world, d, all, k)
      {
        CancelOrder(all[k].id);
        k := k + 1;
      }
      activeBids, activeAsks := [], [];
    }
  }

  /** The desk after `k` turns of the loop over the active entries, with the untouched rest in place. */
  ghost function Midway(w: World, d: Desk, side: Side, levels: seq<Level>, k: nat): Desk
    requires k <= |d.On(side)|
  {
    var e := Dropped(w, d, side, levels, k);
    e.With(side, e.On(side) + d.On(side)[k..])
  }

  lemma MidwayEnds(w: World, d: Desk, side: Side, levels: seq<Level>)
    ensures Midway(w, d, side, levels, 0) == d
    ensures Midway(w, d, side, levels, |d.On(side)|) == Dropped(w, d, side, levels, |d.On(side)|)
  {
    var q := d.On(side);
    assert [] + q[0..] == q && q[|q|..] == [];
    var e := Dropped(w, d, side, levels, |q|);
    assert e.On(side) + [] == e.On(side);
  }

  lemma CancelKeepsEntries(w: World, d: Desk, id: string)
    ensures CancelSent(w, d, id).bids == d.bids && CancelSent(w, d, id).asks == d.asks
  {
  }

  /** One turn of the loop: an unwanted entry is canceled and its key deleted. */
  lemma MidwayStep(w: World, d: Desk, side: Side, levels: seq<Level>, k: nat)
    requires Sound(w, d) && k < |d.On(side)|
    ensures var o, m := d.On(side)[k], Midway(w, d, side, levels, k);
            Midway(w, d, side, levels, k + 1)
            == if Wanted(levels, o.price) then m
               else CancelSent(w, m, o.id).With(side, WithoutPrice(m.On(side), o.price))
  {
    hide Sound, Wanted, WithoutPrice, CancelSent, DropsWell, DistinctEntries;
    var o, rest := d.On(side)[k], d.On(side)[k + 1..];
    var e := Dropped(w, d, side, levels, k);
    var p := e.On(side);
    assert d.On(side)[k..] == [o] + rest;
    assert p + d.On(side)[k..] == p + [o] + rest;
    if Wanted(levels, o.price) {
      assert e.With(side, p + [o]).With(side, p + [o] + rest) == e.With(side, p + [o] + rest);
    } else {
      MidwayDistinct(w, d, side, levels, k);
      RemovesOne(p, o, rest);
      CancelOutside(w, e, side, p + [o] + rest, p + rest, o.id);
    }
  }

  lemma CancelOutside(w: World, e: Desk, side: Side, q: seq<Active>, r: seq<Active>, id: string)
    ensures CancelSent(w, e.With(side, q), id).With(side, r) == CancelSent(w, e, id).With(side, r)
    ensures CancelSent(w, e, id).On(side) == e.On(side)
  {
  }

  lemma MidwayDistinct(w: World, d: Desk, side: Side, levels: seq<Level>, k: nat)
    requires Sound(w, d) && k <= |d.On(side)|
    ensures DistinctEntries(Midway(w, d, side, levels, k).On(side))
  {
    hide DistinctEntries, Balanced, Dropped;
    DroppedWell(w, d, side, levels, k);
  }

  lemma TriedKeepsEntries(w: World, d: Desk, side: Side, l: Level)
    ensures PlaceTried(w, d, side, l).bids == d.bids && PlaceTried(w, d, side, l).asks == d.asks
  {
  }

  lemma SuppliedStep(w: World, d: Desk, side: Side, levels: seq<Level>, k: nat)
    requires k < |levels|
    ensures var b := Supplied(w, d, side, levels, k);
            Supplied(w, d, side, levels, k + 1) == if HasPrice(b.On(side), levels[k].price) then b else PlaceSent(w, b, side, levels[k])
  {
  }
}
