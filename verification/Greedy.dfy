/** Price-time matching on a flat list of resting orders: the meaning of the engine's nested loops. */
module Greedy {
  import opened Orders

  ghost function OpenQty(o: OrderView): real {
    o.quantity - o.filled
  }

  /** Among orders resting on `side`, price `p` is served strictly before price `q`. */
  ghost predicate Ahead(side: Side, p: real, q: real) {
    if side.Buy? then p > q else p < q
  }

  /** The taker accepts price `p`; a market order accepts any. */
  ghost predicate Crosses(taker: OrderView, p: real) {
    taker.terms.kind.Market? || (if taker.side.Buy? then p <= taker.price else p >= taker.price)
  }

  ghost predicate Sorted(side: Side, q: seq<OrderView>) {
    forall i, j | 0 <= i < j < |q| :: !Ahead(side, q[j].price, q[i].price)
  }

  ghost predicate Live(o: OrderView) {
    0.0 <= o.filled < o.quantity
  }

  ghost predicate AllLive(side: Side, q: seq<OrderView>) {
    forall i | 0 <= i < |q| :: Live(q[i]) && q[i].side == side
  }

  ghost function TradeWith(taker: OrderView, maker: OrderView, qty: real): TradeView {
    TradeView(taker.terms.market, maker.id, taker.id, maker.userId, taker.userId,
              taker.side, maker.price, qty, taker.terms.timestamp)
  }

  ghost function FillBy(o: OrderView, qty: real): OrderView {
    o.(filled := o.filled + qty)
  }

  ghost function Least(x: real, y: real): real {
    if y < x then y else x
  }

  /** What is left of the makers, the trades in order, and what the taker still wants. */
  datatype Outcome = Outcome(makers: seq<OrderView>, trades: seq<TradeView>, left: real)

  /** Serve the front order until it is used up or the taker is satisfied, then go on behind it. */
  ghost function Match(taker: OrderView, makers: seq<OrderView>, want: real): Outcome
    decreases |makers|
  {
    if makers == [] || want <= 0.0 || !Crosses(taker, makers[0].price) then Outcome(makers, [], want)
    else
      var m := makers[0];
      var qty := Least(want, OpenQty(m));
      var trade := TradeWith(taker, m, qty);
      if qty < OpenQty(m) then Outcome([FillBy(m, qty)] + makers[1..], [trade], want - qty)
      else After(trade, Match(taker, makers[1..], want - qty))
  }

  ghost function After(t: TradeView, out: Outcome): Outcome {
    out.(trades := [t] + out.trades)
  }

  ghost function Before(ts: seq<TradeView>, out: Outcome): Outcome {
    out.(trades := ts + out.trades)
  }

  /** The queue after its front order gives `qty`. */
  ghost function Served(makers: seq<OrderView>, qty: real): seq<OrderView>
    requires makers != []
  {
    if qty < OpenQty(makers[0]) then [FillBy(makers[0], qty)] + makers[1..] else makers[1..]
  }

  /** One turn of the engine's inner loop, whether or not it uses up the front order. */
  lemma MatchStep(taker: OrderView, makers: seq<OrderView>, want: real, ts: seq<TradeView>, out: Outcome)
    requires makers != [] && want > 0.0 && Crosses(taker, makers[0].price) && OpenQty(makers[0]) > 0.0
    requires out == Before(ts, Match(taker, makers, want))
    ensures var qty := Least(want, OpenQty(makers[0]));
            out == Before(ts + [TradeWith(taker, makers[0], qty)], Match(taker, Served(makers, qty), want - qty))
  {
    var qty := Least(want, OpenQty(makers[0]));
    var t := TradeWith(taker, makers[0], qty);
    var rest := Match(taker, Served(makers, qty), want - qty);
    assert Match(taker, makers, want) == After(t, rest);
    assert ts + ([t] + rest.trades) == (ts + [t]) + rest.trades;
  }

  // ----- an independent description: shares in closed form -----

  ghost function SumOpen(q: seq<OrderView>): real {
    if q == [] then 0.0 else OpenQty(q[0]) + SumOpen(q[1..])
  }

  ghost function Clamp(x: real, hi: real): real {
    if x <= 0.0 then 0.0 else if x < hi then x else hi
  }

  /** What maker `i` must give: whatever the orders before it leave of the demand, up to its own open quantity. */
  ghost function Share(taker: OrderView, makers: seq<OrderView>, want: real, i: nat): real
    requires i < |makers|
  {
    if Crosses(taker, makers[i].price) then Clamp(want - SumOpen(makers[..i]), OpenQty(makers[i])) else 0.0
  }

  lemma {:induction false} SumOpenNonneg(side: Side, q: seq<OrderView>)
    requires AllLive(side, q)
    ensures SumOpen(q) >= 0.0
    ensures q != [] ==> SumOpen(q) >= OpenQty(q[0]) > 0.0
  {
    if q != [] {
      SumOpenNonneg(side, q[1..]);
    }
  }

  lemma {:induction false} SumOpenConcat(p: seq<OrderView>, q: seq<OrderView>)
    ensures SumOpen(p + q) == SumOpen(p) + SumOpen(q)
  {
    if p == [] {
      assert p + q == q;
    } else {
      assert (p + q)[1..] == p[1..] + q;
      SumOpenConcat(p[1..], q);
    }
  }

  /** If a later price is acceptable then so is every price with priority over it. */
  lemma CrossesEarlier(taker: OrderView, q: seq<OrderView>, i: nat, j: nat)
    requires Sorted(Opposite(taker.side), q) && i <= j < |q| && Crosses(taker, q[j].price)
    ensures Crosses(taker, q[i].price)
  {
  }

  /**
   * Price-time priority in full: with `n` trades, the first `n` makers trade in queue order, each at its own
   * price and for exactly its closed-form share; no other maker has a share; the survivors keep their order,
   * and only the last maker served can be left partly filled.
   */
  ghost predicate PriorityFill(taker: OrderView, makers: seq<OrderView>, want: real, out: Outcome) {
    var n := |out.trades|;
    && n <= |makers|
    && TradesAreShares(taker, makers, want, out.trades)
    && (forall k | n <= k < |makers| :: Share(taker, makers, want, k) == 0.0)
    && out.makers == Survivors(taker, makers, want, n)
  }

  ghost predicate TradesAreShares(taker: OrderView, makers: seq<OrderView>, want: real, trades: seq<TradeView>)
    requires |trades| <= |makers|
  {
    forall k | 0 <= k < |trades| ::
      && 0.0 < Share(taker, makers, want, k)
      && Crosses(taker, makers[k].price)
      && trades[k] == TradeWith(taker, makers[k], Share(taker, makers, want, k))
  }

  ghost function Survivors(taker: OrderView, makers: seq<OrderView>, want: real, n: nat): seq<OrderView>
    requires n <= |makers|
  {
    if n > 0 && Share(taker, makers, want, n - 1) < OpenQty(makers[n - 1])
    then [FillBy(makers[n - 1], Share(taker, makers, want, n - 1))] + makers[n..]
    else makers[n..]
  }

  lemma {:induction false} MatchIsPriorityFill(taker: OrderView, makers: seq<OrderView>, want: real)
    requires AllLive(Opposite(taker.side), makers) && Sorted(Opposite(taker.side), makers)
    ensures PriorityFill(taker, makers, want, Match(taker, makers, want))
    decreases |makers|
  {
    hide PriorityFill, Share;
    if makers == [] || want <= 0.0 || !Crosses(taker, makers[0].price) {
      NothingFilled(taker, makers, want);
    } else if want < OpenQty(makers[0]) {
      PartialFill(taker, makers, want);
    } else {
      var left := want - OpenQty(makers[0]);
      MatchIsPriorityFill(taker, makers[1..], left);
      SharesShift(taker, makers, want);
      ConsFill(taker, makers, want, Match(taker, makers[1..], left));
    }
  }

  lemma SharesShift(taker: OrderView, makers: seq<OrderView>, want: real)
    requires makers != []
    ensures forall k | 1 <= k < |makers| ::
              Share(taker, makers, want, k) == Share(taker, makers[1..], want - OpenQty(makers[0]), k - 1)
  {
    forall k | 1 <= k < |makers|
      ensures Share(taker, makers, want, k) == Share(taker, makers[1..], want - OpenQty(makers[0]), k - 1)
    {
      assert makers[..k][1..] == makers[1..][..k - 1];
    }
  }

  lemma PartialFill(taker: OrderView, makers: seq<OrderView>, want: real)
    requires AllLive(Opposite(taker.side), makers)
    requires makers != [] && Crosses(taker, makers[0].price) && 0.0 < want < OpenQty(makers[0])
    ensures PriorityFill(taker, makers, want, Match(taker, makers, want))
  {
    assert makers[..0] == [];
    forall k | 1 <= k < |makers|
      ensures Share(taker, makers, want, k) == 0.0
    {
      SumOpenNonneg(Opposite(taker.side), makers[..k]);
    }
  }

  lemma NothingFilled(taker: OrderView, makers: seq<OrderView>, want: real)
    requires AllLive(Opposite(taker.side), makers) && Sorted(Opposite(taker.side), makers)
    requires makers == [] || want <= 0.0 || !Crosses(taker, makers[0].price)
    ensures PriorityFill(taker, makers, want, Match(taker, makers, want))
  {
    hide Share;
    NoShares(taker, makers, want);
  }

  lemma NoShares(taker: OrderView, makers: seq<OrderView>, want: real)
    requires AllLive(Opposite(taker.side), makers) && Sorted(Opposite(taker.side), makers)
    requires makers == [] || want <= 0.0 || !Crosses(taker, makers[0].price)
    ensures forall k | 0 <= k < |makers| :: Share(taker, makers, want, k) == 0.0
    ensures makers[0..] == makers
  {
    forall k | 0 <= k < |makers|
      ensures Share(taker, makers, want, k) == 0.0
    {
      SumOpenNonneg(Opposite(taker.side), makers[..k]);
      if Crosses(taker, makers[k].price) {
        CrossesEarlier(taker, makers, 0, k);
      }
    }
  }

  lemma ConsFill(taker: OrderView, makers: seq<OrderView>, want: real, out: Outcome)
    requires makers != [] && Crosses(taker, makers[0].price) && 0.0 < OpenQty(makers[0]) <= want
    requires var rest, left := makers[1..], want - OpenQty(makers[0]);
             && PriorityFill(taker, rest, left, out)
             && forall k | 1 <= k < |makers| :: Share(taker, makers, want, k) == Share(taker, rest, left, k - 1)
    ensures PriorityFill(taker, makers, want, After(TradeWith(taker, makers[0], OpenQty(makers[0])), out))
  {
    HeadShare(taker, makers, want);
    hide Share, Crosses, OpenQty, FillBy, TradeWith;
    var rest, left := makers[1..], want - OpenQty(makers[0]);
    var first := TradeWith(taker, makers[0], OpenQty(makers[0]));
    var trades := [first] + out.trades;
    var n := |trades|;
    forall k | 0 <= k < n
      ensures 0.0 < Share(taker, makers, want, k) && Crosses(taker, makers[k].price)
      ensures trades[k] == TradeWith(taker, makers[k], Share(taker, makers, want, k))
    {
      if k > 0 {
        assert trades[k] == out.trades[k - 1] && makers[k] == rest[k - 1];
        assert 0.0 < Share(taker, rest, left, k - 1);
      }
    }
    forall k | n <= k < |makers|
      ensures Share(taker, makers, want, k) == 0.0
    {
      assert Share(taker, rest, left, k - 1) == 0.0;
    }
    assert rest[n - 1..] == makers[n..];
    assert Survivors(taker, makers, want, n) == Survivors(taker, rest, left, n - 1);
  }

  /** A front order that the demand uses up gives all it has open. */
  lemma HeadShare(taker: OrderView, makers: seq<OrderView>, want: real)
    requires makers != [] && Crosses(taker, makers[0].price) && 0.0 < OpenQty(makers[0]) <= want
    ensures Share(taker, makers, want, 0) == OpenQty(makers[0])
  {
    assert makers[..0] == [];
  }

  /** No order gives anything while an order before it keeps something. */
  lemma StrictPriority(taker: OrderView, makers: seq<OrderView>, want: real, i: nat, j: nat)
    requires AllLive(Opposite(taker.side), makers) && Sorted(Opposite(taker.side), makers)
    requires i < j < |makers| && Share(taker, makers, want, j) > 0.0
    ensures Share(taker, makers, want, i) == OpenQty(makers[i])
  {
    CrossesEarlier(taker, makers, i, j);
    assert makers[..j] == makers[..i] + [makers[i]] + makers[i + 1..j];
    SumOpenConcat(makers[..i] + [makers[i]], makers[i + 1..j]);
    SumOpenConcat(makers[..i], [makers[i]]);
    assert [makers[i]][1..] == [];
    SumOpenNonneg(Opposite(taker.side), makers[i + 1..j]);
  }

  /** Successive trades never improve: prices move away from the taker. */
  lemma TradesMonotone(taker: OrderView, makers: seq<OrderView>, want: real, i: nat, j: nat)
    requires AllLive(Opposite(taker.side), makers) && Sorted(Opposite(taker.side), makers)
    requires i < j < |Match(taker, makers, want).trades|
    ensures var ts := Match(taker, makers, want).trades;
            !Ahead(Opposite(taker.side), ts[j].price, ts[i].price)
  {
    MatchIsPriorityFill(taker, makers, want);
  }

  // ----- what a match conserves -----

  ghost function SumTrades(ts: seq<TradeView>): real {
    if ts == [] then 0.0 else ts[0].quantity + SumTrades(ts[1..])
  }

  /** `q` is the end of `p`, except that its first order may have been filled further. */
  ghost predicate SuffixUpToFill(q: seq<OrderView>, p: seq<OrderView>) {
    && |q| <= |p|
    && forall i | 0 <= i < |q| ::
         && q[i] == p[|p| - |q| + i].(filled := q[i].filled)
         && (i > 0 ==> q[i] == p[|p| - |q| + i])
         && p[|p| - |q| + i].filled <= q[i].filled
  }

  lemma {:induction false} MatchLeavesSuffix(taker: OrderView, makers: seq<OrderView>, want: real)
    requires AllLive(Opposite(taker.side), makers)
    ensures SuffixUpToFill(Match(taker, makers, want).makers, makers)
    ensures AllLive(Opposite(taker.side), Match(taker, makers, want).makers)
    decreases |makers|
  {
    if makers == [] || want <= 0.0 || !Crosses(taker, makers[0].price) {
    } else if want < OpenQty(makers[0]) {
    } else {
      MatchLeavesSuffix(taker, makers[1..], want - OpenQty(makers[0]));
      SuffixOfTail(Match(taker, makers[1..], want - OpenQty(makers[0])).makers, makers);
    }
  }

  lemma SuffixOfTail(q: seq<OrderView>, p: seq<OrderView>)
    requires p != [] && SuffixUpToFill(q, p[1..])
    ensures SuffixUpToFill(q, p)
  {
    var d := |p| - |q|;
    forall i | 0 <= i < |q|
      ensures q[i] == p[d + i].(filled := q[i].filled) && p[d + i].filled <= q[i].filled
      ensures i > 0 ==> q[i] == p[d + i]
    {
      assert p[1..][d - 1 + i] == p[d + i];
    }
  }

  lemma SuffixSorted(side: Side, q: seq<OrderView>, p: seq<OrderView>)
    requires SuffixUpToFill(q, p) && Sorted(side, p)
    ensures Sorted(side, q)
  {
    var d := |p| - |q|;
    assert forall i | 0 <= i < |q| :: q[i].price == p[d + i].price;
  }

  /**
   * Trade quantities add up to what the taker received and to what the makers lost; a taker still wanting more
   * has used up every order it accepts.
   */
  lemma {:induction false} MatchConserves(taker: OrderView, makers: seq<OrderView>, want: real)
    requires AllLive(Opposite(taker.side), makers) && want >= 0.0
    ensures var out := Match(taker, makers, want);
            && 0.0 <= out.left <= want
            && SumTrades(out.trades) == want - out.left
            && SumOpen(makers) - SumOpen(out.makers) == want - out.left
            && (out.left > 0.0 ==> out.makers == [] || !Crosses(taker, out.makers[0].price))
    decreases |makers|
  {
    if makers == [] || want <= 0.0 || !Crosses(taker, makers[0].price) {
    } else {
      var out := Match(taker, makers, want);
      assert out.trades[0].quantity == Least(want, OpenQty(makers[0]));
      if want < OpenQty(makers[0]) {
        assert out.trades[1..] == [];
        assert out.makers[1..] == makers[1..];
      } else {
        var rest := Match(taker, makers[1..], want - OpenQty(makers[0]));
        MatchConserves(taker, makers[1..], want - OpenQty(makers[0]));
        assert out.trades[1..] == rest.trades;
      }
    }
  }

  // ----- the fill-or-kill dry run -----

  /** Everything the taker accepts, wherever it stands in the queue. */
  ghost function Available(taker: OrderView, makers: seq<OrderView>): real {
    if makers == [] then 0.0
    else (if Crosses(taker, makers[0].price) then OpenQty(makers[0]) else 0.0) + Available(taker, makers[1..])
  }

  lemma {:induction false} NoneAvailable(taker: OrderView, makers: seq<OrderView>)
    requires forall i | 0 <= i < |makers| :: !Crosses(taker, makers[i].price)
    ensures Available(taker, makers) == 0.0
  {
    if makers != [] {
      NoneAvailable(taker, makers[1..]);
    }
  }

  lemma {:induction false} AvailableNonneg(taker: OrderView, makers: seq<OrderView>)
    requires AllLive(Opposite(taker.side), makers)
    ensures 0.0 <= Available(taker, makers) <= SumOpen(makers)
  {
    if makers != [] {
      AvailableNonneg(taker, makers[1..]);
    }
  }

  /** The acceptable volume predicts the match exactly: the taker receives the smaller of it and its demand. */
  lemma {:induction false} AvailablePredictsMatch(taker: OrderView, makers: seq<OrderView>, want: real)
    requires AllLive(Opposite(taker.side), makers) && Sorted(Opposite(taker.side), makers) && want >= 0.0
    ensures Match(taker, makers, want).left == want - Least(want, Available(taker, makers))
    decreases |makers|
  {
    AvailableNonneg(taker, makers);
    if makers == [] || want <= 0.0 {
    } else if !Crosses(taker, makers[0].price) {
      forall i | 0 <= i < |makers|
        ensures !Crosses(taker, makers[i].price)
      {
        if Crosses(taker, makers[i].price) {
          CrossesEarlier(taker, makers, 0, i);
        }
      }
      NoneAvailable(taker, makers);
    } else {
      AvailableNonneg(taker, makers[1..]);
      if want >= OpenQty(makers[0]) {
        AvailablePredictsMatch(taker, makers[1..], want - OpenQty(makers[0]));
      }
    }
  }
}
