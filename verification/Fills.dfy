/** The recorded fills, over whole runs: they are the trades that were handled. */
module Fills {
  import opened Orders
  import opened Exchange
  import opened Discipline
  import opened Ledgers
  import opened Coverage
  import opened Providers
  import opened System
  import opened SystemRuns
  import opened Servers

  /** The trades of a stream of events, in markets that have a row, with their fees. */
  ghost function TradesOf(markets: Markets, evs: seq<EventView>): seq<Fill>
    decreases |evs|
  {
    if evs == [] then []
    else
      (if evs[0].Traded? && evs[0].trade.market in markets then [FillOf(markets[evs[0].trade.market], evs[0].trade)] else [])
      + TradesOf(markets, evs[1..])
  }

  /** What the writer records during a run. */
  ghost function FillsDuring(markets: Markets, s: Sys, acts: seq<Action>): seq<Fill>
    decreases |acts|
  {
    if acts == [] then []
    else
      (if acts[0].WriterTurn? && s.pending != [] then NewFills(markets, s.db, s.pending[0]) else [])
      + FillsDuring(markets, Do(markets, s, acts[0]), acts[1..])
  }

  lemma {:induction false} TradesConcat(markets: Markets, p: seq<EventView>, q: seq<EventView>)
    ensures TradesOf(markets, p + q) == TradesOf(markets, p) + TradesOf(markets, q)
    decreases |p|
  {
    if p == [] {
      assert p + q == q;
    } else {
      assert (p + q)[1..] == p[1..] + q;
      TradesConcat(markets, p[1..], q);
    }
  }

  lemma OneTrade(markets: Markets, ev: EventView)
    ensures TradesOf(markets, [ev])
         == if ev.Traded? && ev.trade.market in markets then [FillOf(markets[ev.trade.market], ev.trade)] else []
  {
    assert [ev][1..] == [];
    assert TradesOf(markets, []) == [];
  }

  lemma TradeRecorded(markets: Markets, s: Sys)
    requires Consistent(markets, s) && s.pending != [] && s.pending[0].Traded? && s.pending[0].trade.market in markets
    ensures Recorded(markets, s.db, s.pending[0].trade)
  {
    hide EventOk, Covered, RowsOk, QuotesOk, Idle, OrderedIn, EngineInv, WithExternalRows, ExternalIdsReadable, SideRow;
    WriterTurnEvents(Ordered(s), markets, s);
    TradeRowsThere(markets, s.handled, s.db, s.quoted, s.pending[0].trade);
  }

  /** In a reachable state nothing prevents the next trade from being recorded, except that its market has no row. */
  lemma NextIsRecorded(markets: Markets, s: Sys)
    requires Reachable(markets, s) && s.pending != []
    ensures NewFills(markets, s.db, s.pending[0]) == TradesOf(markets, [s.pending[0]])
  {
    hide Consistent, NoneLost, LogOk, TradesOf, WithExternalRows, ExternalIdsReadable, FillOf;
    OneTrade(markets, s.pending[0]);
    if s.pending[0].Traded? && s.pending[0].trade.market in markets {
      TradeRecorded(markets, s);
    }
  }

  lemma LogGrows(markets: Markets, s: Sys, a: Action)
    ensures Do(markets, s, a).log == if a.WriterTurn? && s.pending != [] then s.log + [s.pending[0]] else s.log
  {
    hide Step, Handled, StrandedAfter, RoundsAfter, Placement, WithdrawnFrom, Credited;
  }

  /** Over every run: the fills recorded are the trades handled, once each and in their order, with both fees. */
  lemma {:induction false} FillsAreTrades(markets: Markets, s: Sys, acts: seq<Action>)
    requires Reachable(markets, s) && AllAllowed(markets, s, acts)
    ensures TradesOf(markets, Exec(markets, s, acts).log) == TradesOf(markets, s.log) + FillsDuring(markets, s, acts)
    decreases |acts|
  {
    hide Reachable, Do, Allowed, NewFills;
    if acts != [] {
      var next := Do(markets, s, acts[0]);
      LogGrows(markets, s, acts[0]);
      if acts[0].WriterTurn? && s.pending != [] {
        NextIsRecorded(markets, s);
        TradesConcat(markets, s.log, [s.pending[0]]);
      }
      ActionReachable(markets, s, acts[0]);
      FillsAreTrades(markets, next, acts[1..]);
    }
  }
}
