/**
  What one attempt on an opportunity comes to, in terms of the opportunity and the views it reads
  (internal/engine/engine.go, maybeExecute).
 */
module Attempts {
  import opened Outcomes
  import opened Decimal
  import opened BookSpec
  import opened CheckedSums
  import opened Markets
  import opened Execution
  import opened Portfolio
  import opened EngineSpec
  import R = Risk
  import O = Opportunity

  /** Halfway between the best bid and the best ask of a two-sided view, rounded toward zero. */
  function Midpoint(view: Option<View>): Option<int> {
    if view.Some? && view.value.bids != [] && view.value.asks != []
    then Some(Quotient(view.value.bids[0].price + view.value.asks[0].price, 2))
    else None
  }

  lemma HalfIsQuotient(x: int)
    ensures Quotient(x * SCALE, 2 * SCALE) == Quotient(x, 2)
  {
    assert Magnitude(x * SCALE) == Magnitude(x) * SCALE;
    var m := Magnitude(x);
    assert m == m / 2 * 2 + m % 2;
    assert m * SCALE == (m / 2) * (2 * SCALE) + (m % 2) * SCALE;
    assert (m * SCALE) / (2 * SCALE) == m / 2;
  }

  /** The mid a check reads is the midpoint; it fails exactly where the sum of the two prices does not fit. */
  lemma MidMeaning(view: Option<View>)
    ensures MidOf(view).Done? ==> MidOf(view).value == Midpoint(view)
    ensures MidOf(view).Panicked?
            <==> Midpoint(view).Some? && !InRange(view.value.bids[0].price + view.value.asks[0].price)
  {
    if Midpoint(view).Some? {
      var x := view.value.bids[0].price + view.value.asks[0].price;
      if InRange(x) {
        HalfIsQuotient(x);
        DivExactIff(x, 2 * SCALE);
      }
    }
  }

  /** The exposures behind a check are those of the opportunity's two venues, and of all. */
  lemma SumsOfTheLegs(c: Core, o: O.Opp, now: int, seen: Reads, e: R.ExposureSums)
    ensures R.PossibleSums(e, c.ledger, RequestFor(o, now, seen))
            <==> && CanSumTo(VenueExposures(c.ledger, o.buyVenue), e.buy)
                 && CanSumTo(VenueExposures(c.ledger, o.sellVenue), e.sell)
                 && CanSumTo(Exposures(c.ledger), e.total)
  {
    hide CanSumTo;
  }

  /** The limits on the state of the engine and on the trade as it was priced. */
  predicate WithinLimits(l: R.Limits, c: Core, o: O.Opp) {
    && !c.risk.kill
    && R.AtMost(c.risk.outstanding + 2, l.maxOutstanding)
    && R.AtMost(c.risk.consecutiveFails + 1, l.maxConsecutiveFails)
    && R.AtMost(R.Worth(o.quantity, o.buyVWAP), l.maxTradeNotional)
    && (l.minExpectedEdge > 0 ==> o.costing.net >= l.minExpectedEdge)
    && !(l.dailyLossLimit > 0 && c.ledger.realized <= -l.dailyLossLimit && c.ledger.realized != MIN_INT64)
  }

  /**
    The gate, from the opportunity's side: an attempt goes ahead exactly when the engine and the
    trade are within their limits, both legs' own views can be traded on, both venues have room at
    their own mids, the buyer holds the priced notional and the seller the quantity.
   */
  lemma GoesAheadIff(cfg: EngineConfig, c: Core, o: O.Opp, now: int, seen: Reads, e: R.ExposureSums)
    requires PassesGiven(cfg, c, o, now, seen, e).Done?
    ensures PassesGiven(cfg, c, o, now, seen, e).value
            <==> var l := cfg.limits;
                 && WithinLimits(l, c, o)
                 && R.Usable(l, now, ViewAt(seen.check, o.buyVenue, o.symbol))
                 && R.Usable(l, now, ViewAt(seen.check, o.sellVenue, o.symbol))
                 && R.RoomAt(l, Midpoint(ViewAt(seen.mids, o.buyVenue, o.symbol)), e.buy, false, e.total)
                 && R.RoomAt(l, Midpoint(ViewAt(seen.mids, o.sellVenue, o.symbol)), e.sell, true, e.total)
                 && Available(c.ledger, (o.buyVenue, QuoteOf(o.symbol))) >= R.Worth(o.quantity, o.buyVWAP)
                 && Available(c.ledger, (o.sellVenue, BaseOf(o.symbol))) >= o.quantity
  {
    hide R.ReasonsGiven, R.PriorReasons, Mul, Quotient, MidOf, Midpoint, R.Usable;
    var r := RequestFor(o, now, seen);
    R.AllowedIff(cfg.limits, c.risk, r, c.ledger.realized, e);
    MidMeaning(ViewAt(seen.mids, o.buyVenue, o.symbol));
    MidMeaning(ViewAt(seen.mids, o.sellVenue, o.symbol));
    CheckedProduct(cfg, c, o, now, seen, e);
    MulIsQuotient(o.buyVWAP, o.quantity);
    assert o.quantity * o.buyVWAP == o.buyVWAP * o.quantity;
  }

  /** Both legs filled something. */
  predicate BothFilled(res: ArbResult) {
    res.buy.filledQty > 0 && res.sell.filledQty > 0
  }

  /**
    An attempt that goes ahead is counted once, reports the fills of both legs in the policy's
    order, leaves as many orders outstanding as there were, and counts toward the kill switch as a
    failure unless both legs filled; one that does not go ahead changes nothing.
   */
  lemma AttemptNotes(cfg: EngineConfig, c: Core, o: O.Opp, now: int, seen: Reads, e: R.ExposureSums)
    requires MaybeExecuteGiven(cfg, c, o, now, seen, e).Done?
    ensures PassesGiven(cfg, c, o, now, seen, e).Done?
    ensures var d := MaybeExecuteGiven(cfg, c, o, now, seen, e).value;
            if !PassesGiven(cfg, c, o, now, seen, e).value then d == c
            else
              && Traded(cfg, c.sim, o, seen).Done?
              && var run := Traded(cfg, c.sim, o, seen).value;
                 var fails := if BothFilled(run.result) then 0 else c.risk.consecutiveFails + 1;
                 var stop := cfg.limits.maxConsecutiveFails > 0 && fails >= cfg.limits.maxConsecutiveFails;
                 && d.executed == c.executed + 1
                 && d.sim.sink == c.sim.sink + (if cfg.policy == SellFirst then run.sellFills + run.buyFills
                                                else run.buyFills + run.sellFills)
                 && d.risk.outstanding == c.risk.outstanding
                 && d.risk.consecutiveFails == fails
                 && d.risk.kill == (c.risk.kill || stop)
                 && d.risk.killReason == (if stop then "max_consecutive_failures" else c.risk.killReason)
  {
    hide Traded, SettleResult, PassesGiven;
  }
}
