/**
  What was priced is realized: pricing an opportunity and executing it against the same views
  (internal/opportunity/engine.go and internal/execution/execution.go together).
 */
module PricedProfit {
  import opened Outcomes
  import opened Decimal
  import opened Domain
  import opened BookSpec
  import opened Walk
  import opened Vwap
  import opened Averages
  import opened Orders
  import opened Execution
  import opened FillTheory
  import opened FillValues
  import O = Opportunity

  /** The legs of an opportunity: fresh market orders for its quantity on its two venues. */
  predicate LegsOf(opp: O.Opp, buy: OrderData, sell: OrderData) {
    && FreshMarket(buy) && buy.side == Buy && buy.venue == opp.buyVenue && buy.quantity == opp.quantity
    && FreshMarket(sell) && sell.side == Sell && sell.venue == opp.sellVenue && sell.quantity == opp.quantity
  }

  /** The evaluation of `p` emitted `opp`. */
  predicate Emitted(p: O.Pair, s: O.Settings, counter: nat, opp: O.Opp) {
    O.EvaluatePair(p, s, counter) == Done(O.Found(opp))
  }

  /** Both views hold positive levels in order. */
  predicate GoodPair(p: O.Pair) {
    && (p.buyView.Some? ==> GoodView(p.buyView.value))
    && (p.sellView.Some? ==> GoodView(p.sellView.value))
  }

  /** Prices are not negative on the sides that are worked. */
  predicate NonnegSides(p: O.Pair) {
    && (p.buyView.Some? ==> NonnegPrices(p.buyView.value.asks))
    && (p.sellView.Some? ==> NonnegPrices(p.sellView.value.bids))
  }

  /** Nor are the taker rates. */
  predicate NonnegPair(p: O.Pair, s: O.Settings) {
    NonnegSides(p)
    && TakerBps(s.fees, p.buyVenue) >= 0 && TakerBps(s.fees, p.sellVenue) >= 0
  }

  // Quantities: no assumption on prices.

  /** The walk of vwapOf fills in full only what the levels hold. */
  lemma {:induction false} OkMeansDepth(s: seq<Level>, t: WalkState)
    requires PositiveLevels(s) && t.remaining >= 0 && t.filled >= 0 && t.filled + t.remaining <= MAX_INT64
    ensures VisitAll(s, t).Done? ==>
              var u := VisitAll(s, t).value;
              u.remaining == t.remaining - FilledBy(s, t.remaining) && u.filled == t.filled + FilledBy(s, t.remaining)
  {
    if s != [] && Visit(t, s[0]).Done? {
      var u := Visit(t, s[0]).value;
      assert u.remaining == t.remaining - Min(s[0].qty, t.remaining);
      if u.remaining != 0 {
        OkMeansDepth(s[1..], u);
      }
    }
  }

  lemma QuotedInFull(s: seq<Level>, q: Fixed)
    requires PositiveLevels(s) && q > 0 && VwapOf(s, q).Done? && VwapOf(s, q).value.ok
    ensures q <= TotalQty(s) && VwapOf(s, q).value.filled == q
  {
    OkMeansDepth(s, WalkState(q, 0, 0));
  }

  /** What an emitted opportunity says about the views it came from. */
  lemma EmittedMeaning(p: O.Pair, s: O.Settings, counter: nat, opp: O.Opp)
    requires Emitted(p, s, counter, opp) && GoodPair(p) && s.config.tradeQuantity > 0
    ensures p.buyView.Some? && p.sellView.Some? && p.buyView.value.state.ready && p.sellView.value.state.ready
    ensures opp.id == counter + 1 && opp.symbol == p.symbol
    ensures opp.buyVenue == p.buyVenue && opp.sellVenue == p.sellVenue
    ensures opp.quantity == s.config.tradeQuantity
    ensures opp.quantity <= TotalQty(p.buyView.value.asks) && opp.quantity <= TotalQty(p.sellView.value.bids)
    ensures opp.costing.net > s.config.minProfit && opp.edgeBps >= s.config.minEdgeBps && opp.buyVWAP < opp.sellVWAP
    ensures opp.detectedAt == p.now
    ensures opp.buyQuoteAge == p.now - p.buyView.value.state.lastUpdatedAt
    ensures opp.sellQuoteAge == p.now - p.sellView.value.state.lastUpdatedAt
  {
    var q := s.config.tradeQuantity;
    var buy, sell := VwapOf(p.buyView.value.asks, q), VwapOf(p.sellView.value.bids, q);
    assert O.PriceQuotes(p, s, counter, buy.value, sell.value) == Done(O.Found(opp));
    QuotedInFull(p.buyView.value.asks, q);
    QuotedInFull(p.sellView.value.bids, q);
  }

  lemma MarketDepth(o: OrderData, s: seq<Level>)
    requires PositiveLevels(s) && o.kind == Market
    ensures DepthWithin(o, s) == TotalQty(s)
  {
    if s != [] {
      MarketDepth(o, s[1..]);
    }
  }

  /** A market order for no more than the depth is filled in full. */
  lemma FilledInFull(o: OrderData, v: View, bps: Fixed)
    requires FreshMarket(o) && GoodView(v) && v.state.ready && o.quantity <= TotalQty(SideLevels(o.side, v))
    requires FillAgainst(o, Some(v), bps).Done?
    ensures var r := FillAgainst(o, Some(v), bps).value;
            r.status == Success && r.leg.filledQty == o.quantity && r.order.state == Filled
  {
    FillAgainstOutcome(o, v, bps);
    MarketDepth(o, SideLevels(o.side, v));
  }

  /** Executed against the views it was priced on, an opportunity fills both orders and leaves no residual. */
  lemma BothLegsFill(p: O.Pair, s: O.Settings, counter: nat, opp: O.Opp, buy: OrderData, sell: OrderData,
                     buyBps: Fixed, sellBps: Fixed)
    requires Emitted(p, s, counter, opp) && GoodPair(p) && s.config.tradeQuantity > 0 && LegsOf(opp, buy, sell)
    requires Arbitrage(buy, sell, p.buyView, p.sellView, buyBps, sellBps).Done?
    ensures var run := Arbitrage(buy, sell, p.buyView, p.sellView, buyBps, sellBps).value;
            && run.buyOrder.state == Filled && run.sellOrder.state == Filled
            && run.result.buy.filledQty == opp.quantity && run.result.sell.filledQty == opp.quantity
            && run.result.residual == 0
  {
    hide FillAgainst, Emitted;
    EmittedMeaning(p, s, counter, opp);
    FilledInFull(buy, p.buyView.value, buyBps);
    FilledInFull(sell, p.sellView.value, sellBps);
  }

  // Money.

  /** The quotes behind an emitted opportunity are the walks' costs, and its costing is exact. */
  lemma EmittedCosts(p: O.Pair, s: O.Settings, counter: nat, opp: O.Opp)
    requires Emitted(p, s, counter, opp) && GoodPair(p) && NonnegPair(p, s) && s.config.tradeQuantity > 0
    ensures p.buyView.Some? && p.sellView.Some?
    ensures var q := opp.quantity; var c := opp.costing;
            var buyBps := if p.buyVenue in s.fees then s.fees[p.buyVenue] else 0;
            var sellBps := if p.sellVenue in s.fees then s.fees[p.sellVenue] else 0;
            var buyCost := TruncCost(p.buyView.value.asks, q); var proceeds := TruncCost(p.sellView.value.bids, q);
            && 0 < q && buyCost <= MAX_INT64 && proceeds <= MAX_INT64
            && c.gross == proceeds - buyCost
            && Affordable(buyCost, buyBps) && Affordable(proceeds, sellBps)
            && c.fees == buyCost * buyBps / 10_000 + proceeds * sellBps / 10_000
            && c.slippage == Quotient(buyCost * s.config.slippageBps, 10_000)
            && c.latency == O.LatencyCost(s.latency, buyCost, p.buyVenue, p.sellVenue)
            && c.net == c.gross - c.fees - c.slippage - c.latency
            && opp.buyVWAP == buyCost * SCALE / q && opp.sellVWAP == proceeds * SCALE / q
            && (buyCost > 0 ==> opp.edgeBps == Quotient(c.net * 10_000, buyCost))
  {
    hide VwapOf, TruncCost, O.LatencyModel.Penalty, O.LatencyCost, O.CostOf, O.EdgeBps;
    var q, asks, bids := s.config.tradeQuantity, p.buyView.value.asks, p.sellView.value.bids;
    EmittedMeaning(p, s, counter, opp);
    VwapMeaning(asks, q);
    VwapMeaning(bids, q);
    var buy, sell := VwapOf(asks, q).value, VwapOf(bids, q).value;
    assert O.PriceQuotes(p, s, counter, buy, sell) == Done(O.Found(opp));
    var penalty := s.latency.Penalty(buy.cost, p.buyVenue, p.sellVenue);
    O.PenaltyIsNotMin(s.latency, buy.cost, p.buyVenue, p.sellVenue);
    O.CostingMeaning(buy.cost, sell.cost, TakerBps(s.fees, p.buyVenue), TakerBps(s.fees, p.sellVenue),
                     s.config.slippageBps, penalty);
    O.NonnegCosting(buy.cost, sell.cost, TakerBps(s.fees, p.buyVenue), TakerBps(s.fees, p.sellVenue),
                    s.config.slippageBps, penalty);
    O.PenaltyMeaning(s.latency, buy.cost, p.buyVenue, p.sellVenue);
    if buy.cost > 0 {
      O.EdgeTruncatesOnce(opp.costing.net, buy.cost);
    }
  }

  // When an opportunity is found.

  /** A view that may be traded on: ready, not stale, and not older than the maximum. */
  predicate Current(view: Option<View>, now: int, maxAge: int) {
    view.Some? && view.value.state.ready && !view.value.state.stale && now - view.value.state.lastUpdatedAt <= maxAge
  }

  /** The costing of a trade of both walks, as far as it does not overflow. */
  function CostingOf(p: O.Pair, s: O.Settings, buyCost: Fixed, proceeds: Fixed): Checked<O.Costing> {
    O.CostOf(buyCost, proceeds, TakerBps(s.fees, p.buyVenue), TakerBps(s.fees, p.sellVenue), s.config.slippageBps,
             s.latency.Penalty(buyCost, p.buyVenue, p.sellVenue))
  }

  /** Both sides hold the quantity, and at the walks' costs the trade clears the floor, the edge and the spread. */
  predicate Profitable(p: O.Pair, s: O.Settings, q: nat)
    requires p.buyView.Some? && p.sellView.Some? && Priced(p.buyView.value.asks) && Priced(p.sellView.value.bids)
  {
    var asks, bids := p.buyView.value.asks, p.sellView.value.bids;
    var buyCost, proceeds := TruncCost(asks, q), TruncCost(bids, q);
    && 0 < q <= TotalQty(asks) && q <= TotalQty(bids) && 0 < buyCost <= MAX_INT64 && proceeds <= MAX_INT64
    && var c := CostingOf(p, s, buyCost, proceeds);
       && c.Done? && c.value.net > s.config.minProfit && Quotient(c.value.net * 10_000, buyCost) >= s.config.minEdgeBps
       && buyCost * SCALE / q < proceeds * SCALE / q
  }

  lemma PricedIff(p: O.Pair, s: O.Settings, counter: nat)
    requires GoodPair(p) && NonnegSides(p) && s.config.tradeQuantity > 0 && p.buyView.Some? && p.sellView.Some?
    requires VwapOf(p.buyView.value.asks, s.config.tradeQuantity).Done?
    requires VwapOf(p.sellView.value.bids, s.config.tradeQuantity).Done?
    ensures var e := O.PriceQuotes(p, s, counter, VwapOf(p.buyView.value.asks, s.config.tradeQuantity).value,
                                   VwapOf(p.sellView.value.bids, s.config.tradeQuantity).value);
            e.Done? ==> (e.value.Found? <==> Profitable(p, s, s.config.tradeQuantity))
  {
    hide VwapOf, TruncCost, O.LatencyModel.Penalty, O.CostOf, O.EdgeBps;
    var q, asks, bids := s.config.tradeQuantity, p.buyView.value.asks, p.sellView.value.bids;
    VwapMeaning(asks, q);
    VwapMeaning(bids, q);
    var c := CostingOf(p, s, TruncCost(asks, q), TruncCost(bids, q));
    if c.Done? && c.value.net > s.config.minProfit {
      EdgeIff(c.value.net, TruncCost(asks, q));
    }
  }

  lemma EdgeIff(net: Fixed, buyCost: Fixed)
    requires net != MIN_INT64 && buyCost >= 0
    ensures O.EdgeBps(net, buyCost).Done? ==>
              buyCost > 0 && O.EdgeBps(net, buyCost).value == Quotient(net * 10_000, buyCost)
  {
    if O.EdgeBps(net, buyCost).Done? && buyCost > 0 {
      O.EdgeTruncatesOnce(net, buyCost);
    }
  }

  /** Both views may be traded on, and both sides hold the quantity. */
  predicate Quotable(p: O.Pair, s: O.Settings)
    requires GoodPair(p)
  {
    && Current(p.buyView, p.now, s.config.maxQuoteAge) && Current(p.sellView, p.now, s.config.maxQuoteAge)
    && s.config.tradeQuantity <= TotalQty(p.buyView.value.asks)
    && s.config.tradeQuantity <= TotalQty(p.sellView.value.bids)
  }

  /** Why an evaluation declines: the first of these conditions that is not met. */
  predicate DeclinedFor(p: O.Pair, s: O.Settings, reason: O.Reason)
    requires p.buyView.Some? && p.sellView.Some? && GoodPair(p) && NonnegSides(p) && s.config.tradeQuantity > 0
  {
    var b, a := p.buyView.value.state, p.sellView.value.state;
    var asks, bids, q := p.buyView.value.asks, p.sellView.value.bids, s.config.tradeQuantity;
    var buyCost, proceeds := TruncCost(asks, q), TruncCost(bids, q);
    match reason
    case NotReady => !b.ready || !a.ready
    case QuoteStale => b.ready && a.ready && (b.stale || a.stale)
    case QuoteTooOld =>
      && b.ready && a.ready && !b.stale && !a.stale
      && (p.now - b.lastUpdatedAt > s.config.maxQuoteAge || p.now - a.lastUpdatedAt > s.config.maxQuoteAge)
    case InsufficientDepth =>
      && Current(p.buyView, p.now, s.config.maxQuoteAge) && Current(p.sellView, p.now, s.config.maxQuoteAge)
      && (q > TotalQty(asks) || q > TotalQty(bids))
    case BelowMinProfit =>
      && Quotable(p, s) && buyCost <= MAX_INT64 && proceeds <= MAX_INT64
      && var c := CostingOf(p, s, buyCost, proceeds);
         c.Done? && c.value.net <= s.config.minProfit
    case BelowMinEdge =>
      && Quotable(p, s) && 0 < buyCost <= MAX_INT64 && proceeds <= MAX_INT64
      && var c := CostingOf(p, s, buyCost, proceeds);
         && c.Done? && c.value.net > s.config.minProfit
         && Quotient(c.value.net * 10_000, buyCost) < s.config.minEdgeBps
    case NonPositiveSpread =>
      && Quotable(p, s) && 0 < buyCost <= MAX_INT64 && proceeds <= MAX_INT64
      && var c := CostingOf(p, s, buyCost, proceeds);
         && c.Done? && c.value.net > s.config.minProfit
         && Quotient(c.value.net * 10_000, buyCost) >= s.config.minEdgeBps
         && buyCost * SCALE / q >= proceeds * SCALE / q
  }

  lemma QuotesDecline(p: O.Pair, s: O.Settings, counter: nat, reason: O.Reason)
    requires GoodPair(p) && NonnegSides(p) && s.config.tradeQuantity > 0
    requires Current(p.buyView, p.now, s.config.maxQuoteAge) && Current(p.sellView, p.now, s.config.maxQuoteAge)
    requires VwapOf(p.buyView.value.asks, s.config.tradeQuantity).Done?
    requires VwapOf(p.sellView.value.bids, s.config.tradeQuantity).Done?
    ensures var e := O.PriceQuotes(p, s, counter, VwapOf(p.buyView.value.asks, s.config.tradeQuantity).value,
                                   VwapOf(p.sellView.value.bids, s.config.tradeQuantity).value);
            e.Done? ==> (e.value == O.Declined(reason) <==> DeclinedFor(p, s, reason))
  {
    hide VwapOf, TruncCost, O.LatencyModel.Penalty, O.CostOf, O.EdgeBps;
    var q, asks, bids := s.config.tradeQuantity, p.buyView.value.asks, p.sellView.value.bids;
    VwapMeaning(asks, q);
    VwapMeaning(bids, q);
    var c := CostingOf(p, s, TruncCost(asks, q), TruncCost(bids, q));
    if c.Done? && c.value.net > s.config.minProfit {
      EdgeIff(c.value.net, TruncCost(asks, q));
    }
  }

  /** An evaluation without a view of either book says nothing; otherwise it declines for exactly one reason, if any. */
  lemma DeclinedIff(p: O.Pair, s: O.Settings, counter: nat, reason: O.Reason)
    requires GoodPair(p) && NonnegSides(p) && s.config.tradeQuantity > 0
    requires O.EvaluatePair(p, s, counter).Done?
    ensures O.EvaluatePair(p, s, counter).value.NoView? <==> p.buyView.None? || p.sellView.None?
    ensures O.EvaluatePair(p, s, counter).value == O.Declined(reason)
            <==> p.buyView.Some? && p.sellView.Some? && DeclinedFor(p, s, reason)
  {
    hide VwapOf, TruncCost, O.PriceQuotes, CostingOf;
    if Current(p.buyView, p.now, s.config.maxQuoteAge) && Current(p.sellView, p.now, s.config.maxQuoteAge) {
      QuotesDecline(p, s, counter, reason);
      NeverUnseen(p, s, counter);
    }
  }

  lemma NeverUnseen(p: O.Pair, s: O.Settings, counter: nat)
    ensures forall buy, sell :: var e := O.PriceQuotes(p, s, counter, buy, sell); e.Done? ==> !e.value.NoView?
  {
    hide O.LatencyModel.Penalty, O.CostOf, O.EdgeBps;
  }

  /** Barring overflow, an evaluation finds an opportunity exactly when both views are current and the trade pays. */
  lemma FoundIff(p: O.Pair, s: O.Settings, counter: nat)
    requires GoodPair(p) && NonnegSides(p) && s.config.tradeQuantity > 0
    requires O.EvaluatePair(p, s, counter).Done?
    ensures O.EvaluatePair(p, s, counter).value.Found?
            <==> && Current(p.buyView, p.now, s.config.maxQuoteAge) && Current(p.sellView, p.now, s.config.maxQuoteAge)
                 && Profitable(p, s, s.config.tradeQuantity)
  {
    hide Profitable, VwapOf, O.PriceQuotes;
    if Current(p.buyView, p.now, s.config.maxQuoteAge) && Current(p.sellView, p.now, s.config.maxQuoteAge) {
      PricedIff(p, s, counter);
    }
  }

  /** Pricing that did not overflow guarantees fills that do not. */
  lemma FillsCannotPanic(p: O.Pair, s: O.Settings, counter: nat, opp: O.Opp, buy: OrderData, sell: OrderData)
    requires Emitted(p, s, counter, opp) && GoodPair(p) && NonnegPair(p, s) && s.config.tradeQuantity > 0
    requires LegsOf(opp, buy, sell)
    ensures FillAgainst(buy, p.buyView, TakerBps(s.fees, p.buyVenue)).Done?
    ensures FillAgainst(sell, p.sellView, TakerBps(s.fees, p.sellVenue)).Done?
  {
    EmittedMeaning(p, s, counter, opp);
    EmittedCosts(p, s, counter, opp);
    MarketOrderFill(buy, p.buyView.value, TakerBps(s.fees, p.buyVenue));
    MarketOrderFill(sell, p.sellView.value, TakerBps(s.fees, p.sellVenue));
  }

  /** The settled value of a leg, vwap*filled truncated, against the walk's cost. */
  lemma SettledValue(leg: Leg, fills: seq<FillRecord>, s: seq<Level>, q: nat, bps: Fixed)
    requires Priced(s) && LegOf(leg, fills, s, q, bps) && 0 < q <= TotalQty(s)
    ensures var value := leg.vwap * leg.filledQty / SCALE; var n := Touched(s, q);
            && n > 0 && 0 <= value <= TruncCost(s, q)
            && value * SCALE > TruncCost(s, q) * SCALE - n * SCALE - n * q
  {
    hide AverageOf, QtyOf, CostOf, LotsOf;
    var x, n := leg.vwap * leg.filledQty, Touched(s, q);
    assert s != [];
    AverageBounds(LotsOf(fills));
    FloorBounds(x, SCALE);
    MulMonotone(0, leg.vwap, leg.filledQty);
    FloorAtMost(x, SCALE, TruncCost(s, q));
  }

  /** Both legs of an execution against the priced views, as FillValues describes them. */
  lemma LegsAreWalks(p: O.Pair, s: O.Settings, counter: nat, opp: O.Opp, buy: OrderData, sell: OrderData)
    requires Emitted(p, s, counter, opp) && GoodPair(p) && NonnegPair(p, s) && s.config.tradeQuantity > 0
    requires LegsOf(opp, buy, sell)
    ensures p.buyView.Some? && p.sellView.Some?
    ensures var buyBps := if p.buyVenue in s.fees then s.fees[p.buyVenue] else 0;
            && FillAgainst(buy, p.buyView, buyBps).Done?
            && var r := FillAgainst(buy, p.buyView, buyBps).value;
               LegOf(r.leg, r.fills, p.buyView.value.asks, opp.quantity, buyBps)
    ensures var sellBps := if p.sellVenue in s.fees then s.fees[p.sellVenue] else 0;
            && FillAgainst(sell, p.sellView, sellBps).Done?
            && var r := FillAgainst(sell, p.sellView, sellBps).value;
               LegOf(r.leg, r.fills, p.sellView.value.bids, opp.quantity, sellBps)
  {
    EmittedMeaning(p, s, counter, opp);
    FillsCannotPanic(p, s, counter, opp, buy, sell);
    MarketOrderFill(buy, p.buyView.value, TakerBps(s.fees, p.buyVenue));
    MarketOrderFill(sell, p.sellView.value, TakerBps(s.fees, p.sellVenue));
  }

  /** What Combine computes for two full legs at nonnegative averages. */
  lemma CombineMeaning(buy: Leg, sell: Leg, q: Fixed)
    requires buy.filledQty == q && sell.filledQty == q && q > 0
    requires buy.vwap >= 0 && sell.vwap >= 0 && buy.fee + sell.fee != MIN_INT64
    requires Combine(buy, sell).Done?
    ensures Combine(buy, sell).value.realized
            == sell.vwap * q / SCALE - buy.vwap * q / SCALE - (buy.fee + sell.fee)
    ensures var r := Combine(buy, sell).value; r.buy == buy && r.sell == sell && r.residual == 0
  {
    MulNonneg(buy.vwap, q);
    MulNonneg(sell.vwap, q);
  }

  /**
    Priced profit is realized: with n the bid levels touched and q the quantity, the realized
    profit exceeds ExpectedNetPnL + SlippagePenalty + LatencyPenalty - n - n*q/1e8 raw units.
    Stated in units of 1e-16.
   */
  lemma PricedProfitIsRealized(p: O.Pair, s: O.Settings, counter: nat, opp: O.Opp, buy: OrderData, sell: OrderData)
    requires Emitted(p, s, counter, opp) && GoodPair(p) && NonnegPair(p, s) && s.config.tradeQuantity > 0
    requires LegsOf(opp, buy, sell)
    requires Arbitrage(buy, sell, p.buyView, p.sellView,
                       TakerBps(s.fees, p.buyVenue), TakerBps(s.fees, p.sellVenue)).Done?
    ensures p.sellView.Some?
    ensures var run := Arbitrage(buy, sell, p.buyView, p.sellView,
                                 TakerBps(s.fees, p.buyVenue), TakerBps(s.fees, p.sellVenue)).value;
            var c := opp.costing; var n := Touched(p.sellView.value.bids, opp.quantity);
            run.result.realized * SCALE > (c.net + c.slippage + c.latency) * SCALE - n * SCALE - n * opp.quantity
  {
    var q, buyBps, sellBps := opp.quantity, TakerBps(s.fees, p.buyVenue), TakerBps(s.fees, p.sellVenue);
    EmittedMeaning(p, s, counter, opp);
    EmittedCosts(p, s, counter, opp);
    LegsAreWalks(p, s, counter, opp, buy, sell);
    BothLegsFill(p, s, counter, opp, buy, sell, buyBps, sellBps);
    var b, a := FillAgainst(buy, p.buyView, buyBps).value, FillAgainst(sell, p.sellView, sellBps).value;
    SettledValue(b.leg, b.fills, p.buyView.value.asks, q, buyBps);
    SettledValue(a.leg, a.fills, p.sellView.value.bids, q, sellBps);
    FeeGap(b.leg.notional, b.leg.fee, |b.fills|, buyBps);
    FeeGap(a.leg.notional, a.leg.fee, |a.fills|, sellBps);
    CombineMeaning(b.leg, a.leg, q);
  }

  lemma PenaltyIsNonneg(m: O.LatencyModel, notional: Fixed, buy: Venue, sell: Venue)
    requires notional >= 0
    ensures var r := m.Penalty(notional, buy, sell); r.Done? ==> r.value >= 0
  {
    var ms := Quotient(m.TotalUS(buy, sell), 1000);
    if m.penaltyBpsPerMs > 0 && ms > 0 {
      BpsNonneg(notional, m.penaltyBpsPerMs);
      var perMs := MulBps(notional, m.penaltyBpsPerMs);
      if perMs.Done? {
        MulMonotone(0, perMs.value, ms);
      }
    }
  }

  /** The two reserves of an opportunity as pricing formed them. */
  lemma ReservesPriced(p: O.Pair, s: O.Settings, counter: nat, buy: Quote, sell: Quote, opp: O.Opp)
    requires O.PriceQuotes(p, s, counter, buy, sell) == Done(O.Found(opp))
    ensures MulBps(buy.cost, s.config.slippageBps) == Done(opp.costing.slippage)
    ensures s.latency.Penalty(buy.cost, p.buyVenue, p.sellVenue) == Done(opp.costing.latency)
  {
    hide MulBps, O.LatencyModel.Penalty, O.EdgeBps, TakerBps;
  }

  /** The two penalties of an emitted opportunity are not negative when the slippage rate is not. */
  lemma PenaltiesAreNonneg(p: O.Pair, s: O.Settings, counter: nat, opp: O.Opp)
    requires Emitted(p, s, counter, opp) && GoodPair(p) && NonnegPair(p, s) && s.config.tradeQuantity > 0
    requires s.config.slippageBps >= 0
    ensures opp.costing.slippage >= 0 && opp.costing.latency >= 0
  {
    hide VwapOf, O.PriceQuotes, O.LatencyModel.Penalty, MulBps;
    var q := s.config.tradeQuantity;
    EmittedMeaning(p, s, counter, opp);
    VwapMeaning(p.buyView.value.asks, q);
    VwapMeaning(p.sellView.value.bids, q);
    var buy, sell := VwapOf(p.buyView.value.asks, q).value, VwapOf(p.sellView.value.bids, q).value;
    assert O.PriceQuotes(p, s, counter, buy, sell) == Done(O.Found(opp));
    ReservesPriced(p, s, counter, buy, sell, opp);
    BpsNonneg(buy.cost, s.config.slippageBps);
    PenaltyIsNonneg(s.latency, buy.cost, p.buyVenue, p.sellVenue);
  }

  lemma CombineCannotPanic(buy: Leg, sell: Leg, q: Fixed, buyCost: Fixed, proceeds: Fixed, fees: Fixed)
    requires buy.filledQty == q && sell.filledQty == q && q > 0
    requires buy.vwap >= 0 && sell.vwap >= 0 && buy.fee >= 0 && sell.fee >= 0
    requires buy.vwap * q / SCALE <= buyCost && sell.vwap * q / SCALE <= proceeds
    requires buy.fee + sell.fee <= fees && buyCost + fees <= proceeds
    ensures Combine(buy, sell).Done?
  {
    MulNonneg(buy.vwap, q);
    MulNonneg(sell.vwap, q);
  }

  /**
    An opportunity priced with a nonnegative profit floor and slippage rate can always be
    executed against the views it was priced on: no step of the execution overflows.
   */
  lemma ExecutionCannotPanic(p: O.Pair, s: O.Settings, counter: nat, opp: O.Opp, buy: OrderData, sell: OrderData)
    requires Emitted(p, s, counter, opp) && GoodPair(p) && NonnegPair(p, s) && s.config.tradeQuantity > 0
    requires LegsOf(opp, buy, sell)
    requires s.config.minProfit >= 0 && s.config.slippageBps >= 0
    ensures Arbitrage(buy, sell, p.buyView, p.sellView,
                      TakerBps(s.fees, p.buyVenue), TakerBps(s.fees, p.sellVenue)).Done?
  {
    var q, buyBps, sellBps := opp.quantity, TakerBps(s.fees, p.buyVenue), TakerBps(s.fees, p.sellVenue);
    EmittedMeaning(p, s, counter, opp);
    EmittedCosts(p, s, counter, opp);
    PenaltiesAreNonneg(p, s, counter, opp);
    LegsAreWalks(p, s, counter, opp, buy, sell);
    var b, a := FillAgainst(buy, p.buyView, buyBps).value, FillAgainst(sell, p.sellView, sellBps).value;
    SettledValue(b.leg, b.fills, p.buyView.value.asks, q, buyBps);
    SettledValue(a.leg, a.fills, p.sellView.value.bids, q, sellBps);
    FeeGap(b.leg.notional, b.leg.fee, |b.fills|, buyBps);
    FeeGap(a.leg.notional, a.leg.fee, |a.fills|, sellBps);
    CombineCannotPanic(b.leg, a.leg, q, b.leg.notional, a.leg.notional, opp.costing.fees);
  }

  /** What was quoted for the buy, whatever the rates. */
  lemma PricedAverage(p: O.Pair, s: O.Settings, counter: nat, opp: O.Opp)
    requires Emitted(p, s, counter, opp) && GoodPair(p) && NonnegSides(p) && s.config.tradeQuantity > 0
    ensures p.buyView.Some? && 0 < opp.quantity && TruncCost(p.buyView.value.asks, opp.quantity) <= MAX_INT64
    ensures opp.buyVWAP == TruncCost(p.buyView.value.asks, opp.quantity) * SCALE / opp.quantity
  {
    hide O.LatencyModel.Penalty, O.CostOf, O.EdgeBps, TruncCost;
    var q, asks, bids := s.config.tradeQuantity, p.buyView.value.asks, p.sellView.value.bids;
    EmittedMeaning(p, s, counter, opp);
    VwapMeaning(asks, q);
    var buy, sell := VwapOf(asks, q).value, VwapOf(bids, q).value;
    assert O.PriceQuotes(p, s, counter, buy, sell) == Done(O.Found(opp));
  }

  /** The buy leg is worth at most what was priced, whatever the rates. */
  lemma BuyWithinPriced(p: O.Pair, s: O.Settings, counter: nat, opp: O.Opp, buy: OrderData, bps: Fixed)
    requires Emitted(p, s, counter, opp) && GoodPair(p) && NonnegSides(p) && s.config.tradeQuantity > 0
    requires FreshMarket(buy) && buy.side == Buy && buy.quantity == opp.quantity
    requires FillAgainst(buy, p.buyView, bps).Done?
    ensures var leg := FillAgainst(buy, p.buyView, bps).value.leg;
            && leg.filledQty == opp.quantity && 0 <= leg.vwap <= opp.buyVWAP
            && 0 <= leg.vwap * opp.quantity / SCALE <= opp.buyVWAP * opp.quantity / SCALE
            && opp.buyVWAP * opp.quantity / SCALE <= MAX_INT64
  {
    var q := opp.quantity;
    EmittedMeaning(p, s, counter, opp);
    PricedAverage(p, s, counter, opp);
    MarketOrderFill(buy, p.buyView.value, bps);
    var r := FillAgainst(buy, p.buyView, bps).value;
    AverageAtMostOneShot(r.leg, r.fills, p.buyView.value.asks, q, bps);
    OneShotNotional(TruncCost(p.buyView.value.asks, q), q);
    MulMonotone(r.leg.vwap, opp.buyVWAP, q);
    FloorMonotone(r.leg.vwap * q, opp.buyVWAP * q, SCALE);
    MulNonneg(r.leg.vwap, q);
  }

  /** The buy leg settles for at most the notional that the inventory check compares. */
  lemma BuySettlesWithinCheck(p: O.Pair, s: O.Settings, counter: nat, opp: O.Opp, buy: OrderData, sell: OrderData)
    requires Emitted(p, s, counter, opp) && GoodPair(p) && NonnegPair(p, s) && s.config.tradeQuantity > 0
    requires LegsOf(opp, buy, sell)
    ensures FillAgainst(buy, p.buyView, TakerBps(s.fees, p.buyVenue)).Done?
    ensures var leg := FillAgainst(buy, p.buyView, TakerBps(s.fees, p.buyVenue)).value.leg;
            && leg.filledQty == opp.quantity && 0 <= leg.vwap <= opp.buyVWAP && leg.fee >= 0
            && Mul(leg.vwap, leg.filledQty).Done? && Mul(opp.buyVWAP, opp.quantity).Done?
            && 0 <= Mul(leg.vwap, leg.filledQty).value <= Mul(opp.buyVWAP, opp.quantity).value
  {
    var q, bps := opp.quantity, TakerBps(s.fees, p.buyVenue);
    EmittedMeaning(p, s, counter, opp);
    LegsAreWalks(p, s, counter, opp, buy, sell);
    BuyWithinPriced(p, s, counter, opp, buy, bps);
    MulNonneg(FillAgainst(buy, p.buyView, bps).value.leg.vwap, q);
    MulNonneg(opp.buyVWAP, q);
  }

  lemma OneShotNotional(cost: nat, q: nat)
    requires q > 0
    ensures cost * SCALE / q * q / SCALE <= cost
  {
    FloorBounds(cost * SCALE, q);
    FloorAtMost(cost * SCALE / q * q, SCALE, cost);
  }

  // Such trades exist.

  function ExampleView(bid: Fixed, ask: Fixed): View {
    View([Level(bid, SCALE)], [Level(ask, SCALE)], State(true, false, 1, 0, 1))
  }

  /** Buying one unit at 1 and selling it at 3. */
  function ExamplePair(): O.Pair {
    O.Pair("BTC-USDT", Binance, OKX, Some(ExampleView(SCALE / 2, SCALE)), Some(ExampleView(3 * SCALE, 4 * SCALE)), 0)
  }

  /** Ten basis points on the one venue and twenty on the other, and no penalties. */
  function ExampleSettings(): O.Settings {
    O.Settings(map[Binance := 10, OKX := 20], O.LatencyModel(0, map[], 0), O.Config(0, 0, 0, SCALE, 0))
  }

  function ExampleOrder(side: Side, venue: Venue): OrderData {
    OrderData(1, ForOpportunity(1, side), venue, "BTC-USDT", side, Market, 0, SCALE, 0, 0, Pending)
  }

  lemma ExampleQuote(price: Fixed, qty: Fixed)
    requires 0 < price <= 4 * SCALE && qty == SCALE
    ensures VwapOf([Level(price, SCALE)], qty) == Done(Quote(price, SCALE, price, true))
  {
    var s := [Level(price, SCALE)];
    assert s[1..] == [];
    VwapMeaning(s, qty);
  }

  const EXAMPLE_COSTING := O.Costing(2 * SCALE, 700_000, 0, 0, 2 * SCALE - 700_000)

  function ExampleOpp(): O.Opp {
    O.Opp(1, "BTC-USDT", Binance, OKX, SCALE, SCALE, 3 * SCALE, EXAMPLE_COSTING, 19_930, 0, 0, 0)
  }

  lemma ExampleNumbers()
    ensures O.CostOf(SCALE, 3 * SCALE, 10, 20, 0, Done(0)) == Done(EXAMPLE_COSTING)
    ensures O.EdgeBps(EXAMPLE_COSTING.net, SCALE) == Done(19_930)
  {
    var net := EXAMPLE_COSTING.net;
    assert MulInt(net, 10_000) == Done(net * 10_000);
    assert Div(net * 10_000, SCALE) == Done(net * 10_000);
    assert MulBps(SCALE, 10) == Done(100_000) && MulBps(3 * SCALE, 20) == Done(600_000) && MulBps(SCALE, 0) == Done(0);
    hide MulInt, Div, MulBps;
  }

  lemma ExampleIsEmitted()
    ensures Emitted(ExamplePair(), ExampleSettings(), 0, ExampleOpp())
  {
    hide VwapOf, O.CostOf, O.EdgeBps;
    ExampleQuote(SCALE, SCALE);
    ExampleQuote(3 * SCALE, SCALE);
    ExampleNumbers();
  }

  /** The premises of the results above are met: a pair is priced, found, and worked by both legs. */
  lemma PricedTradeExists()
    ensures exists p: O.Pair, s: O.Settings, opp: O.Opp, buy: OrderData, sell: OrderData ::
              && Emitted(p, s, 0, opp) && GoodPair(p) && NonnegPair(p, s) && s.config.tradeQuantity > 0
              && s.config.minProfit >= 0 && s.config.slippageBps >= 0 && LegsOf(opp, buy, sell)
              && Arbitrage(buy, sell, p.buyView, p.sellView,
                           TakerBps(s.fees, p.buyVenue), TakerBps(s.fees, p.sellVenue)).Done?
  {
    hide Emitted, Arbitrage;
    var p, s, opp := ExamplePair(), ExampleSettings(), ExampleOpp();
    var buy, sell := ExampleOrder(Buy, Binance), ExampleOrder(Sell, OKX);
    ExampleIsEmitted();
    assert GoodPair(p) && NonnegPair(p, s) && LegsOf(opp, buy, sell);
    ExecutionCannotPanic(p, s, 0, opp, buy, sell);
    hide *;
  }
}
