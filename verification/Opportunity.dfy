/** Pricing one venue pair from immutable views (internal/opportunity/engine.go). */
module Opportunity {
  import opened Outcomes
  import opened Decimal
  import opened Domain
  import opened BookSpec
  import opened Vwap
  import DecimalMachine

  datatype LatencyModel = LatencyModel(penaltyBpsPerMs: Fixed, outboundUS: map<Venue, Fixed>, decisionUS: Fixed) {
    function OutboundUS(v: Venue): (us: Fixed)
      ensures v in outboundUS ==> us == outboundUS[v]
      ensures v !in outboundUS ==> us == 0
    {
      if v in outboundUS then outboundUS[v] else 0
    }

    /** Plain int64 sums, which wrap. */
    function TotalUS(buy: Venue, sell: Venue): Fixed {
      DecimalMachine.Wrap(DecimalMachine.Wrap(decisionUS + OutboundUS(buy)) + OutboundUS(sell))
    }

    function Penalty(notional: Fixed, buy: Venue, sell: Venue): Checked<Fixed> {
      if penaltyBpsPerMs <= 0 then Done(0)
      else
        var ms := Quotient(TotalUS(buy, sell), 1000);
        if ms <= 0 then Done(0)
        else
          var perMs :- MulBps(notional, penaltyBpsPerMs);
          MulInt(perMs, ms)
    }
  }

  datatype Config = Config(
    minProfit: Fixed, minEdgeBps: Fixed, maxQuoteAge: int, tradeQuantity: Fixed, slippageBps: Fixed)

  datatype Opp = Opp(
    id: nat,
    symbol: string,
    buyVenue: Venue,
    sellVenue: Venue,
    quantity: Fixed,
    buyVWAP: Fixed,
    sellVWAP: Fixed,
    costing: Costing,
    edgeBps: Fixed,
    buyQuoteAge: int,
    sellQuoteAge: int,
    detectedAt: int)

  /** Go's GrossPnL, Fees, SlippagePenalty, LatencyPenalty and ExpectedNetPnL. */
  datatype Costing = Costing(gross: Fixed, fees: Fixed, slippage: Fixed, latency: Fixed, net: Fixed)

  datatype Reason =
    NotReady | QuoteStale | QuoteTooOld | InsufficientDepth | BelowMinProfit | BelowMinEdge | NonPositiveSpread

  datatype Evaluation = NoView | Declined(reason: Reason) | Found(opp: Opp)

  function CostOf(buyCost: Fixed, proceeds: Fixed, buyBps: Fixed, sellBps: Fixed, slippageBps: Fixed,
                  penalty: Checked<Fixed>): Checked<Costing> {
    var gross :- Sub(proceeds, buyCost);
    var buyFee :- MulBps(buyCost, buyBps);
    var sellFee :- MulBps(proceeds, sellBps);
    var fees :- Add(buyFee, sellFee);
    var slippage :- MulBps(buyCost, slippageBps);
    var latency :- penalty;
    var afterFees :- Sub(gross, fees);
    var afterSlippage :- Sub(afterFees, slippage);
    var net :- Sub(afterSlippage, latency);
    Done(Costing(gross, fees, slippage, latency, net))
  }

  /** net / buy_cost * 10000, through two truncating divisions. */
  function EdgeBps(net: Fixed, buyCost: Fixed): Checked<Fixed> {
    var scaled :- MulInt(net, 10_000);
    var ratio :- Div(scaled, buyCost);
    Done(Quotient(ratio, SCALE))
  }

  /** The market conditions and settings one evaluation reads. */
  datatype Pair = Pair(
    symbol: string, buyVenue: Venue, sellVenue: Venue, buyView: Option<View>, sellView: Option<View>, now: int)

  datatype Settings = Settings(fees: FeeSchedule, latency: LatencyModel, config: Config)

  function EvaluatePair(p: Pair, s: Settings, counter: nat): Checked<Evaluation> {
    if p.buyView.None? || p.sellView.None? then Done(NoView)
    else
      var b, a := p.buyView.value.state, p.sellView.value.state;
      if !b.ready || !a.ready then Done(Declined(NotReady))
      else if b.stale || a.stale then Done(Declined(QuoteStale))
      else if p.now - b.lastUpdatedAt > s.config.maxQuoteAge || p.now - a.lastUpdatedAt > s.config.maxQuoteAge
      then Done(Declined(QuoteTooOld))
      else
        var buy :- VwapOf(p.buyView.value.asks, s.config.tradeQuantity);
        var sell :- VwapOf(p.sellView.value.bids, s.config.tradeQuantity);
        PriceQuotes(p, s, counter, buy, sell)
  }

  /** The rest of an evaluation, once both sides are quoted. */
  function PriceQuotes(p: Pair, s: Settings, counter: nat, buy: Quote, sell: Quote): Checked<Evaluation> {
    if !buy.ok || !sell.ok then Done(Declined(InsufficientDepth))
    else
      var qty := if sell.filled < buy.filled then sell.filled else buy.filled;
      if qty < s.config.tradeQuantity then Done(Declined(InsufficientDepth))
      else
        var costing :- CostOf(buy.cost, sell.cost, TakerBps(s.fees, p.buyVenue), TakerBps(s.fees, p.sellVenue),
                              s.config.slippageBps, s.latency.Penalty(buy.cost, p.buyVenue, p.sellVenue));
        if costing.net <= s.config.minProfit then Done(Declined(BelowMinProfit))
        else
          var edge :- EdgeBps(costing.net, buy.cost);
          if edge < s.config.minEdgeBps then Done(Declined(BelowMinEdge))
          else if buy.vwap >= sell.vwap then Done(Declined(NonPositiveSpread))
          else
            Done(Found(Opp(counter + 1, p.symbol, p.buyVenue, p.sellVenue, qty, buy.vwap, sell.vwap, costing, edge,
                           if p.buyView.Some? then p.now - p.buyView.value.state.lastUpdatedAt else 0,
                           if p.sellView.Some? then p.now - p.sellView.value.state.lastUpdatedAt else 0,
                           p.now)))
  }

  class Engine {
    const settings: Settings
    var counter: nat

    constructor (settings: Settings)
      ensures this.settings == settings && counter == 0
    {
      this.settings, counter := settings, 0;
    }

    method Evaluate(p: Pair) returns (r: Checked<Evaluation>)
      modifies this
      ensures r == EvaluatePair(p, settings, old(counter))
      ensures counter == old(counter) + (if r.Done? && r.value.Found? then 1 else 0)
    {
      hide VwapOf, LatencyModel.Penalty, CostOf, EdgeBps, TakerBps;
      if p.buyView.None? || p.sellView.None? {
        return Done(NoView);
      }
      var buyState, sellState := p.buyView.value.state, p.sellView.value.state;
      if !buyState.ready || !sellState.ready {
        return Done(Declined(NotReady));
      }
      if buyState.stale || sellState.stale {
        return Done(Declined(QuoteStale));
      }
      var buyAge, sellAge := p.now - buyState.lastUpdatedAt, p.now - sellState.lastUpdatedAt;
      if buyAge > settings.config.maxQuoteAge || sellAge > settings.config.maxQuoteAge {
        return Done(Declined(QuoteTooOld));
      }
      var buy :- ComputeVwap(p.buyView.value.asks, settings.config.tradeQuantity);
      var sell :- ComputeVwap(p.sellView.value.bids, settings.config.tradeQuantity);
      if !buy.ok || !sell.ok {
        return Done(Declined(InsufficientDepth));
      }
      var qty := buy.filled;
      if sell.filled < qty {
        qty := sell.filled;
      }
      if qty < settings.config.tradeQuantity {
        return Done(Declined(InsufficientDepth));
      }
      var penalty := settings.latency.Penalty(buy.cost, p.buyVenue, p.sellVenue);
      var costing :- CostOf(buy.cost, sell.cost, TakerBps(settings.fees, p.buyVenue),
                            TakerBps(settings.fees, p.sellVenue), settings.config.slippageBps, penalty);
      if costing.net <= settings.config.minProfit {
        return Done(Declined(BelowMinProfit));
      }
      var edge :- EdgeBps(costing.net, buy.cost);
      if edge < settings.config.minEdgeBps {
        return Done(Declined(BelowMinEdge));
      }
      if buy.vwap >= sell.vwap {
        return Done(Declined(NonPositiveSpread));
      }
      counter := counter + 1;
      r := Done(Found(Opp(counter, p.symbol, p.buyVenue, p.sellVenue, qty, buy.vwap, sell.vwap, costing, edge,
                          buyAge, sellAge, p.now)));
    }
  }

  // What pricing means.

  lemma QuotientNested(a: int, b: nat, c: nat)
    requires b > 0 && c > 0
    ensures b * c > 0
    ensures Quotient(Quotient(a, b), c) == Quotient(a, b * c)
  {
    var m, q := Magnitude(a), Magnitude(a) / b;
    NestedFloor(m, b, c);
    FloorAtLeast(m, b, 0);
    FloorAtLeast(q, c, 0);
    assert Magnitude(b) == b && Magnitude(c) == c && Magnitude(b * c) == b * c;
    assert Quotient(a, b) == if a < 0 then 0 - q else q;
    assert Magnitude(Quotient(a, b)) == q;
    assert q == 0 ==> q / c == 0;
  }

  lemma FloorCancel(m: nat, k: nat, c: nat)
    requires k > 0 && c > 0
    ensures k * c > 0 && m * k / (k * c) == m / c
  {
    FloorAtLeast(m * k, k, m);
    FloorAtMost(m * k, k, m);
    NestedFloor(m * k, k, c);
  }

  lemma MagnitudeTimes(a: int, k: nat)
    ensures Magnitude(a * k) == Magnitude(a) * k
    ensures k > 0 ==> (a * k < 0 <==> a < 0)
  {
    if a < 0 {
      MulMonotone(a, -1, k);
      assert a * k == -(Magnitude(a) * k);
    }
  }

  lemma QuotientCancel(a: int, k: nat, c: nat)
    requires k > 0 && c > 0
    ensures k * c > 0
    ensures Quotient(a * k, k * c) == Quotient(a, c)
  {
    FloorCancel(Magnitude(a), k, c);
    MagnitudeTimes(a, k);
  }

  /** Despite two truncating divisions, the edge is net*10000/buyCost truncated once. */
  lemma EdgeTruncatesOnce(net: Fixed, buyCost: Fixed)
    requires buyCost > 0 && net != MIN_INT64 && EdgeBps(net, buyCost).Done?
    ensures EdgeBps(net, buyCost).value == Quotient(net * 10_000, buyCost)
  {
    var scaled: Fixed := net * 10_000;
    assert MulInt(net, 10_000) == Done(scaled);
    assert Div(scaled, buyCost).value == Quotient(scaled * SCALE, buyCost) by {
      DivIsQuotient(scaled, buyCost);
    }
    QuotientNested(scaled * SCALE, buyCost, SCALE);
    QuotientCancel(scaled, SCALE, buyCost);
  }

  lemma DivIsQuotient(a: Fixed, c: Fixed)
    requires c > 0 && Div(a, c).Done?
    ensures Div(a, c).value == Quotient(a * SCALE, c)
  {
    if a < 0 {
      assert a * SCALE == -(Magnitude(a) * SCALE);
    }
  }

  /** The components of a costing, for rates of any sign. */
  lemma CostingMeaning(buyCost: Fixed, proceeds: Fixed, buyBps: Fixed, sellBps: Fixed, slippageBps: Fixed,
                       penalty: Checked<Fixed>)
    requires buyCost != MIN_INT64
    requires CostOf(buyCost, proceeds, buyBps, sellBps, slippageBps, penalty).Done?
    ensures var c := CostOf(buyCost, proceeds, buyBps, sellBps, slippageBps, penalty).value;
            && c.gross == proceeds - buyCost
            && c.fees == Quotient(buyCost * buyBps, 10_000) + Quotient(proceeds * sellBps, 10_000)
            && c.slippage == Quotient(buyCost * slippageBps, 10_000)
            && penalty == Done(c.latency)
            && (c.fees != MIN_INT64 && c.latency != MIN_INT64 ==> c.net == c.gross - c.fees - c.slippage - c.latency)
  {
    hide MulBps, Quotient;
    BpsIsQuotient(buyCost, buyBps);
    BpsIsQuotient(proceeds, sellBps);
    BpsIsQuotient(buyCost, slippageBps);
  }

  /** With nonnegative costs and fee rates, fees are floors. */
  lemma NonnegCosting(buyCost: Fixed, proceeds: Fixed, buyBps: Fixed, sellBps: Fixed, slippageBps: Fixed,
                      penalty: Checked<Fixed>)
    requires buyCost >= 0 && proceeds >= 0 && buyBps >= 0 && sellBps >= 0
    requires penalty.Done? ==> penalty.value != MIN_INT64
    requires CostOf(buyCost, proceeds, buyBps, sellBps, slippageBps, penalty).Done?
    ensures var c := CostOf(buyCost, proceeds, buyBps, sellBps, slippageBps, penalty).value;
            && buyCost * buyBps / 10_000 <= MAX_INT64 && proceeds * sellBps / 10_000 <= MAX_INT64
            && c.fees == buyCost * buyBps / 10_000 + proceeds * sellBps / 10_000
            && c.net == c.gross - c.fees - c.slippage - c.latency
  {
    BpsNonneg(buyCost, buyBps);
    BpsNonneg(proceeds, sellBps);
    CostingMeaning(buyCost, proceeds, buyBps, sellBps, slippageBps, penalty);
  }

  lemma PenaltyIsNotMin(m: LatencyModel, notional: Fixed, buy: Venue, sell: Venue)
    ensures var r := m.Penalty(notional, buy, sell); r.Done? ==> r.value != MIN_INT64
  {
    var ms := Quotient(m.TotalUS(buy, sell), 1000);
    if m.penaltyBpsPerMs > 0 && ms > 0 {
      var perMs := MulBps(notional, m.penaltyBpsPerMs);
      if perMs.Done? {
        assert perMs.value != MIN_INT64;
      }
    }
  }

  /** The two wrapping sums give the latency that was meant exactly when that is an int64. */
  lemma TotalUSExactIff(m: LatencyModel, buy: Venue, sell: Venue)
    ensures var us := m.decisionUS + m.OutboundUS(buy) + m.OutboundUS(sell);
            m.TotalUS(buy, sell) == us <==> InRange(us)
  {
    hide DecimalMachine.Wrap;
    var first := m.decisionUS + m.OutboundUS(buy);
    WrapTwice(first, m.OutboundUS(sell));
    WrapExactIff(first + m.OutboundUS(sell));
  }

  lemma WrapExactIff(x: int)
    ensures DecimalMachine.Wrap(x) == x <==> InRange(x)
  {
  }

  lemma WrapTwice(x: int, y: Fixed)
    requires 2 * MIN_INT64 <= x <= 2 * MAX_INT64
    ensures DecimalMachine.Wrap(DecimalMachine.Wrap(x) + y) == DecimalMachine.Wrap(x + y)
  {
  }

  /**
    What latency costs a trade: the rate per millisecond, truncated, times the whole milliseconds;
    nothing where either is not positive.
   */
  function LatencyCost(m: LatencyModel, notional: Fixed, buy: Venue, sell: Venue): int {
    var ms := Quotient(m.TotalUS(buy, sell), 1000);
    if m.penaltyBpsPerMs > 0 && ms > 0 then Quotient(notional * m.penaltyBpsPerMs, 10_000) * ms else 0
  }

  /** A penalty that is not a panic is what latency costs. */
  lemma PenaltyMeaning(m: LatencyModel, notional: Fixed, buy: Venue, sell: Venue)
    ensures var r := m.Penalty(notional, buy, sell); r.Done? ==> r.value == LatencyCost(m, notional, buy, sell)
  {
    var ms := Quotient(m.TotalUS(buy, sell), 1000);
    if m.penaltyBpsPerMs > 0 && ms > 0 {
      hide MulInt, MulBps;
      var perMs := MulBps(notional, m.penaltyBpsPerMs);
      BpsIsQuotient(notional, m.penaltyBpsPerMs);
      if perMs.Done? {
        TimesExact(perMs.value, ms);
        assert m.Penalty(notional, buy, sell) == MulInt(perMs.value, ms);
      }
    }
  }

  lemma BpsIsQuotient(a: Fixed, bps: Fixed)
    ensures MulBps(a, bps).Done? ==> MulBps(a, bps).value == Quotient(a * bps, 10_000) != MIN_INT64
  {
  }

  lemma TimesExact(f: Fixed, n: Fixed)
    requires f != MIN_INT64
    ensures MulInt(f, n).Done? ==> MulInt(f, n).value == f * n
  {
  }
}
