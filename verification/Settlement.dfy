/** Executing an opportunity and settling it: what the legs come to, and what can be refused. */
module Settlement {
  import opened Outcomes
  import opened Decimal
  import opened Domain
  import opened BookSpec
  import opened Walk
  import opened Averages
  import opened Orders
  import opened Execution
  import opened FillValues
  import opened ModestFills
  import opened PricedProfit
  import opened Portfolio
  import opened LedgerTheory
  import opened Markets
  import opened EngineSpec
  import opened Conservation
  import O = Opportunity
  import R = Risk

  /** All views hold positive levels in order. */
  predicate GoodViews(vs: Views) {
    forall k :: k in vs ==> GoodView(vs[k])
  }

  /** Moreover their prices are those of a regime. */
  predicate ViewsIn(g: Regime, vs: Views) {
    GoodViews(vs) && forall k :: k in vs ==> PricesIn(g, vs[k].bids) && PricesIn(g, vs[k].asks)
  }

  /** The trade quantity is positive and all taker rates are those of the regime. */
  predicate SettingsIn(g: Regime, s: O.Settings) {
    var q := s.config.tradeQuantity;
    q > 0 && RateIn(g, q, 0) && forall v :: v in s.fees ==> RateIn(g, q, s.fees[v])
  }

  /** All views hold positive levels in order, at nonnegative prices. */
  predicate SoundViews(vs: Views) {
    forall k :: k in vs ==> GoodView(vs[k]) && NonnegPrices(vs[k].bids) && NonnegPrices(vs[k].asks)
  }

  /** Quantities are positive and taker rates are not negative. */
  predicate SoundSettings(s: O.Settings) {
    s.config.tradeQuantity > 0 && forall v :: v in s.fees ==> s.fees[v] >= 0
  }

  /** `opp` was priced from the views `vs`. */
  predicate PricedOn(opp: O.Opp, s: O.Settings, vs: Views) {
    && opp.id > 0 && opp.buyVenue != opp.sellVenue
    && Emitted(PairOf(vs, opp.symbol, (opp.buyVenue, opp.sellVenue), opp.detectedAt), s, opp.id - 1, opp)
  }

  function ThePair(opp: O.Opp, vs: Views): O.Pair {
    PairOf(vs, opp.symbol, (opp.buyVenue, opp.sellVenue), opp.detectedAt)
  }

  lemma SoundPair(opp: O.Opp, s: O.Settings, vs: Views)
    requires SoundViews(vs) && SoundSettings(s)
    ensures GoodPair(ThePair(opp, vs)) && NonnegPair(ThePair(opp, vs), s)
  {
  }

  lemma RegimePair(opp: O.Opp, s: O.Settings, vs: Views, g: Regime)
    requires ViewsIn(g, vs) && SettingsIn(g, s)
    ensures var p := ThePair(opp, vs);
            && GoodPair(p) && (g == NonnegPrice ==> NonnegSides(p))
            && (p.buyView.Some? ==> PricesIn(g, p.buyView.value.asks))
            && (p.sellView.Some? ==> PricesIn(g, p.sellView.value.bids))
    ensures RateIn(g, s.config.tradeQuantity, TakerBps(s.fees, opp.buyVenue))
    ensures RateIn(g, s.config.tradeQuantity, TakerBps(s.fees, opp.sellVenue))
  {
    hide RateIn, PriceIn;
    if g == NonnegPrice {
      NonnegViews(ThePair(opp, vs));
    }
  }

  lemma NonnegViews(p: O.Pair)
    requires p.buyView.Some? ==> PricesIn(NonnegPrice, p.buyView.value.asks)
    requires p.sellView.Some? ==> PricesIn(NonnegPrice, p.sellView.value.bids)
    ensures NonnegSides(p)
  {
  }

  /** The orders submitted for an opportunity nobody has submitted before. */
  lemma FreshOrders(sim: SimState, o: O.Opp)
    requires ForOpportunity(o.id, Buy) !in sim.orders && ForOpportunity(o.id, Sell) !in sim.orders
    requires o.quantity > 0
    ensures var t := SubmitBoth(sim, o); var b, s := ForOpportunity(o.id, Buy), ForOpportunity(o.id, Sell);
            && b in t.orders && s in t.orders
            && t.orders == sim.orders[b := t.orders[b]][s := t.orders[s]]
            && LegsOf(o, t.orders[b], t.orders[s])
            && t.orders[b].symbol == o.symbol && t.orders[s].symbol == o.symbol
            && t.orders[b].clientOrderID == b && t.orders[s].clientOrderID == s
  {
  }

  /** Both orders filled in full. */
  predicate FilledLegs(o: O.Opp, run: ArbRun) {
    && run.buyOrder.state == Filled && run.sellOrder.state == Filled
    && run.buyOrder.clientOrderID == ForOpportunity(o.id, Buy)
    && run.sellOrder.clientOrderID == ForOpportunity(o.id, Sell)
    && run.result.buy.filledQty == o.quantity && run.result.sell.filledQty == o.quantity && o.quantity > 0
    && run.result.residual == 0
  }

  /** And at nonnegative prices the profit is proceeds less cost, and the buy is within what was priced. */
  predicate FullLegs(o: O.Opp, run: ArbRun) {
    && FilledLegs(o, run)
    && run.result.buy.vwap >= 0 && run.result.sell.vwap >= 0
    && run.result.realized == Proceeds(run.result.sell.vwap, o.quantity, run.result.sell.fee)
                              - BuyCost(run.result.buy.vwap, o.quantity, run.result.buy.fee)
    && 0 <= Notional(run.result.buy.vwap, o.quantity) <= Notional(o.buyVWAP, o.quantity)
    && o.buyVWAP >= 0
  }

  predicate Fresh(c: Core, o: O.Opp) {
    ForOpportunity(o.id, Buy) !in c.sim.orders && ForOpportunity(o.id, Sell) !in c.sim.orders
  }

  /** No call changes an order's client id. */
  lemma OrderKeepsItsID(o: OrderData, view: Option<View>, bps: Fixed)
    requires FillAgainst(o, view, bps).Done?
    ensures FillAgainst(o, view, bps).value.order.clientOrderID == o.clientOrderID
  {
    if view.Some? && view.value.state.ready {
      var left := Sub(o.quantity, o.filledQuantity).value;
      LevelsKeepID(o, SideLevels(o.side, view.value), Tally(left, 0, 0, 0, []), bps);
      hide FillLevels;
    }
  }

  lemma {:induction false} LevelsKeepID(o: OrderData, s: seq<Level>, t: Tally, bps: Fixed)
    ensures FillLevels(o, s, t, bps).Done? ==> FillLevels(o, s, t, bps).value.order.clientOrderID == o.clientOrderID
    decreases |s|
  {
    if s != [] && t.remaining != 0 && !Beyond(o, s[0].price) && FillLevel(o, s[0], t, bps).Done? {
      LevelKeepsID(o, s[0], t, bps);
      hide FillLevel;
      var r := FillLevel(o, s[0], t, bps).value;
      LevelsKeepID(r.order, s[1..], r.tally, bps);
    }
  }

  lemma LevelKeepsID(o: OrderData, l: Level, t: Tally, bps: Fixed)
    requires FillLevel(o, l, t, bps).Done?
    ensures FillLevel(o, l, t, bps).value.order.clientOrderID == o.clientOrderID
  {
    hide Mul, MulBps;
  }

  /** On the views it was priced on, at prices of any sign, an opportunity fills in full. */
  lemma LegsAreFilled(cfg: EngineConfig, c: Core, o: O.Opp, vs: Views)
    requires GoodViews(vs) && cfg.settings.config.tradeQuantity > 0 && PricedOn(o, cfg.settings, vs) && Fresh(c, o)
    requires Traded(cfg, c.sim, o, Same(vs)).Done?
    ensures FilledLegs(o, Traded(cfg, c.sim, o, Same(vs)).value)
  {
    hide FillAgainst, Emitted, SubmitBoth, GoodPair, GoodViews;
    var p, s, k := ThePair(o, vs), cfg.settings, o.id - 1;
    assert PricedOn(o, s, vs);
    GoodThePair(o, vs);
    EmittedMeaning(p, s, k, o);
    FreshOrders(c.sim, o);
    var sim := SubmitBoth(c.sim, o);
    var buy, sell := sim.orders[ForOpportunity(o.id, Buy)], sim.orders[ForOpportunity(o.id, Sell)];
    var buyBps, sellBps := TakerBps(s.fees, o.buyVenue), TakerBps(s.fees, o.sellVenue);
    BothLegsFill(p, s, k, o, buy, sell, buyBps, sellBps);
    GoodThePairViews(p);
    OrderKeepsItsID(buy, p.buyView, buyBps);
    OrderKeepsItsID(sell, p.sellView, sellBps);
  }

  lemma GoodThePair(o: O.Opp, vs: Views)
    requires GoodViews(vs)
    ensures GoodPair(ThePair(o, vs))
  {
  }

  lemma GoodThePairViews(p: O.Pair)
    requires GoodPair(p)
    ensures (p.buyView.Some? ==> GoodView(p.buyView.value)) && (p.sellView.Some? ==> GoodView(p.sellView.value))
  {
  }

  /** The two legs of an attempt, whatever the views that each of them reads. */
  lemma AttemptLegs(cfg: EngineConfig, c: Core, o: O.Opp, seen: Reads) returns (buy: OrderData, sell: OrderData)
    requires Fresh(c, o) && o.quantity > 0 && Traded(cfg, c.sim, o, seen).Done?
    ensures LegsOf(o, buy, sell)
    ensures var b := FillAgainst(buy, ViewAt(seen.buyLeg, o.buyVenue, o.symbol),
                                 TakerBps(cfg.settings.fees, o.buyVenue));
            var a := FillAgainst(sell, ViewAt(seen.sellLeg, o.sellVenue, o.symbol),
                                 TakerBps(cfg.settings.fees, o.sellVenue));
            && b.Done? && a.Done?
            && Combine(b.value.leg, a.value.leg) == Done(Traded(cfg, c.sim, o, seen).value.result)
  {
    hide FillAgainst, SubmitBoth, Combine;
    FreshOrders(c.sim, o);
    var sim := SubmitBoth(c.sim, o);
    buy, sell := sim.orders[ForOpportunity(o.id, Buy)], sim.orders[ForOpportunity(o.id, Sell)];
  }

  /** Legs whose amounts stay away from the ends of an int64 are exact. */
  lemma ModestIsExact(res: ArbResult)
    requires ModestLeg(res.buy) && ModestLeg(res.sell)
    ensures Exact(res)
  {
    hide Notional;
  }

  lemma CombineKeepsLegs(buy: Leg, sell: Leg)
    requires Combine(buy, sell).Done?
    ensures Combine(buy, sell).value.buy == buy && Combine(buy, sell).value.sell == sell
  {
    hide Mul;
  }

  /** The views that the legs of an attempt read. */
  predicate LegViewsIn(g: Regime, o: O.Opp, seen: Reads) {
    var b, a := ViewAt(seen.buyLeg, o.buyVenue, o.symbol), ViewAt(seen.sellLeg, o.sellVenue, o.symbol);
    && (b.Some? ==> GoodView(b.value) && PricesIn(g, b.value.asks))
    && (a.Some? ==> GoodView(a.value) && PricesIn(g, a.value.bids))
  }

  /** The rates of both legs of an opportunity. */
  predicate LegRatesIn(g: Regime, o: O.Opp, s: O.Settings) {
    RateIn(g, o.quantity, TakerBps(s.fees, o.buyVenue)) && RateIn(g, o.quantity, TakerBps(s.fees, o.sellVenue))
  }

  /** Whatever the views, live or not, an execution within a regime is exact. */
  lemma LegsAreExact(cfg: EngineConfig, c: Core, o: O.Opp, seen: Reads, g: Regime)
    requires Fresh(c, o) && o.quantity > 0 && Traded(cfg, c.sim, o, seen).Done?
    requires g != AnyPrice && LegViewsIn(g, o, seen) && LegRatesIn(g, o, cfg.settings)
    ensures Exact(Traded(cfg, c.sim, o, seen).value.result)
  {
    hide FillAgainst, Combine, Traded, RateIn, GoodView, PriceIn, ModestLeg, Exact, ViewAt, TakerBps;
    var buy, sell := AttemptLegs(cfg, c, o, seen);
    var bv, sv := ViewAt(seen.buyLeg, o.buyVenue, o.symbol), ViewAt(seen.sellLeg, o.sellVenue, o.symbol);
    var bb, sb := TakerBps(cfg.settings.fees, o.buyVenue), TakerBps(cfg.settings.fees, o.sellVenue);
    LegIsModest(buy, bv, bb, g);
    LegIsModest(sell, sv, sb, g);
    CombineKeepsLegs(FillAgainst(buy, bv, bb).value.leg, FillAgainst(sell, sv, sb).value.leg);
    ModestIsExact(Traded(cfg, c.sim, o, seen).value.result);
  }

  /** Whatever the views, each leg fills between nothing and the quantity. */
  lemma LegsFillWithin(cfg: EngineConfig, c: Core, o: O.Opp, seen: Reads)
    requires Fresh(c, o) && o.quantity > 0 && Traded(cfg, c.sim, o, seen).Done? && LegViewsIn(AnyPrice, o, seen)
    ensures var res := Traded(cfg, c.sim, o, seen).value.result;
            && 0 <= res.buy.filledQty <= o.quantity && 0 <= res.sell.filledQty <= o.quantity
            && Combine(res.buy, res.sell) == Done(res)
  {
    hide FillAgainst, Combine, Traded, GoodView, ViewAt, TakerBps;
    var buy, sell := AttemptLegs(cfg, c, o, seen);
    var bv, sv := ViewAt(seen.buyLeg, o.buyVenue, o.symbol), ViewAt(seen.sellLeg, o.sellVenue, o.symbol);
    var bb, sb := TakerBps(cfg.settings.fees, o.buyVenue), TakerBps(cfg.settings.fees, o.sellVenue);
    LegFills(buy, bv, bb);
    LegFills(sell, sv, sb);
    CombineKeepsLegs(FillAgainst(buy, bv, bb).value.leg, FillAgainst(sell, sv, sb).value.leg);
  }

  /** At nonnegative prices, and rebates of at most half a notional, the legs are those that were priced. */
  lemma LegsAreFull(cfg: EngineConfig, c: Core, o: O.Opp, vs: Views)
    requires ViewsIn(NonnegPrice, vs) && SettingsIn(NonnegPrice, cfg.settings)
    requires PricedOn(o, cfg.settings, vs) && Fresh(c, o) && Traded(cfg, c.sim, o, Same(vs)).Done?
    ensures FullLegs(o, Traded(cfg, c.sim, o, Same(vs)).value)
  {
    hide FillAgainst, Emitted, Traded, GoodPair, Combine, Mul, ViewsIn, GoodViews, RateIn, Notional, NonnegSides;
    var p, s, k := ThePair(o, vs), cfg.settings, o.id - 1;
    assert PricedOn(o, s, vs);
    RegimePair(o, s, vs, NonnegPrice);
    NonnegRegime(o, s, vs);
    EmittedMeaning(p, s, k, o);
    assert GoodViews(vs) by {
      GoodOf(vs, NonnegPrice);
    }
    LegsAreFilled(cfg, c, o, vs);
    var buy, sell := AttemptLegs(cfg, c, o, Same(vs));
    var buyBps, sellBps := TakerBps(s.fees, o.buyVenue), TakerBps(s.fees, o.sellVenue);
    BuyWithinPriced(p, s, k, o, buy, buyBps);
    GoodThePairViews(p);
    NonnegLegIsModest(buy, p.buyView.value, buyBps);
    NonnegLegIsModest(sell, p.sellView.value, sellBps);
    var b, a := FillAgainst(buy, p.buyView, buyBps).value, FillAgainst(sell, p.sellView, sellBps).value;
    CombineKeepsLegs(b.leg, a.leg);
    CombineAmounts(b.leg, a.leg);
    NotionalOfNonneg(b.leg.vwap, o.quantity);
    NotionalOfNonneg(o.buyVWAP, o.quantity);
  }

  lemma GoodOf(vs: Views, g: Regime)
    requires ViewsIn(g, vs)
    ensures GoodViews(vs)
  {
  }

  lemma NonnegRegime(o: O.Opp, s: O.Settings, vs: Views)
    requires RateIn(NonnegPrice, s.config.tradeQuantity, TakerBps(s.fees, o.buyVenue))
    requires RateIn(NonnegPrice, s.config.tradeQuantity, TakerBps(s.fees, o.sellVenue)) && NonnegSides(ThePair(o, vs))
    ensures TakerBps(s.fees, o.buyVenue) >= -5_000 && TakerBps(s.fees, o.sellVenue) >= -5_000
    ensures var p := ThePair(o, vs);
            && (p.buyView.Some? ==> NonnegPrices(p.buyView.value.asks))
            && (p.sellView.Some? ==> NonnegPrices(p.sellView.value.bids))
  {
  }

  // Settling.

  predicate Stocked(l: LedgerState, o: O.Opp) {
    Mul(o.buyVWAP, o.quantity).Done? && HasInventory(l, o, Mul(o.buyVWAP, o.quantity).value)
  }

  /** Whether the quote balance covers the buy, fee included. */
  predicate CoversBuy(l: LedgerState, o: O.Opp, leg: Leg) {
    Available(l, (o.buyVenue, QuoteOf(o.symbol))) >= BuyCost(leg.vwap, leg.filledQty, leg.fee)
  }

  /**
    After the inventory check the buy is refused exactly when the quote does not cover its
    fee too, and then it is short by at most that fee.
   */
  lemma BuySettlement(b: Books, o: O.Opp, run: ArbRun)
    requires FullLegs(o, run) && Stocked(b.ledger, o) && SettleBuy(b, o, run.result.buy).Done?
    ensures var b' := SettleBuy(b, o, run.result.buy).value; var leg := run.result.buy;
            var ok := CoversBuy(b.ledger, o, leg); var cost := BuyCost(leg.vwap, leg.filledQty, leg.fee);
            && b'.refusals == b.refusals + (if ok then [] else [RefusedBuy(o, leg)])
            && (!ok ==> 0 < cost - Available(b.ledger, (o.buyVenue, QuoteOf(o.symbol))) <= leg.fee)
  {
    hide BuyApplied, Notional, Mul;
    var leg := run.result.buy;
    BuyEffect(b.ledger, o.buyVenue, o.symbol, BaseOf(o.symbol), QuoteOf(o.symbol), leg.vwap, leg.filledQty, leg.fee);
    MulIsQuotient(o.buyVWAP, o.quantity);
  }

  /**
    On the symbol base-quote, a leg that filled is settled in those two assets: a buy pays quote and
    brings base at the buy venue, a sale pays base and brings quote at the sell venue, each exactly
    when what it pays is there.
   */
  lemma JoinedSymbolSettles(b: Books, o: O.Opp, leg: Leg, base: string, quote: string)
    requires '-' !in base && o.symbol == base + "-" + quote && leg.filledQty > 0
    ensures SettleBuy(b, o, leg).Done? ==>
              var l, l' := b.ledger, SettleBuy(b, o, leg).value.ledger;
              var cost, qty := BuyCost(leg.vwap, leg.filledQty, leg.fee), leg.filledQty;
              if Available(l, (o.buyVenue, quote)) >= cost
              then Exchanged(l, l', (o.buyVenue, quote), Minus(cost), (o.buyVenue, base), qty,
                             (o.buyVenue, o.symbol), qty)
              else Untouched(l, l')
    ensures SettleSell(b, o, leg).Done? ==>
              var l, l' := b.ledger, SettleSell(b, o, leg).value.ledger;
              var got, qty := Proceeds(leg.vwap, leg.filledQty, leg.fee), leg.filledQty;
              if Available(l, (o.sellVenue, base)) >= qty
              then Exchanged(l, l', (o.sellVenue, base), -qty, (o.sellVenue, quote), got, (o.sellVenue, o.symbol), -qty)
              else Untouched(l, l')
  {
    hide BuyApplied, SellApplied, Notional, BaseOf, QuoteOf, Exchanged, Untouched;
    JoinedAssets(base, quote);
    if SettleBuy(b, o, leg).Done? {
      BuyEffect(b.ledger, o.buyVenue, o.symbol, base, quote, leg.vwap, leg.filledQty, leg.fee);
    }
    if SettleSell(b, o, leg).Done? {
      SellEffect(b.ledger, o.sellVenue, o.symbol, base, quote, leg.vwap, leg.filledQty, leg.fee);
    }
  }

  /** And the inventory check asks for quote at the one venue and base at the other. */
  lemma JoinedSymbolStocked(l: LedgerState, o: O.Opp, buyNotional: Fixed, base: string, quote: string)
    requires '-' !in base && o.symbol == base + "-" + quote
    ensures HasInventory(l, o, buyNotional)
            <==> Available(l, (o.buyVenue, quote)) >= buyNotional && Available(l, (o.sellVenue, base)) >= o.quantity
  {
    hide BaseOf, QuoteOf;
    JoinedAssets(base, quote);
  }

  /** A buy leaves the base that another venue holds as it is. */
  lemma BuyLeavesOtherVenues(b: Books, o: O.Opp, leg: Leg)
    requires o.buyVenue != o.sellVenue && SettleBuy(b, o, leg).Done?
    ensures Available(SettleBuy(b, o, leg).value.ledger, (o.sellVenue, BaseOf(o.symbol)))
            == Available(b.ledger, (o.sellVenue, BaseOf(o.symbol)))
    ensures var b' := SettleBuy(b, o, leg).value;
            b'.refusals == b.refusals || b'.refusals == b.refusals + [RefusedBuy(o, leg)]
  {
    hide BuyApplied, Notional, Available, BaseOf, QuoteOf;
    if leg.filledQty > 0 {
      BuyEffect(b.ledger, o.buyVenue, o.symbol, BaseOf(o.symbol), QuoteOf(o.symbol), leg.vwap, leg.filledQty, leg.fee);
    }
  }

  /** A sale of no more than the base balance is not refused. */
  lemma SaleSettles(b: Books, o: O.Opp, leg: Leg)
    requires leg.filledQty <= Available(b.ledger, (o.sellVenue, BaseOf(o.symbol))) && SettleSell(b, o, leg).Done?
    ensures SettleSell(b, o, leg).value.refusals == b.refusals
  {
    hide SellApplied, Notional, Available, BaseOf, QuoteOf;
    if leg.filledQty > 0 {
      SellEffect(b.ledger, o.sellVenue, o.symbol, BaseOf(o.symbol), QuoteOf(o.symbol),
                 leg.vwap, leg.filledQty, leg.fee);
    }
  }

  lemma ResultRefuses(b: Books, o: O.Opp, res: ArbResult)
    requires o.buyVenue != o.sellVenue && SettleResult(b, o, res).Done?
    requires res.sell.filledQty <= Available(b.ledger, (o.sellVenue, BaseOf(o.symbol)))
    ensures var rs := SettleResult(b, o, res).value.refusals;
            rs == b.refusals || rs == b.refusals + [RefusedBuy(o, res.buy)]
    ensures SettleResult(b, o, res).value.refusals == SettleBuy(b, o, res.buy).value.refusals
  {
    hide SettleBuy, SettleSell;
    BuyLeavesOtherVenues(b, o, res.buy);
    SaleSettles(SettleBuy(b, o, res.buy).value, o, res.sell);
  }

  /**
    When maybeExecute passes its checks, the sale cannot be refused: whatever views the legs read,
    and however little they fill, an attempt refuses nothing or its buy alone.
   */
  lemma SaleIsNeverRefused(cfg: EngineConfig, c: Core, o: O.Opp, now: int, seen: Reads, e: R.ExposureSums)
    requires Fresh(c, o) && o.quantity > 0 && o.buyVenue != o.sellVenue && LegViewsIn(AnyPrice, o, seen)
    requires MaybeExecuteGiven(cfg, c, o, now, seen, e).Done?
    ensures var d := MaybeExecuteGiven(cfg, c, o, now, seen, e).value;
            || d.refusals == c.refusals
            || (Traded(cfg, c.sim, o, seen).Done?
                && d.refusals == c.refusals + [RefusedBuy(o, Traded(cfg, c.sim, o, seen).value.result.buy)])
  {
    hide Traded, SettleResult, R.ReasonsGiven, RequestFor, LegViewsIn, RiskAfter, OrdersWorked, SubmitBoth;
    if PassesGiven(cfg, c, o, now, seen, e) == Done(true) {
      LegsFillWithin(cfg, c, o, seen);
      ResultRefuses(BooksOf(c), o, Traded(cfg, c.sim, o, seen).value.result);
    }
  }

  // What a balance must hold for the buy not to be refused, known before the trade.

  /** The one-shot fee of the buy; a rebate counts nothing, since its levels may round it away. */
  function BuyFee(o: O.Opp, s: O.Settings, asks: seq<Level>): nat
    requires Priced(asks) && o.quantity >= 0
  {
    var fee := FeeOn(TruncCost(asks, o.quantity), TakerBps(s.fees, o.buyVenue));
    if fee < 0 then 0 else fee
  }

  /** The fee of a leg is at most the one-shot fee, and not positive at a negative rate. */
  lemma LegFeeAtMost(leg: Leg, fills: seq<FillRecord>, s: seq<Level>, q: nat, bps: Fixed)
    requires Priced(s) && LegOf(leg, fills, s, q, bps)
    ensures leg.fee <= FeeOn(TruncCost(s, q), bps) || leg.fee <= 0
  {
    hide AverageOf, QtyOf, CostOf, LotsOf, TruncCost, FilledBy, Touched;
    FeeGap(leg.notional, Unsigned(leg.fee, bps), |fills|, Magnitude(bps));
  }

  lemma LegWithinCover(cfg: EngineConfig, c: Core, o: O.Opp, vs: Views, asks: seq<Level>)
    requires ViewsIn(NonnegPrice, vs) && SettingsIn(NonnegPrice, cfg.settings)
    requires PricedOn(o, cfg.settings, vs) && Fresh(c, o)
    requires Traded(cfg, c.sim, o, Same(vs)).Done? && Priced(asks) && o.quantity > 0
    requires ThePair(o, vs).buyView.Some? && ThePair(o, vs).buyView.value.asks == asks
    ensures Traded(cfg, c.sim, o, Same(vs)).value.result.buy.fee <= BuyFee(o, cfg.settings, asks)
  {
    hide FillAgainst, Emitted, Traded, Combine, GoodPair, GoodView, ViewsIn, RateIn, NonnegSides;
    hide FeeOn, TruncCost, LegOf;
    var p, s := ThePair(o, vs), cfg.settings;
    assert PricedOn(o, s, vs);
    RegimePair(o, s, vs, NonnegPrice);
    NonnegRegime(o, s, vs);
    GoodThePairViews(p);
    EmittedMeaning(p, s, o.id - 1, o);
    var buy, sell := AttemptLegs(cfg, c, o, Same(vs));
    BuyLegFee(buy, p.buyView.value, TakerBps(s.fees, o.buyVenue));
    CombineKeepsLegs(FillAgainst(buy, p.buyView, TakerBps(s.fees, o.buyVenue)).value.leg,
                     FillAgainst(sell, p.sellView, TakerBps(s.fees, o.sellVenue)).value.leg);
  }

  lemma BuyLegFee(buy: OrderData, v: View, bps: Fixed)
    requires FreshMarket(buy) && buy.side == Buy && GoodView(v) && v.state.ready && Priced(v.asks)
    requires FillAgainst(buy, Some(v), bps).Done?
    ensures var fee := FillAgainst(buy, Some(v), bps).value.leg.fee;
            fee <= FeeOn(TruncCost(v.asks, buy.quantity), bps) || fee <= 0
  {
    hide FillAgainst, GoodView, FeeOn, TruncCost, LegOf;
    MarketOrderFill(buy, v, bps);
    var r := FillAgainst(buy, Some(v), bps).value;
    LegFeeAtMost(r.leg, r.fills, v.asks, buy.quantity, bps);
  }

  /**
    The pre-trade form: where the quote balance covers the priced notional and the one-shot buy
    fee, an attempt settles both legs or changes nothing; nothing is refused.
   */
  lemma CoveredBuyIsNeverRefused(cfg: EngineConfig, c: Core, o: O.Opp, now: int, vs: Views, e: R.ExposureSums,
                                 asks: seq<Level>)
    requires ViewsIn(NonnegPrice, vs) && SettingsIn(NonnegPrice, cfg.settings)
    requires PricedOn(o, cfg.settings, vs) && Fresh(c, o)
    requires ViewAt(vs, o.buyVenue, o.symbol).Some? && ViewAt(vs, o.buyVenue, o.symbol).value.asks == asks
    requires o.quantity > 0 && Priced(asks) && Mul(o.buyVWAP, o.quantity).Done?
    requires Available(c.ledger, (o.buyVenue, QuoteOf(o.symbol)))
             >= Mul(o.buyVWAP, o.quantity).value + BuyFee(o, cfg.settings, asks)
    requires MaybeExecuteGiven(cfg, c, o, now, Same(vs), e).Done?
    ensures MaybeExecuteGiven(cfg, c, o, now, Same(vs), e).value.refusals == c.refusals
  {
    hide Traded, SettleBuy, SettleSell, BuyFee, ViewsIn, SettingsIn, Emitted, R.ReasonsGiven, RequestFor, Notional, Mul;
    if PassesGiven(cfg, c, o, now, Same(vs), e) == Done(true) {
      LegsAreFull(cfg, c, o, vs);
      LegWithinCover(cfg, c, o, vs, asks);
      var run, b := Traded(cfg, c.sim, o, Same(vs)).value, Books(c.ledger, c.refusals);
      MulIsQuotient(o.buyVWAP, o.quantity);
      BuySettlement(b, o, run);
      ResultRefuses(b, o, run.result);
    }
  }
}
