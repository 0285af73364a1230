/** The inventory check leaves out the buy's fee: a trade on which that shows. */
module OmittedFee {
  import opened Outcomes
  import opened Decimal
  import opened Domain
  import opened Walk
  import opened Averages
  import opened Markets
  import opened Orders
  import opened Execution
  import opened FillValues
  import opened Portfolio
  import opened EngineSpec
  import opened Settlement
  import opened PricedProfit
  import R = Risk
  import O = Opportunity

  const SYMBOL := "BTC-USDT"

  function ExampleViews(): Views {
    map[(Binance, SYMBOL) := ExampleView(SCALE / 2, SCALE), (OKX, SYMBOL) := ExampleView(3 * SCALE, 4 * SCALE)]
  }

  /** No limits at all. */
  function ExampleConfig(): EngineConfig {
    EngineConfig(R.Limits(0, 0, 0, 0, 0, 0, 0, 0, 0, false), ExampleSettings(), Parallel, [SYMBOL], [Binance, OKX])
  }

  /** Quote for just the priced notional on the one venue, base for the quantity on the other. */
  function ExampleLedger(): LedgerState {
    LedgerState(map[(Binance, "USDT") := SCALE, (OKX, "BTC") := SCALE], map[], 0)
  }

  lemma ExampleAssets()
    ensures BaseOf(SYMBOL) == "BTC" && QuoteOf(SYMBOL) == "USDT"
  {
    assert SYMBOL == "BTC" + "-" + "USDT";
    JoinedAssets("BTC", "USDT");
  }

  function ExampleCore(): Core {
    Core(R.RiskState(false, "", 0, 0), SimState(map[], 0, []), ExampleLedger(), 0, [])
  }

  lemma ExampleIsSound()
    ensures SoundViews(ExampleViews()) && SoundSettings(ExampleSettings())
  {
  }

  lemma ExampleIsPriced()
    ensures PricedOn(ExampleOpp(), ExampleSettings(), ExampleViews()) && Fresh(ExampleCore(), ExampleOpp())
  {
    hide O.EvaluatePair;
    ExampleIsEmitted();
    assert PairOf(ExampleViews(), SYMBOL, (Binance, OKX), 0) == ExamplePair();
  }

  // The checks pass.

  lemma ExampleMids()
    ensures MidOf(Some(ExampleView(SCALE / 2, SCALE))) == Done(Some(3 * SCALE / 4))
    ensures MidOf(Some(ExampleView(3 * SCALE, 4 * SCALE))) == Done(Some(7 * SCALE / 2))
  {
    assert Div(3 * SCALE / 2, 2 * SCALE) == Done(3 * SCALE / 4);
    assert Div(7 * SCALE, 2 * SCALE) == Done(7 * SCALE / 2);
  }

  lemma ExampleSums(r: R.Request)
    ensures R.ExactSums(ExampleLedger(), r) == R.ExposureSums(Done(0), Done(0), Done(0))
  {
    var l := ExampleLedger();
    assert VenueExposures(l, r.buyVenue) == map[] && VenueExposures(l, r.sellVenue) == map[] && Exposures(l) == map[];
  }

  /** Without limits and positions there is no reason against a trade on current views. */
  lemma ExampleHasNoReasons(r: R.Request, e: R.ExposureSums)
    requires r == RequestFor(ExampleOpp(), 0, Same(ExampleViews()))
    requires e == R.ExposureSums(Done(0), Done(0), Done(0))
    ensures R.ReasonsGiven(ExampleConfig().limits, ExampleCore().risk, r, 0, e) == Done([])
  {
    hide MidOf;
    ExampleMids();
    assert Mul(SCALE, SCALE) == Done(SCALE);
    assert Mul(0, 3 * SCALE / 4) == Done(0) && Mul(0, 7 * SCALE / 2) == Done(0);
    hide Mul;
    R.AllowedIff(ExampleConfig().limits, ExampleCore().risk, r, 0, e);
  }

  lemma ExampleIsStocked()
    ensures Stocked(ExampleLedger(), ExampleOpp())
  {
    hide BaseOf, QuoteOf;
    ExampleAssets();
    assert Mul(SCALE, SCALE) == Done(SCALE);
  }

  lemma ExamplePasses()
    ensures var seen := Same(ExampleViews());
            var e := ExactSums(ExampleCore(), ExampleOpp(), 0, seen);
            PassesGiven(ExampleConfig(), ExampleCore(), ExampleOpp(), 0, seen, e)
            == Done(true)
  {
    hide R.ReasonsGiven, R.ExactSums, RequestFor, HasInventory, ExampleViews;
    var r := RequestFor(ExampleOpp(), 0, Same(ExampleViews()));
    ExampleSums(r);
    ExampleHasNoReasons(r, R.ExactSums(ExampleLedger(), r));
    ExampleIsStocked();
  }

  // Both orders fill, one level each.

  /** A leg of one lot of 1 unit reports its price and its one fee. */
  lemma OneLotLeg(leg: Leg, fills: seq<FillRecord>, s: seq<Level>, price: Fixed, bps: Fixed, fee: Fixed)
    requires 0 < price <= 4 * SCALE && bps >= 0 && price * bps == fee * 10_000 && s == [Level(price, SCALE)]
    requires LegOf(leg, fills, s, SCALE, bps)
    ensures leg.vwap == price && leg.filledQty == SCALE && leg.fee == fee
  {
    hide LotsOf, AverageOf;
    var lots := LotsOf(fills);
    assert s[1..] == [];
    assert Touched(s, SCALE) == 1 && TruncCost(s, SCALE) == price && FilledBy(s, SCALE) == SCALE;
    AverageBounds(lots);
    assert lots[..0] == [];
    assert RunningQty(lots) == QtyOf(lots) == SCALE;
  }

  lemma ExampleFills(buy: OrderData, sell: OrderData)
    requires LegsOf(ExampleOpp(), buy, sell)
    ensures var r := FillAgainst(buy, ExamplePair().buyView, 10);
            r.Done? && r.value.leg.vwap == SCALE && r.value.leg.filledQty == SCALE && r.value.leg.fee == 100_000
    ensures var r := FillAgainst(sell, ExamplePair().sellView, 20);
            r.Done? && r.value.leg.vwap == 3 * SCALE && r.value.leg.filledQty == SCALE && r.value.leg.fee == 600_000
  {
    var p, s, o := ExamplePair(), ExampleSettings(), ExampleOpp();
    hide FillAgainst, Emitted, LegOf;
    ExampleIsEmitted();
    LegsAreWalks(p, s, 0, o, buy, sell);
    var b, a := FillAgainst(buy, p.buyView, 10).value, FillAgainst(sell, p.sellView, 20).value;
    OneLotLeg(b.leg, b.fills, p.buyView.value.asks, SCALE, 10, 100_000);
    OneLotLeg(a.leg, a.fills, p.sellView.value.bids, 3 * SCALE, 20, 600_000);
  }

  function ExampleRun(): Checked<ArbRun> {
    Traded(ExampleConfig(), ExampleCore().sim, ExampleOpp(), Same(ExampleViews()))
  }

  lemma ExampleLegs()
    ensures ExampleRun().Done?
    ensures var res := ExampleRun().value.result;
            && res.buy.vwap == SCALE && res.buy.filledQty == SCALE && res.buy.fee == 100_000
            && res.sell.vwap == 3 * SCALE && res.sell.filledQty == SCALE && res.sell.fee == 600_000
            && res.realized == 2 * SCALE - 700_000
  {
    hide FillAgainst, SubmitBoth, LegsOf;
    var o := ExampleOpp();
    FreshOrders(ExampleCore().sim, o);
    var sim := SubmitBoth(ExampleCore().sim, o);
    var buy, sell := sim.orders[ForOpportunity(1, Buy)], sim.orders[ForOpportunity(1, Sell)];
    assert buy.venue == Binance && sell.venue == OKX by {
      LegVenues(o, buy, sell);
    }
    ExampleFills(buy, sell);
    ExampleProfit(FillAgainst(buy, ExamplePair().buyView, 10).value.leg,
                  FillAgainst(sell, ExamplePair().sellView, 20).value.leg);
  }

  lemma LegVenues(o: O.Opp, buy: OrderData, sell: OrderData)
    requires LegsOf(o, buy, sell)
    ensures buy.venue == o.buyVenue && sell.venue == o.sellVenue
  {
  }

  lemma ExampleProfit(buy: Leg, sell: Leg)
    requires buy.vwap == SCALE && buy.filledQty == SCALE && buy.fee == 100_000
    requires sell.vwap == 3 * SCALE && sell.filledQty == SCALE && sell.fee == 600_000
    ensures Combine(buy, sell).Done? && Combine(buy, sell).value.realized == 2 * SCALE - 700_000
    ensures Combine(buy, sell).value.buy == buy && Combine(buy, sell).value.sell == sell
  {
    assert Mul(SCALE, SCALE) == Done(SCALE) && Mul(3 * SCALE, SCALE) == Done(3 * SCALE);
  }

  // Settlement: the buy is refused, the sale and the profit are booked.

  function ExampleRefusal(): Refusal {
    Refusal(false, Binance, SYMBOL, SCALE, SCALE + 100_000)
  }

  lemma ExampleBuyIsRefused(b: Books, leg: Leg)
    requires b == Books(ExampleLedger(), []) && leg.vwap == SCALE && leg.filledQty == SCALE && leg.fee == 100_000
    ensures SettleBuy(b, ExampleOpp(), leg) == Done(Books(ExampleLedger(), [ExampleRefusal()]))
  {
    hide BaseOf, QuoteOf, Received;
    ExampleAssets();
    var l, quote, cost: Fixed := ExampleLedger(), (Binance, QuoteOf(SYMBOL)), SCALE + 100_000;
    assert Mul(SCALE, SCALE) == Done(SCALE);
    assert WithBalance(l, quote, SCALE) == l;
    assert Paid(l, quote, cost) == Done((l, false));
    assert BuyApplied(l, Binance, SYMBOL, BaseOf(SYMBOL), QuoteOf(SYMBOL), SCALE, SCALE, 100_000) == Done((l, false));
    hide BuyApplied, Paid;
    var none: seq<Refusal> := [];
    assert none + [ExampleRefusal()] == [ExampleRefusal()];
  }

  lemma ExampleSaleSettles(b: Books, leg: Leg)
    requires b.ledger == ExampleLedger() && leg.vwap == 3 * SCALE && leg.filledQty == SCALE && leg.fee == 600_000
    ensures SettleSell(b, ExampleOpp(), leg).Done?
    ensures SettleSell(b, ExampleOpp(), leg).value.refusals == b.refusals
    ensures SettleSell(b, ExampleOpp(), leg).value.ledger.realized == 0
  {
    hide BaseOf, QuoteOf;
    ExampleAssets();
    var l, base, quote := ExampleLedger(), (OKX, BaseOf(SYMBOL)), (OKX, QuoteOf(SYMBOL));
    assert Paid(l, base, SCALE) == Done((WithBalance(l, base, 0), true));
    assert Mul(3 * SCALE, SCALE) == Done(3 * SCALE);
    ExampleShort();
    hide Mul, Sold;
    assert Available(WithBalance(l, base, 0), quote) <= SCALE;
  }

  lemma ExampleShort()
    ensures Sold(PositionData(0, 0), 3 * SCALE, SCALE).Done?
  {
    assert MulInt(SCALE, -1) == Done(0 - SCALE) && Mul(0, 0) == Done(0);
    assert Mul(3 * SCALE, 0 - SCALE) == Done(0 - 3 * SCALE);
    assert Div(0 - 3 * SCALE, 0 - SCALE).Done?;
  }

  lemma ExampleSettles(res: ArbResult)
    requires res.buy.vwap == SCALE && res.buy.filledQty == SCALE && res.buy.fee == 100_000
    requires res.sell.vwap == 3 * SCALE && res.sell.filledQty == SCALE && res.sell.fee == 600_000
    requires res.realized == 2 * SCALE - 700_000
    ensures var b := SettleResult(Books(ExampleLedger(), []), ExampleOpp(), res);
            b.Done? && b.value.refusals == [ExampleRefusal()] && b.value.ledger.realized == res.realized
  {
    hide SettleBuy, SettleSell;
    var bought := Books(ExampleLedger(), [ExampleRefusal()]);
    ExampleBuyIsRefused(Books(ExampleLedger(), []), res.buy);
    ExampleSaleSettles(bought, res.sell);
  }

  lemma ExampleExecutes()
    ensures var d := MaybeExecute(ExampleConfig(), ExampleCore(), ExampleOpp(), 0, Same(ExampleViews()));
            d.Done? && d.value.refusals == [ExampleRefusal()] && d.value.ledger.realized == 2 * SCALE - 700_000
  {
    hide PassesGiven, Traded, SettleResult, ExactSums, RiskAfter, OrdersWorked, SubmitBoth;
    ExamplePasses();
    ExampleLegs();
    ExampleSettles(ExampleRun().value.result);
  }

  /**
    An opportunity priced on sound views can pass every check and still have its buy refused, for
    want of the fee, while its profit is booked.
   */
  lemma CheckOmitsFee()
    ensures exists cfg: EngineConfig, c: Core, vs: Views, o: O.Opp, d: Core ::
              && SoundViews(vs) && SoundSettings(cfg.settings) && PricedOn(o, cfg.settings, vs) && Fresh(c, o)
              && MaybeExecute(cfg, c, o, 0, Same(vs)) == Done(d)
              && c.refusals == [] && |d.refusals| == 1 && !d.refusals[0].sale
              && d.ledger.realized > c.ledger.realized
  {
    hide MaybeExecute, PricedOn, SoundViews, ExampleViews, ExampleSettings;
    var cfg, c, vs, o := ExampleConfig(), ExampleCore(), ExampleViews(), ExampleOpp();
    ExampleIsSound();
    ExampleIsPriced();
    ExampleExecutes();
    assert c.refusals == [] && c.ledger.realized == 0 && !ExampleRefusal().sale && cfg.settings == ExampleSettings();
    var d := MaybeExecute(cfg, c, o, 0, Same(vs)).value;
    hide *;
  }
}
