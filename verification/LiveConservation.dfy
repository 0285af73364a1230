/**
  Conservation in live mode: over any history of attempts, each leg of each of them on views of
  its own, the accounts differ from the booked profit by what did not match and what was refused.
 */
module LiveConservation {
  import opened Outcomes
  import opened Decimal
  import opened Domain
  import opened Orders
  import opened Execution
  import opened Portfolio
  import opened LedgerTheory
  import opened ModestFills
  import opened Markets
  import opened EngineSpec
  import opened Conservation
  import opened Settlement
  import O = Opportunity
  import R = Risk

  /** Every order belongs to an opportunity numbered up to `n`. */
  predicate Numbered(c: Core, n: nat) {
    forall id :: id in c.sim.orders ==> id.ForOpportunity? && id.n <= n
  }

  /** The opportunities are new ones, in order. */
  predicate Ascending(tries: seq<Attempt>, n: nat) {
    && (forall i :: 0 <= i < |tries| ==> tries[i].opp.id > n)
    && (forall i, j :: 0 <= i < j < |tries| ==> tries[i].opp.id < tries[j].opp.id)
  }

  /** An opportunity for something, between two venues, and legs that read sorted views, if any. */
  predicate WellPosed(a: Attempt) {
    a.opp.quantity > 0 && a.opp.buyVenue != a.opp.sellVenue && LegViewsIn(AnyPrice, a.opp, a.seen)
  }

  predicate AllWellPosed(tries: seq<Attempt>) {
    forall i :: 0 <= i < |tries| ==> WellPosed(tries[i])
  }

  function LastNumber(tries: seq<Attempt>, n: nat): nat {
    if tries == [] then n else tries[|tries| - 1].opp.id
  }

  /** What an execution means: its residual, and its profit with the value of what did not match. */
  function MeantIn(bs: seq<Booking>, assets: set<string>): int {
    if bs == [] then 0
    else
      var b := bs[|bs| - 1];
      MeantIn(bs[..|bs| - 1], assets)
      + (if BaseOf(b.opp.symbol) in assets then b.result.residual else 0)
      + (if QuoteOf(b.opp.symbol) in assets then b.result.realized + Unmatched(b.result) else 0)
  }

  function ResidualsIn(bs: seq<Booking>, assets: set<string>): int {
    if bs == [] then 0
    else
      var b := bs[|bs| - 1];
      ResidualsIn(bs[..|bs| - 1], assets) + (if BaseOf(b.opp.symbol) in assets then b.result.residual else 0)
  }

  predicate AllExact(bs: seq<Booking>) {
    forall i :: 0 <= i < |bs| ==> Exact(bs[i].result)
  }

  /** The flows of a booking are what it means. */
  predicate Meant(b: Booking) {
    && b.BaseFlow() == b.result.residual
    && (b.QuoteFlow() == b.result.realized + Unmatched(b.result) <==> Exact(b.result))
  }

  predicate AllMeant(bs: seq<Booking>) {
    forall i :: 0 <= i < |bs| ==> Meant(bs[i])
  }

  predicate NoQuoteIn(bs: seq<Booking>, assets: set<string>) {
    forall i :: 0 <= i < |bs| ==> QuoteOf(bs[i].opp.symbol) !in assets
  }

  lemma {:induction false} FlowsMeant(bs: seq<Booking>, assets: set<string>)
    requires AllMeant(bs)
    ensures AllExact(bs) ==> FlowsIn(bs, assets) == MeantIn(bs, assets)
    ensures NoQuoteIn(bs, assets) ==> FlowsIn(bs, assets) == ResidualsIn(bs, assets)
  {
    hide Exact, Unmatched, BaseOf, QuoteOf;
    if bs != [] {
      FlowsMeant(bs[..|bs| - 1], assets);
      assert Meant(bs[|bs| - 1]);
    }
  }

  // One attempt.

  lemma BuyAmountsFit(b: Books, o: O.Opp, leg: Leg)
    requires SettleBuy(b, o, leg).Done? && leg.filledQty >= 0
    ensures InRange(BuyCost(leg.vwap, leg.filledQty, leg.fee))
    ensures Magnitude(Notional(leg.vwap, leg.filledQty)) <= MAX_INT64
  {
    hide Mul, Paid, Received;
    MulIsQuotient(leg.vwap, leg.filledQty);
    if leg.filledQty == 0 {
      assert Notional(leg.vwap, 0) == 0;
    }
  }

  lemma NextNumber(cfg: EngineConfig, c: Core, a: Attempt, n: nat)
    requires Numbered(c, n) && a.opp.id > n && a.opp.quantity > 0 && Attempted(cfg, c, a).Done?
    ensures Numbered(Attempted(cfg, c, a).value, a.opp.id) && Fresh(c, a.opp)
  {
    hide PassesGiven, SettleResult, FillAgainst, Combine, SubmitBoth, ViewAt, TakerBps, RiskAfter;
    if PassesGiven(cfg, c, a.opp, a.now, a.seen, a.sums) == Done(true) {
      var o := a.opp;
      FreshOrders(c.sim, o);
      var sim := SubmitBoth(c.sim, o);
      var buy, sell := sim.orders[ForOpportunity(o.id, Buy)], sim.orders[ForOpportunity(o.id, Sell)];
      OrderKeepsItsID(buy, ViewAt(a.seen.buyLeg, buy.venue, buy.symbol), TakerBps(cfg.settings.fees, buy.venue));
      OrderKeepsItsID(sell, ViewAt(a.seen.sellLeg, sell.venue, sell.symbol), TakerBps(cfg.settings.fees, sell.venue));
    }
  }

  lemma AttemptMeant(cfg: EngineConfig, c: Core, a: Attempt)
    requires Fresh(c, a.opp) && WellPosed(a) && Attempted(cfg, c, a).Done?
    ensures AllMeant(BookedBy(cfg, c, a))
    ensures OnlyBuysRefused(c.refusals) ==> OnlyBuysRefused(Attempted(cfg, c, a).value.refusals)
  {
    hide PassesGiven, Traded, SettleBuy, SettleSell, LegViewsIn, Exact, Unmatched, Notional, Combine, RiskAfter;
    SaleIsNeverRefused(cfg, c, a.opp, a.now, a.seen, a.sums);
    if PassesGiven(cfg, c, a.opp, a.now, a.seen, a.sums) == Done(true) {
      LegsFillWithin(cfg, c, a.opp, a.seen);
      var res := Traded(cfg, c.sim, a.opp, a.seen).value.result;
      BuyAmountsFit(BooksOf(c), a.opp, res.buy);
      BookingMeaning(a.opp, res.buy, res.sell);
    }
  }

  predicate OnlyBuysRefused(rs: seq<Refusal>) {
    forall i :: 0 <= i < |rs| ==> !rs[i].sale
  }

  lemma PosedForSomething(a: Attempt)
    requires WellPosed(a)
    ensures a.opp.quantity > 0
  {
  }

  lemma MeantJoin(a: seq<Booking>, b: seq<Booking>)
    requires AllMeant(a) && AllMeant(b)
    ensures AllMeant(a + b)
  {
    hide Meant;
  }

  lemma {:induction false} HistoryMeant(cfg: EngineConfig, c: Core, tries: seq<Attempt>, n: nat)
    requires Numbered(c, n) && Ascending(tries, n) && AllWellPosed(tries) && History(cfg, c, tries).Done?
    ensures Numbered(History(cfg, c, tries).value, LastNumber(tries, n)) && AllMeant(Bookings(cfg, c, tries))
    ensures OnlyBuysRefused(c.refusals) ==> OnlyBuysRefused(History(cfg, c, tries).value.refusals)
  {
    hide Attempted, BookedBy, Meant, WellPosed, OnlyBuysRefused, Numbered;
    if tries != [] {
      var init, a := tries[..|tries| - 1], tries[|tries| - 1];
      HistoryMeant(cfg, c, init, n);
      var m := History(cfg, c, init).value;
      PosedForSomething(a);
      NextNumber(cfg, m, a, LastNumber(init, n));
      AttemptMeant(cfg, m, a);
      MeantJoin(Bookings(cfg, c, init), BookedBy(cfg, m, a));
    }
  }

  /**
    Live conservation, over any history of new opportunities, whatever views each leg reads: only
    buys are refused; in assets that are no quotes the accounts have moved by the residuals; and,
    all amounts being exact, in any assets by the residuals, the booked profit and the value of
    what did not match.
   */
  lemma LiveConserves(cfg: EngineConfig, c: Core, tries: seq<Attempt>, n: nat, assets: set<string>)
    requires Numbered(c, n) && Ascending(tries, n) && AllWellPosed(tries) && History(cfg, c, tries).Done?
    ensures var d, bs := History(cfg, c, tries).value, Bookings(cfg, c, tries);
            && (OnlyBuysRefused(c.refusals) ==> OnlyBuysRefused(d.refusals))
            && d.ledger.realized == c.ledger.realized + ProfitOf(bs)
            && (NoQuoteIn(bs, assets) ==>
                  Account(BooksOf(d), assets) == Account(BooksOf(c), assets) + ResidualsIn(bs, assets))
            && (AllExact(bs) ==> Account(BooksOf(d), assets) == Account(BooksOf(c), assets) + MeantIn(bs, assets))
  {
    hide History, Bookings, Account, OnlyBuysRefused, AllExact, NoQuoteIn, AllMeant, Numbered, AllWellPosed;
    HistoryMeant(cfg, c, tries, n);
    HistoryConserves(cfg, c, tries, assets);
    FlowsMeant(Bookings(cfg, c, tries), assets);
  }

  // When amounts are exact.

  /** The legs read prices of the regime, at its rates. */
  predicate WithinRegime(cfg: EngineConfig, g: Regime, a: Attempt) {
    LegViewsIn(g, a.opp, a.seen) && LegRatesIn(g, a.opp, cfg.settings)
  }

  lemma {:induction false} RegimeIsExact(cfg: EngineConfig, c: Core, tries: seq<Attempt>, n: nat, g: Regime)
    requires Numbered(c, n) && Ascending(tries, n) && AllWellPosed(tries) && History(cfg, c, tries).Done?
    requires g != AnyPrice && forall i :: 0 <= i < |tries| ==> WithinRegime(cfg, g, tries[i])
    ensures AllExact(Bookings(cfg, c, tries))
  {
    hide Attempted, Exact, Numbered, Traded, PassesGiven, LegViewsIn, LegRatesIn;
    if tries != [] {
      var init, a := tries[..|tries| - 1], tries[|tries| - 1];
      RegimeIsExact(cfg, c, init, n, g);
      HistoryMeant(cfg, c, init, n);
      var m := History(cfg, c, init).value;
      NextNumber(cfg, m, a, LastNumber(init, n));
      assert WellPosed(a) && WithinRegime(cfg, g, a);
      if Traded(cfg, m.sim, a.opp, a.seen).Done? {
        LegsAreExact(cfg, m, a.opp, a.seen, g);
      }
    }
  }
}
