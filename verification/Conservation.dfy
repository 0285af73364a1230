/**
  What executions do to the accounts, over any history of them: live or not, whatever the prices,
  rates and symbols, and whichever settlements are refused.
 */
module Conservation {
  import opened Outcomes
  import opened Decimal
  import opened Execution
  import opened Portfolio
  import opened LedgerTheory
  import opened EngineSpec
  import O = Opportunity
  import R = Risk

  /** An executed opportunity and what its two legs came to. */
  datatype Booking = Booking(opp: O.Opp, result: ArbResult) {
    /** What the two legs add to the base asset. */
    function BaseFlow(): int {
      TakenBy(result.buy) - TakenBy(result.sell)
    }

    /** What the two legs add to the quote asset, as Go forms it. */
    function QuoteFlow(): int {
      PaidFor(result.buy) + GotFor(result.sell)
    }

    function FlowIn(assets: set<string>): int {
      (if BaseOf(opp.symbol) in assets then BaseFlow() else 0)
      + (if QuoteOf(opp.symbol) in assets then QuoteFlow() else 0)
    }
  }

  /** A leg is settled only if it filled something. */
  function TakenBy(leg: Leg): int {
    if leg.filledQty > 0 then leg.filledQty else 0
  }

  function PaidFor(leg: Leg): int {
    if leg.filledQty > 0 then Minus(BuyCost(leg.vwap, leg.filledQty, leg.fee)) else 0
  }

  function GotFor(leg: Leg): int {
    if leg.filledQty > 0 then Proceeds(leg.vwap, leg.filledQty, leg.fee) else 0
  }

  function FlowsIn(bs: seq<Booking>, assets: set<string>): int {
    if bs == [] then 0 else FlowsIn(bs[..|bs| - 1], assets) + bs[|bs| - 1].FlowIn(assets)
  }

  function ProfitOf(bs: seq<Booking>): int {
    if bs == [] then 0 else ProfitOf(bs[..|bs| - 1]) + bs[|bs| - 1].result.realized
  }

  lemma OneMoreBooking(bs: seq<Booking>, b: Booking, assets: set<string>)
    ensures FlowsIn(bs + [b], assets) == FlowsIn(bs, assets) + b.FlowIn(assets)
    ensures ProfitOf(bs + [b]) == ProfitOf(bs) + b.result.realized
  {
    assert (bs + [b])[..|bs|] == bs;
  }

  // What the ledger refused.

  /** What a refused settlement would have moved. */
  function RefusedFlow(r: Refusal, assets: set<string>): int {
    (if BaseOf(r.symbol) in assets then (if r.sale then Minus(r.qty) else r.qty) else 0)
    + (if QuoteOf(r.symbol) in assets then (if r.sale then r.amount else Minus(r.amount)) else 0)
  }

  function RefusedIn(rs: seq<Refusal>, assets: set<string>): int {
    if rs == [] then 0 else RefusedIn(rs[..|rs| - 1], assets) + RefusedFlow(rs[|rs| - 1], assets)
  }

  lemma OneMoreRefusal(rs: seq<Refusal>, r: Refusal, assets: set<string>)
    ensures RefusedIn(rs + [r], assets) == RefusedIn(rs, assets) + RefusedFlow(r, assets)
  {
    assert (rs + [r])[..|rs|] == rs;
  }

  /** What is held of the assets, plus what refused settlements should have moved. */
  ghost function Account(b: Books, assets: set<string>): int {
    TotalIn(b.ledger, assets) + RefusedIn(b.refusals, assets)
  }

  function BooksOf(c: Core): Books {
    Books(c.ledger, c.refusals)
  }

  // One execution.

  lemma BuyFlows(b: Books, o: O.Opp, leg: Leg, assets: set<string>)
    requires SettleBuy(b, o, leg).Done?
    ensures Account(SettleBuy(b, o, leg).value, assets)
            == Account(b, assets) + (if BaseOf(o.symbol) in assets then TakenBy(leg) else 0)
               + (if QuoteOf(o.symbol) in assets then PaidFor(leg) else 0)
    ensures SettleBuy(b, o, leg).value.ledger.realized == b.ledger.realized
  {
    hide BuyApplied, TotalIn, Notional, BaseOf, QuoteOf, RefusedIn;
    if leg.filledQty > 0 {
      var base, quote := BaseOf(o.symbol), QuoteOf(o.symbol);
      BuyTotal(b.ledger, o.buyVenue, o.symbol, base, quote, leg.vwap, leg.filledQty, leg.fee, assets);
      BuyEffect(b.ledger, o.buyVenue, o.symbol, base, quote, leg.vwap, leg.filledQty, leg.fee);
      OneMoreRefusal(b.refusals, RefusedBuy(o, leg), assets);
    }
  }

  lemma SellFlows(b: Books, o: O.Opp, leg: Leg, assets: set<string>)
    requires SettleSell(b, o, leg).Done?
    ensures Account(SettleSell(b, o, leg).value, assets)
            == Account(b, assets) - (if BaseOf(o.symbol) in assets then TakenBy(leg) else 0)
               + (if QuoteOf(o.symbol) in assets then GotFor(leg) else 0)
    ensures SettleSell(b, o, leg).value.ledger.realized == b.ledger.realized
  {
    hide SellApplied, TotalIn, Notional, BaseOf, QuoteOf, RefusedIn;
    if leg.filledQty > 0 {
      var base, quote := BaseOf(o.symbol), QuoteOf(o.symbol);
      SellTotal(b.ledger, o.sellVenue, o.symbol, base, quote, leg.vwap, leg.filledQty, leg.fee, assets);
      SellEffect(b.ledger, o.sellVenue, o.symbol, base, quote, leg.vwap, leg.filledQty, leg.fee);
      OneMoreRefusal(b.refusals, RefusedSale(o, leg), assets);
    }
  }

  /** Settling a result moves every account by its flows, and books its profit, whatever was refused. */
  lemma ResultFlows(b: Books, o: O.Opp, res: ArbResult, assets: set<string>)
    requires SettleResult(b, o, res).Done?
    ensures Account(SettleResult(b, o, res).value, assets) == Account(b, assets) + Booking(o, res).FlowIn(assets)
    ensures SettleResult(b, o, res).value.ledger.realized == b.ledger.realized + res.realized
  {
    hide SettleBuy, SettleSell, TotalIn, RefusedIn, TakenBy, PaidFor, GotFor, BaseOf, QuoteOf;
    BuyFlows(b, o, res.buy, assets);
    var bought := SettleBuy(b, o, res.buy).value;
    SellFlows(bought, o, res.sell, assets);
    var sold := SettleSell(bought, o, res.sell).value;
    TotalIgnoresPositions(sold.ledger, SettleResult(b, o, res).value.ledger, assets);
  }

  // Histories.

  /** One call of maybeExecute: its clock, the views it read, and what its exposures came to. */
  datatype Attempt = Attempt(opp: O.Opp, now: int, seen: Reads, sums: R.ExposureSums)

  function Attempted(cfg: EngineConfig, c: Core, a: Attempt): Checked<Core> {
    MaybeExecuteGiven(cfg, c, a.opp, a.now, a.seen, a.sums)
  }

  function History(cfg: EngineConfig, c: Core, tries: seq<Attempt>): Checked<Core> {
    if tries == [] then Done(c)
    else
      var m :- History(cfg, c, tries[..|tries| - 1]);
      Attempted(cfg, m, tries[|tries| - 1])
  }

  /** What an attempt booked, if it executed. */
  function BookedBy(cfg: EngineConfig, c: Core, a: Attempt): seq<Booking> {
    var run := Traded(cfg, c.sim, a.opp, a.seen);
    if PassesGiven(cfg, c, a.opp, a.now, a.seen, a.sums) == Done(true) && run.Done?
    then [Booking(a.opp, run.value.result)]
    else []
  }

  function Bookings(cfg: EngineConfig, c: Core, tries: seq<Attempt>): seq<Booking> {
    if tries == [] then []
    else
      var init := tries[..|tries| - 1];
      var m := History(cfg, c, init);
      Bookings(cfg, c, init) + if m.Done? then BookedBy(cfg, m.value, tries[|tries| - 1]) else []
  }

  lemma AttemptFlows(cfg: EngineConfig, c: Core, a: Attempt, assets: set<string>)
    requires Attempted(cfg, c, a).Done?
    ensures var d, bs := Attempted(cfg, c, a).value, BookedBy(cfg, c, a);
            && Account(BooksOf(d), assets) == Account(BooksOf(c), assets) + FlowsIn(bs, assets)
            && d.ledger.realized == c.ledger.realized + ProfitOf(bs)
            && d.executed == c.executed + |bs|
  {
    hide PassesGiven, Traded, SettleResult, TotalIn, RefusedIn, RiskAfter, OrdersWorked, SubmitBoth;
    if PassesGiven(cfg, c, a.opp, a.now, a.seen, a.sums) == Done(true) {
      var res := Traded(cfg, c.sim, a.opp, a.seen).value.result;
      ResultFlows(BooksOf(c), a.opp, res, assets);
      OneMoreBooking([], Booking(a.opp, res), assets);
      assert [] + [Booking(a.opp, res)] == [Booking(a.opp, res)];
    }
  }

  lemma {:induction false} FlowsJoin(a: seq<Booking>, b: seq<Booking>, assets: set<string>)
    ensures FlowsIn(a + b, assets) == FlowsIn(a, assets) + FlowsIn(b, assets)
    ensures ProfitOf(a + b) == ProfitOf(a) + ProfitOf(b)
  {
    hide FlowsIn, ProfitOf, Booking.FlowIn;
    if b == [] {
      NoFlows(assets);
      assert a + b == a;
    } else {
      var init, last := b[..|b| - 1], b[|b| - 1];
      FlowsJoin(a, init, assets);
      OneMoreBooking(init, last, assets);
      OneMoreBooking(a + init, last, assets);
      JoinLast(a, b);
    }
  }

  lemma NoFlows(assets: set<string>)
    ensures FlowsIn([], assets) == 0 && ProfitOf([]) == 0
  {
  }

  lemma JoinLast(a: seq<Booking>, b: seq<Booking>)
    requires b != []
    ensures var init, last := b[..|b| - 1], b[|b| - 1]; b == init + [last] && a + b == (a + init) + [last]
  {
  }

  /**
    Conservation, without any premise: over any history of attempts, what is held of any assets
    has moved by the flows of the executed legs, less what refused settlements should have moved;
    the realized profit is the sum of what was booked; and there is one booking per execution.
   */
  lemma {:induction false} HistoryConserves(cfg: EngineConfig, c: Core, tries: seq<Attempt>, assets: set<string>)
    requires History(cfg, c, tries).Done?
    ensures var d, bs := History(cfg, c, tries).value, Bookings(cfg, c, tries);
            && Account(BooksOf(d), assets) == Account(BooksOf(c), assets) + FlowsIn(bs, assets)
            && d.ledger.realized == c.ledger.realized + ProfitOf(bs)
            && d.executed == c.executed + |bs|
  {
    if tries != [] {
      hide Attempted, BookedBy, Account, FlowsIn, ProfitOf;
      var init, a := tries[..|tries| - 1], tries[|tries| - 1];
      HistoryConserves(cfg, c, init, assets);
      var m := History(cfg, c, init).value;
      AttemptFlows(cfg, m, a, assets);
      FlowsJoin(Bookings(cfg, c, init), BookedBy(cfg, m, a), assets);
    } else {
      NoFlows(assets);
    }
  }

  // What the flows mean.

  /** The quantity that both legs filled. */
  function Matched(res: ArbResult): (m: Fixed)
    ensures m <= res.buy.filledQty && m <= res.sell.filledQty
    ensures m == res.buy.filledQty || m == res.sell.filledQty
  {
    if res.sell.filledQty < res.buy.filledQty then res.sell.filledQty else res.buy.filledQty
  }

  /** The value of what one leg filled beyond the other; of all of it, with its fee, if nothing matched. */
  function Unmatched(res: ArbResult): int {
    var m := Matched(res);
    if m > 0 then
      Notional(res.sell.vwap, res.sell.filledQty) - Notional(res.sell.vwap, m)
      - (Notional(res.buy.vwap, res.buy.filledQty) - Notional(res.buy.vwap, m))
    else
      (if res.sell.filledQty > 0 then Notional(res.sell.vwap, res.sell.filledQty) - res.sell.fee else 0)
      - (if res.buy.filledQty > 0 then BuyCost(res.buy.vwap, res.buy.filledQty, res.buy.fee) else 0)
  }

  /**
    No minus went wrong, or two did and cancel out: the fees add up to MIN_INT64 exactly when the
    cost of the buy or the fee of the sale is MIN_INT64. Where nothing matched no fees are added.
   */
  predicate Exact(res: ArbResult) {
    var cost := BuyCost(res.buy.vwap, res.buy.filledQty, res.buy.fee);
    if Matched(res) > 0
    then res.buy.fee + res.sell.fee == MIN_INT64 <==> (cost == MIN_INT64 || res.sell.fee == MIN_INT64)
    else (res.buy.filledQty > 0 ==> cost != MIN_INT64) && (res.sell.filledQty > 0 ==> res.sell.fee != MIN_INT64)
  }

  /** What Combine says of two legs that filled no negative quantity. */
  lemma CombineAmounts(buy: Leg, sell: Leg)
    requires buy.filledQty >= 0 && sell.filledQty >= 0 && Combine(buy, sell).Done?
    ensures var res := Combine(buy, sell).value; var m := Matched(res);
            && res.buy == buy && res.sell == sell && res.residual == buy.filledQty - sell.filledQty
            && res.realized == (if m <= 0 then 0
                                else Notional(sell.vwap, m) - Notional(buy.vwap, m) + Minus(buy.fee + sell.fee))
            && (m > 0 ==> InRange(buy.fee + sell.fee))
            && (m > 0 ==> Magnitude(Notional(buy.vwap, m)) <= MAX_INT64)
  {
    hide Mul, Notional;
    var m := if sell.filledQty < buy.filledQty then sell.filledQty else buy.filledQty;
    MulIsQuotient(buy.vwap, m);
    MulIsQuotient(sell.vwap, m);
  }

  /**
    An execution adds its residual to the base. It adds its profit and the value of what did not
    match to the quote, exactly when the amounts are exact.
   */
  lemma BookingMeaning(o: O.Opp, buy: Leg, sell: Leg)
    requires buy.filledQty >= 0 && sell.filledQty >= 0 && Combine(buy, sell).Done?
    requires InRange(BuyCost(buy.vwap, buy.filledQty, buy.fee))
    requires Magnitude(Notional(buy.vwap, buy.filledQty)) <= MAX_INT64
    ensures var b := Booking(o, Combine(buy, sell).value);
            && b.BaseFlow() == b.result.residual
            && (b.QuoteFlow() == b.result.realized + Unmatched(b.result) <==> Exact(b.result))
  {
    hide Notional, Combine;
    CombineAmounts(buy, sell);
    if BuyCost(buy.vwap, buy.filledQty, buy.fee) == MIN_INT64 {
      assert buy.fee < 0;
    }
  }
}
