/**
  Whole deterministic runs: each event is applied, then one evaluation pass executes what it
  finds (runDeterministic and EvaluateOnce in internal/engine/engine.go).
 */
module DeterministicRun {
  import opened Outcomes
  import opened Decimal
  import opened Domain
  import opened BookSpec
  import opened Reconstruction
  import opened Orders
  import opened Execution
  import opened Portfolio
  import opened LedgerTheory
  import opened ModestFills
  import opened Markets
  import opened EngineSpec
  import opened Conservation
  import opened Settlement
  import opened LiveConservation
  import opened PricedProfit
  import opened RunTrades
  import O = Opportunity
  import R = Risk

  // What an evaluation pass finds.

  lemma InFront<T>(x: T, s: seq<T>, y: T)
    ensures y in [x] + s <==> y == x || y in s
  {
  }

  /** The rest of a row: its venue against every other one still ahead, then the next rows. */
  lemma {:induction false} RowVisited(vs: seq<Venue>, i: nat, j: nat, p: (Venue, Venue))
    requires i < |vs| && j <= |vs|
    ensures p in PairsFrom(vs, i, j)
            <==> (p.0 == vs[i] && p.0 != p.1 && p.1 in vs[j..]) || p in PairsFrom(vs, i + 1, 0)
    decreases |vs| - j
  {
    hide PairsFrom;
    if j == |vs| {
      RowEnds(vs, i);
    } else {
      RowVisited(vs, i, j + 1, p);
      PairInRow(vs, i, j, p);
      assert vs[j..] == [vs[j]] + vs[j + 1..];
      InFront(vs[j], vs[j + 1..], p.1);
    }
  }

  lemma PairInRow(vs: seq<Venue>, i: nat, j: nat, p: (Venue, Venue))
    requires i < |vs| && j < |vs|
    ensures p in PairsFrom(vs, i, j)
            <==> (p.0 == vs[i] && p.1 == vs[j] && p.0 != p.1) || p in PairsFrom(vs, i, j + 1)
  {
    var rest := PairsFrom(vs, i, j + 1);
    if vs[i] == vs[j] {
      assert PairsFrom(vs, i, j) == rest;
    } else {
      InFront((vs[i], vs[j]), rest, p);
    }
  }

  lemma {:induction false} RowsVisited(vs: seq<Venue>, i: nat, p: (Venue, Venue))
    requires i <= |vs|
    ensures p in PairsFrom(vs, i, 0) <==> p.0 in vs[i..] && p.1 in vs && p.0 != p.1
    decreases |vs| - i
  {
    if i < |vs| {
      RowsVisited(vs, i + 1, p);
      RowVisited(vs, i, 0, p);
      assert vs[0..] == vs && vs[i..] == [vs[i]] + vs[i + 1..];
    }
  }

  /** A scan visits every ordered pair of distinct venues, and nothing else. */
  lemma PairsVisited(vs: seq<Venue>, p: (Venue, Venue))
    ensures p in PairsFrom(vs, 0, 0) <==> p.0 in vs && p.1 in vs && p.0 != p.1
  {
    RowsVisited(vs, 0, p);
    assert vs[0..] == vs;
  }

  /** What is found carries the pair it was found on, and the next id. */
  lemma FoundMeaning(p: O.Pair, s: O.Settings, counter: nat, opp: O.Opp)
    requires Emitted(p, s, counter, opp)
    ensures opp.id == counter + 1 && opp.symbol == p.symbol && opp.detectedAt == p.now
    ensures opp.buyVenue == p.buyVenue && opp.sellVenue == p.sellVenue
  {
  }

  /** Opportunities priced on `vs`, under increasing ids above `lo` and up to `hi`. */
  predicate Batch(opps: seq<O.Opp>, s: O.Settings, vs: Views, symbol: string, lo: nat, hi: nat) {
    && lo <= hi
    && (forall i :: 0 <= i < |opps| ==> PricedOn(opps[i], s, vs) && opps[i].symbol == symbol && lo < opps[i].id <= hi)
    && (forall i, j :: 0 <= i < j < |opps| ==> opps[i].id < opps[j].id)
  }

  lemma BatchGrows(opps: seq<O.Opp>, s: O.Settings, vs: Views, symbol: string, lo: nat, hi: nat, o: O.Opp)
    requires Batch(opps, s, vs, symbol, lo, hi)
    requires PricedOn(o, s, vs) && o.symbol == symbol && o.id == hi + 1
    ensures Batch(opps + [o], s, vs, symbol, lo, hi + 1)
  {
  }

  lemma {:induction false} EvaluationFindsBatch(s: O.Settings, vs: Views, symbol: string, now: int,
                                                pairs: seq<(Venue, Venue)>, found: seq<O.Opp>, lo: nat, counter: nat)
    requires forall p :: p in pairs ==> p.0 != p.1
    requires Batch(found, s, vs, symbol, lo, counter)
    requires EvaluateFrom(s, vs, symbol, now, pairs, found, counter).Done?
    ensures var r := EvaluateFrom(s, vs, symbol, now, pairs, found, counter).value;
            counter <= r.1 && Batch(r.0, s, vs, symbol, lo, r.1)
    decreases |pairs|
  {
    if pairs != [] {
      var p := PairOf(vs, symbol, pairs[0], now);
      var e := O.EvaluatePair(p, s, counter).value;
      if e.Found? {
        FoundMeaning(p, s, counter, e.opp);
        BatchGrows(found, s, vs, symbol, lo, counter, e.opp);
        EvaluationFindsBatch(s, vs, symbol, now, pairs[1..], found + [e.opp], lo, counter + 1);
      } else {
        EvaluationFindsBatch(s, vs, symbol, now, pairs[1..], found, lo, counter);
      }
    }
  }

  /** One symbol's scan finds a batch. */
  lemma FoundBatch(cfg: EngineConfig, vs: Views, symbol: string, now: int, counter: nat)
    requires EvaluateFrom(cfg.settings, vs, symbol, now, PairsFrom(cfg.venues, 0, 0), [], counter).Done?
    ensures var r := EvaluateFrom(cfg.settings, vs, symbol, now, PairsFrom(cfg.venues, 0, 0), [], counter).value;
            Batch(r.0, cfg.settings, vs, symbol, counter, r.1)
  {
    hide EvaluateFrom, PairsFrom;
    var pairs := PairsFrom(cfg.venues, 0, 0);
    forall p | p in pairs
      ensures p.0 != p.1
    {
      PairsVisited(cfg.venues, p);
    }
    EvaluationFindsBatch(cfg.settings, vs, symbol, now, pairs, [], counter, counter);
  }

  // One execution.

  /** Both orders of `o` were submitted and filled in full; every other order is as it was. */
  predicate TradedInFull(sim: SimState, sim': SimState, o: O.Opp) {
    var b, s := ForOpportunity(o.id, Buy), ForOpportunity(o.id, Sell);
    && b in sim'.orders && s in sim'.orders
    && sim'.orders[b].state == Filled && sim'.orders[s].state == Filled
    && sim'.orders == sim.orders[b := sim'.orders[b]][s := sim'.orders[s]]
  }

  lemma OrdersWorkedInFull(cfg: EngineConfig, c: Core, o: O.Opp, run: ArbRun)
    requires FilledLegs(o, run) && Fresh(c, o)
    ensures TradedInFull(c.sim, OrdersWorked(SubmitBoth(c.sim, o), run, cfg.policy), o)
  {
    FreshOrders(c.sim, o);
  }

  /**
    An execution books what was priced, up to rounding: with n the bid levels touched, the
    ledger's realized profit rises by more than net + slippage + latency - n - n*q/1e8.
   */
  lemma ExecutionRealizesPricedProfit(cfg: EngineConfig, c: Core, o: O.Opp, vs: Views, sellView: View, d: Core)
    requires SoundViews(vs) && SoundSettings(cfg.settings) && PricedOn(o, cfg.settings, vs) && Fresh(c, o)
    requires GoodView(sellView) && ViewAt(vs, o.sellVenue, o.symbol) == Some(sellView)
    requires Execute(cfg, c, o, Same(vs)) == Done(d)
    ensures var n := BidsTouched(sellView, o.quantity);
            (d.ledger.realized - c.ledger.realized) * SCALE
            > (o.costing.net + o.costing.slippage + o.costing.latency) * SCALE - n * SCALE - n * o.quantity
  {
    hide SettleResult;
    var p, s, k := ThePair(o, vs), cfg.settings, o.id - 1;
    SoundPair(o, s, vs);
    EmittedMeaning(p, s, k, o);
    FreshOrders(c.sim, o);
    var sim := SubmitBoth(c.sim, o);
    PricedProfitIsRealized(p, s, k, o, sim.orders[ForOpportunity(o.id, Buy)], sim.orders[ForOpportunity(o.id, Sell)]);
    ResultFlows(BooksOf(c), o, Traded(cfg, c.sim, o, Same(vs)).value.result, {});
  }

  /** Every order belongs to an opportunity numbered up to `n` and is filled; two per execution. */
  predicate AllFilled(c: Core, n: nat) {
    && (forall id :: id in c.sim.orders ==> id.ForOpportunity? && id.n <= n && c.sim.orders[id].state == Filled)
    && |c.sim.orders| == 2 * c.executed
  }

  /**
    What trades do, in a regime of prices: one per execution, all of configured symbols; they book
    the profit; no sale is refused; and unless nothing is known of the prices, every account moves
    by the profits of the trades quoted in it. At nonnegative prices and rates each trade is worth
    what was priced.
   */
  ghost predicate Moved(cfg: EngineConfig, g: Regime, c: Core, d: Core, trades: seq<Trade>) {
    && d.executed - c.executed == |trades|
    && d.ledger.realized == c.ledger.realized + ProfitSum(trades)
    && (OnlyBuysRefused(c.refusals) ==> OnlyBuysRefused(d.refusals))
    && (g != AnyPrice ==> forall assets: set<string> ::
          Account(BooksOf(d), assets) == Account(BooksOf(c), assets) + ProfitIn(trades, assets))
    && (forall i :: 0 <= i < |trades| ==> trades[i].opp.symbol in cfg.symbols)
    && (g == NonnegPrice && SoundSettings(cfg.settings) ==> AllWorth(trades))
  }

  predicate AllWorth(trades: seq<Trade>) {
    forall i :: 0 <= i < |trades| ==> trades[i].profit * SCALE > trades[i].Worth()
  }

  lemma NothingMoved(cfg: EngineConfig, g: Regime, c: Core)
    ensures Moved(cfg, g, c, c, [])
  {
  }

  lemma MovedTwice(cfg: EngineConfig, g: Regime, a: Core, b: Core, c: Core, first: seq<Trade>, second: seq<Trade>)
    requires Moved(cfg, g, a, b, first) && Moved(cfg, g, b, c, second)
    ensures Moved(cfg, g, a, c, first + second)
  {
    hide Account, ProfitSum, ProfitIn, OnlyBuysRefused, SoundSettings;
    ProfitsJoin(first, second, {});
    forall assets: set<string> | g != AnyPrice
      ensures Account(BooksOf(c), assets) == Account(BooksOf(a), assets) + ProfitIn(first + second, assets)
    {
      ProfitsJoin(first, second, assets);
      assert Account(BooksOf(b), assets) == Account(BooksOf(a), assets) + ProfitIn(first, assets);
    }
  }

  lemma OneTrade(t: Trade, assets: set<string>)
    ensures ProfitSum([t]) == t.profit
    ensures ProfitIn([t], assets) == if QuoteOf(t.opp.symbol) in assets then t.profit else 0
  {
    assert [t][..0] == [];
  }

  /** A trade that fills in full leaves no residual; within a regime its quote flow is its profit. */
  lemma FullTradeFlows(cfg: EngineConfig, c: Core, o: O.Opp, vs: Views, g: Regime, assets: set<string>)
    requires ViewsIn(g, vs) && SettingsIn(g, cfg.settings) && PricedOn(o, cfg.settings, vs) && Fresh(c, o)
    requires g != AnyPrice && Execute(cfg, c, o, Same(vs)).Done?
    ensures var res := Traded(cfg, c.sim, o, Same(vs)).value.result;
            Booking(o, res).FlowIn(assets) == if QuoteOf(o.symbol) in assets then res.realized else 0
  {
    hide Traded, SettleBuy, SettleSell, ViewsIn, SettingsIn, PricedOn, Exact, Notional, Combine, RateIn;
    hide BaseOf, QuoteOf;
    var res := Traded(cfg, c.sim, o, Same(vs)).value.result;
    FilledOf(cfg, c, o, vs, g);
    TradeIsExact(cfg, c, o, vs, g);
    BuyAmountsFit(BooksOf(c), o, res.buy);
    BookingMeaning(o, res.buy, res.sell);
    NothingUnmatched(res);
  }

  lemma NothingUnmatched(res: ArbResult)
    requires res.buy.filledQty == res.sell.filledQty > 0
    ensures Unmatched(res) == 0
  {
    hide Notional;
  }

  lemma FilledOf(cfg: EngineConfig, c: Core, o: O.Opp, vs: Views, g: Regime)
    requires ViewsIn(g, vs) && SettingsIn(g, cfg.settings) && PricedOn(o, cfg.settings, vs) && Fresh(c, o)
    requires Traded(cfg, c.sim, o, Same(vs)).Done?
    ensures var run := Traded(cfg, c.sim, o, Same(vs)).value;
            FilledLegs(o, run) && Combine(run.result.buy, run.result.sell) == Done(run.result)
    ensures 0 < o.quantity == cfg.settings.config.tradeQuantity && LegViewsIn(g, o, Same(vs))
    ensures LegViewsIn(AnyPrice, o, Same(vs)) && o.buyVenue != o.sellVenue
  {
    hide Traded, Combine, RateIn, GoodViews, ViewsIn, LegViewsIn, Emitted, GoodPair;
    GoodOf(vs, g);
    LegViewsOf(o, vs, g);
    GoodThePair(o, vs);
    EmittedMeaning(ThePair(o, vs), cfg.settings, o.id - 1, o);
    LegsAreFilled(cfg, c, o, vs);
    LegsFillWithin(cfg, c, o, Same(vs));
  }

  lemma LegViewsOf(o: O.Opp, vs: Views, g: Regime)
    requires ViewsIn(g, vs)
    ensures LegViewsIn(g, o, Same(vs)) && LegViewsIn(AnyPrice, o, Same(vs))
  {
    hide GoodView;
  }

  lemma TradeIsExact(cfg: EngineConfig, c: Core, o: O.Opp, vs: Views, g: Regime)
    requires ViewsIn(g, vs) && SettingsIn(g, cfg.settings) && PricedOn(o, cfg.settings, vs) && Fresh(c, o)
    requires g != AnyPrice && Traded(cfg, c.sim, o, Same(vs)).Done?
    ensures Exact(Traded(cfg, c.sim, o, Same(vs)).value.result)
  {
    hide Traded, Combine, ViewsIn, SettingsIn, PricedOn, LegViewsIn, FilledLegs, RateIn, Exact;
    FilledOf(cfg, c, o, vs, g);
    RegimePair(o, cfg.settings, vs, g);
    LegsAreExact(cfg, c, o, Same(vs), g);
  }

  lemma ExecutionMoves(cfg: EngineConfig, c: Core, o: O.Opp, vs: Views, g: Regime)
    requires ViewsIn(g, vs) && SettingsIn(g, cfg.settings) && PricedOn(o, cfg.settings, vs) && Fresh(c, o)
    requires o.symbol in cfg.symbols && Execute(cfg, c, o, Same(vs)).Done?
    requires Available(c.ledger, (o.sellVenue, BaseOf(o.symbol))) >= o.quantity
    ensures var d := Execute(cfg, c, o, Same(vs)).value;
            Moved(cfg, g, c, d, TradedBy(c, d, o, vs)) && TradedInFull(c.sim, d.sim, o) && d.executed == c.executed + 1
  {
    hide Traded, SettleResult, ViewsIn, SettingsIn, PricedOn, Account, BaseOf, QuoteOf, Combine, RiskAfter;
    hide SoundSettings;
    var d, run := Execute(cfg, c, o, Same(vs)).value, Traded(cfg, c.sim, o, Same(vs)).value;
    FilledOf(cfg, c, o, vs, g);
    OrdersWorkedInFull(cfg, c, o, run);
    ResultFlows(BooksOf(c), o, run.result, {});
    ResultRefuses(BooksOf(c), o, run.result);
    var t := TradeOn(o, vs, run.result.realized);
    OneTrade(t, {});
    forall assets: set<string> | g != AnyPrice
      ensures Account(BooksOf(d), assets) == Account(BooksOf(c), assets) + ProfitIn([t], assets)
    {
      FullTradeFlows(cfg, c, o, vs, g, assets);
      ResultFlows(BooksOf(c), o, run.result, assets);
      OneTrade(t, assets);
    }
    if g == NonnegPrice && SoundSettings(cfg.settings) {
      TradeIsWorth(cfg, c, o, vs, d);
    }
  }

  lemma TradeIsWorth(cfg: EngineConfig, c: Core, o: O.Opp, vs: Views, d: Core)
    requires ViewsIn(NonnegPrice, vs) && SoundSettings(cfg.settings) && PricedOn(o, cfg.settings, vs) && Fresh(c, o)
    requires Execute(cfg, c, o, Same(vs)) == Done(d)
    ensures var t := TradeOn(o, vs, d.ledger.realized - c.ledger.realized); t.profit * SCALE > t.Worth()
  {
    hide Execute, Emitted;
    var v := ViewAt(vs, o.sellVenue, o.symbol);
    GoodThePair(o, vs);
    EmittedMeaning(ThePair(o, vs), cfg.settings, o.id - 1, o);
    ExecutionRealizesPricedProfit(cfg, c, o, vs, v.value, d);
  }

  lemma AttemptMoves(cfg: EngineConfig, c: Core, o: O.Opp, now: int, vs: Views, e: R.ExposureSums, g: Regime, n: nat)
    requires ViewsIn(g, vs) && SettingsIn(g, cfg.settings) && PricedOn(o, cfg.settings, vs)
    requires o.symbol in cfg.symbols && AllFilled(c, n) && n < o.id
    requires MaybeExecuteGiven(cfg, c, o, now, Same(vs), e).Done?
    ensures var d := MaybeExecuteGiven(cfg, c, o, now, Same(vs), e).value;
            Moved(cfg, g, c, d, TradedBy(c, d, o, vs)) && AllFilled(d, o.id)
  {
    hide Moved, PricedOn, ViewsIn, SettingsIn, Execute, R.ReasonsGiven, RequestFor, BaseOf, QuoteOf;
    hide AllFilled, TradedInFull, Fresh;
    var d := MaybeExecuteGiven(cfg, c, o, now, Same(vs), e).value;
    OthersAreFresh(c, n, o);
    if PassesGiven(cfg, c, o, now, Same(vs), e) == Done(true) {
      ExecutionMoves(cfg, c, o, vs, g);
      TradeKeepsFilled(c, d, o, n);
    } else {
      NothingMoved(cfg, g, c);
      StaysFilled(c, n, o.id);
    }
  }

  lemma TradeKeepsFilled(c: Core, d: Core, o: O.Opp, n: nat)
    requires AllFilled(c, n) && n < o.id && TradedInFull(c.sim, d.sim, o) && d.executed == c.executed + 1
    ensures AllFilled(d, o.id)
  {
    OthersAreFresh(c, n, o);
  }

  lemma OthersAreFresh(c: Core, n: nat, o: O.Opp)
    requires AllFilled(c, n) && n < o.id
    ensures Fresh(c, o)
  {
  }

  lemma StaysFilled(c: Core, n: nat, hi: nat)
    requires AllFilled(c, n) && n <= hi
    ensures AllFilled(c, hi)
  {
  }

  /** Whatever order the positions are visited in. */
  lemma {:induction false} ExecutionsMove(cfg: EngineConfig, c: Core, opps: seq<O.Opp>, now: int, vs: Views, g: Regime,
                                          symbol: string, n: nat, hi: nat, d: Core, trades: seq<Trade>)
    requires ViewsIn(g, vs) && SettingsIn(g, cfg.settings)
    requires Batch(opps, cfg.settings, vs, symbol, n, hi) && AllFilled(c, n) && symbol in cfg.symbols
    requires ExecutesBy(cfg, c, opps, now, vs, d, trades)
    ensures Moved(cfg, g, c, d, trades) && AllFilled(d, hi)
    decreases |opps|
  {
    hide Moved, AllFilled, PricedOn, MaybeExecuteGiven, ViewsIn, SettingsIn, R.PossibleSums, RequestFor, TradedBy;
    if opps == [] {
      NothingMoved(cfg, g, c);
      StaysFilled(c, n, hi);
    } else {
      var o := opps[0];
      var e, m, rest := FirstTrade(cfg, c, opps, now, vs, d, trades);
      AttemptMoves(cfg, c, o, now, vs, e, g, n);
      ExecutionsMove(cfg, m, opps[1..], now, vs, g, symbol, o.id, hi, d, rest);
      MovedTwice(cfg, g, c, m, d, TradedBy(c, m, o, vs), rest);
    }
  }

  lemma {:induction false} PassMoves(cfg: EngineConfig, m: Machine, i: nat, vs: Views, clock: Clock, g: Regime,
                                     n: Machine, trades: seq<Trade>)
    requires ViewsIn(g, vs) && SettingsIn(g, cfg.settings)
    requires i <= |cfg.symbols| && AllFilled(m.core, m.counter)
    requires PassesBy(cfg, m, i, vs, clock, n, trades)
    ensures Moved(cfg, g, m.core, n.core, trades) && AllFilled(n.core, n.counter)
    decreases |cfg.symbols| - i
  {
    hide Moved, AllFilled, Batch, ViewsIn, SettingsIn, ExecutesBy, EvaluateFrom, PairsFrom;
    if i == |cfg.symbols| {
      NothingMoved(cfg, g, m.core);
    } else {
      var symbol := cfg.symbols[i];
      var opps, next, first, rest := FirstSymbolTrades(cfg, m, i, vs, clock, n, trades);
      FoundBatch(cfg, vs, symbol, clock.Scan(i), m.counter);
      ExecutionsMove(cfg, m.core, opps, clock.now, vs, g, symbol, m.counter, next.counter, next.core, first);
      PassMoves(cfg, next, i + 1, vs, clock, g, n, rest);
      MovedTwice(cfg, g, m.core, next.core, n.core, first, rest);
    }
  }

  // Books whose prices are those of a regime.

  predicate SideIn(g: Regime, m: Domain.Depth) {
    forall p :: p in m ==> PriceIn(g, p)
  }

  predicate EventIn(g: Regime, ev: MarketEvent) {
    match ev
    case SnapshotEvent(s) => PricesIn(g, s.bids) && PricesIn(g, s.asks)
    case DeltaEvent(d) => PricesIn(g, d.bids) && PricesIn(g, d.asks)
    case TradeEvent => true
  }

  predicate BookIn(g: Regime, b: BookValue) {
    WellFormed(b) && SideIn(g, b.bids) && SideIn(g, b.asks)
  }

  lemma {:induction false} FoldsStayIn(g: Regime, m: Domain.Depth, levels: seq<Level>)
    requires SideIn(g, m) && PricesIn(g, levels)
    ensures SideIn(g, FoldDelta(m, levels)) && SideIn(g, FoldSnapshot(levels))
  {
    hide PriceIn;
    if levels != [] {
      FoldsStayIn(g, m, levels[..|levels| - 1]);
    }
  }

  lemma EventStaysIn(g: Regime, f: Feed, ev: MarketEvent)
    requires BookIn(g, f.book) && EventIn(g, ev)
    ensures BookIn(g, ApplyEvent(f, ev).book)
  {
    hide PriceIn;
    match ev
    case SnapshotEvent(s) =>
      MutationsKeepWellFormed(f.book, s, BookDelta([], [], 0, 0, 0), false);
      FoldsStayIn(g, map[], s.bids);
      FoldsStayIn(g, map[], s.asks);
    case DeltaEvent(d) =>
      MutationsKeepWellFormed(f.book, BookSnapshot([], [], 0, 0), d, false);
      FoldsStayIn(g, f.book.bids, d.bids);
      FoldsStayIn(g, f.book.asks, d.asks);
    case TradeEvent =>
  }

  predicate LanesIn(g: Regime, lanes: Lanes) {
    forall k :: k in lanes ==> BookIn(g, lanes[k].book)
  }

  lemma AppliedStaysIn(g: Regime, lanes: Lanes, k: BookKey, ev: MarketEvent)
    requires LanesIn(g, lanes) && EventIn(g, ev)
    ensures LanesIn(g, Applied(lanes, k, ev))
  {
    hide PriceIn, ApplyEvent, EventIn;
    var all := Registered(lanes, k);
    if k in all {
      EventStaysIn(g, all[k], ev);
    }
  }

  lemma BookInView(g: Regime, b: BookValue)
    requires BookIn(g, b)
    ensures var v := ViewOf(b, PUBLISH_DEPTH); GoodView(v) && PricesIn(g, v.bids) && PricesIn(g, v.asks)
  {
    hide PriceIn;
    ViewOfIsGood(b, PUBLISH_DEPTH);
  }

  lemma VisibleIsIn(g: Regime, lanes: Lanes)
    requires LanesIn(g, lanes)
    ensures ViewsIn(g, Visible(lanes))
  {
    hide PriceIn, BookIn, GoodView, PricesIn, ViewOf;
    forall k | k in Visible(lanes)
      ensures var v := Visible(lanes)[k]; GoodView(v) && PricesIn(g, v.bids) && PricesIn(g, v.asks)
    {
      BookInView(g, lanes[k].book);
    }
  }

  // Whole runs.

  /** All books and events are within a regime, and so are the rates. */
  predicate RunIn(g: Regime, cfg: EngineConfig, lanes: Lanes, ts: seq<Tick>) {
    && SettingsIn(g, cfg.settings) && LanesIn(g, lanes)
    && forall i :: 0 <= i < |ts| ==> EventIn(g, ts[i].event)
  }

  lemma TickMoves(cfg: EngineConfig, s: RunState, t: Tick, g: Regime, r: RunState, trades: seq<Trade>)
    requires SettingsIn(g, cfg.settings) && EventIn(g, t.event)
    requires LanesIn(g, s.lanes) && AllFilled(s.machine.core, s.machine.counter)
    requires TicksBy(cfg, s, t, r, trades)
    ensures Moved(cfg, g, s.machine.core, r.machine.core, trades)
    ensures LanesIn(g, r.lanes) && AllFilled(r.machine.core, r.machine.counter)
  {
    hide Moved, AllFilled, SettingsIn, LanesIn, EventIn, PassesBy, Applied, Visible;
    AppliedStaysIn(g, s.lanes, t.key, t.event);
    VisibleIsIn(g, r.lanes);
    PassMoves(cfg, s.machine, 0, Visible(r.lanes), t.clock, g, r.machine, trades);
  }

  lemma {:induction false} RunMoves(cfg: EngineConfig, s: RunState, ts: seq<Tick>, g: Regime, r: RunState,
                                    trades: seq<Trade>)
    requires RunIn(g, cfg, s.lanes, ts) && AllFilled(s.machine.core, s.machine.counter)
    requires RunsBy(cfg, s, ts, r, trades)
    ensures Moved(cfg, g, s.machine.core, r.machine.core, trades)
    ensures LanesIn(g, r.lanes) && AllFilled(r.machine.core, r.machine.counter)
  {
    if ts == [] {
      NothingMoved(cfg, g, s.machine.core);
    } else {
      hide Moved, AllFilled, SettingsIn, LanesIn, EventIn, TicksBy, RunsBy;
      var init, t := ts[..|ts| - 1], ts[|ts| - 1];
      var m, first, last := LastTrades(cfg, s, ts, r, trades);
      RunMoves(cfg, s, init, g, m, first);
      TickMoves(cfg, m, t, g, r, last);
      MovedTwice(cfg, g, s.machine.core, m.machine.core, r.machine.core, first, last);
    }
  }

  /** The engine as built: risk state, empty simulator, seeded ledger, nothing executed. */
  function Started(limits: R.Limits, seeds: map<Key, Fixed>): Machine {
    Machine(Core(R.RiskState(limits.killSwitch, "", 0, 0), SimState(map[], 0, []), LedgerState(seeds, map[], 0),
                 0, []), 0)
  }

  lemma StartedBooks(limits: R.Limits, seeds: map<Key, Fixed>, assets: set<string>)
    ensures Account(BooksOf(Started(limits, seeds).core), assets) == TotalIn(LedgerState(seeds, map[], 0), assets)
    ensures AllFilled(Started(limits, seeds).core, 0)
  {
  }

  /**
    At prices of any sign, every order a deterministic run ever submitted is filled, two per
    execution, and only buys were ever refused.
   */
  lemma RunFillsOrders(cfg: EngineConfig, seeds: map<Key, Fixed>, lanes: Lanes, ts: seq<Tick>, r: RunState)
    requires RunIn(AnyPrice, cfg, lanes, ts)
    requires RunsTo(cfg, RunState(Started(cfg.limits, seeds), lanes), ts, Done(r))
    ensures var c := r.machine.core;
            && (forall id :: id in c.sim.orders ==> c.sim.orders[id].state == Filled)
            && |c.sim.orders| == 2 * c.executed && OnlyBuysRefused(c.refusals)
  {
    hide RunIn, RunsTo, RunsBy;
    var s := RunState(Started(cfg.limits, seeds), lanes);
    var trades := RunHasTrades(cfg, s, ts, r);
    StartedBooks(cfg.limits, seeds, {});
    RunMoves(cfg, s, ts, AnyPrice, r, trades);
  }

  /**
    Conservation of every asset, quote of some symbols and base of others or not: what is held of
    any assets, refused buys aside, is the seeds plus the profits of the trades quoted in them.
   */
  lemma RunConservesEach(cfg: EngineConfig, seeds: map<Key, Fixed>, lanes: Lanes, ts: seq<Tick>, g: Regime,
                         r: RunState, trades: seq<Trade>, assets: set<string>)
    requires g != AnyPrice && RunIn(g, cfg, lanes, ts)
    requires RunsBy(cfg, RunState(Started(cfg.limits, seeds), lanes), ts, r, trades)
    ensures var c := r.machine.core;
            && TotalIn(c.ledger, assets) + RefusedIn(c.refusals, assets)
               == TotalIn(LedgerState(seeds, map[], 0), assets) + ProfitIn(trades, assets)
            && c.ledger.realized == ProfitSum(trades)
            && (forall i :: 0 <= i < |trades| ==> trades[i].opp.symbol in cfg.symbols)
  {
    hide RunIn, RunsBy, ProfitSum, ProfitIn, TotalIn, RefusedIn;
    var s := RunState(Started(cfg.limits, seeds), lanes);
    StartedBooks(cfg.limits, seeds, assets);
    RunMoves(cfg, s, ts, g, r, trades);
    assert Account(BooksOf(r.machine.core), assets)
           == Account(BooksOf(s.machine.core), assets) + ProfitIn(trades, assets);
  }

  /** Whether the assets include the quotes of all symbols, or of none. */
  predicate AllQuotes(cfg: EngineConfig, assets: set<string>) {
    forall i :: 0 <= i < |cfg.symbols| ==> QuoteOf(cfg.symbols[i]) in assets
  }

  predicate NoQuotes(cfg: EngineConfig, assets: set<string>) {
    forall i :: 0 <= i < |cfg.symbols| ==> QuoteOf(cfg.symbols[i]) !in assets
  }

  /**
    Deterministic-run conservation. From any seeds, over any symbols and any events of a regime,
    and whatever order the positions are visited in: what is held of assets that include all
    quotes, refused buys aside, is their seeds plus the realized profit; what is held of assets
    that are no quotes is their seeds.
   */
  lemma RunConserves(cfg: EngineConfig, seeds: map<Key, Fixed>, lanes: Lanes, ts: seq<Tick>, g: Regime, r: RunState,
                     assets: set<string>)
    requires g != AnyPrice && RunIn(g, cfg, lanes, ts)
    requires RunsTo(cfg, RunState(Started(cfg.limits, seeds), lanes), ts, Done(r))
    ensures var c, l0 := r.machine.core, LedgerState(seeds, map[], 0);
            && (AllQuotes(cfg, assets) ==>
                  TotalIn(c.ledger, assets) + RefusedIn(c.refusals, assets)
                  == TotalIn(l0, assets) + c.ledger.realized)
            && (NoQuotes(cfg, assets) ==>
                  TotalIn(c.ledger, assets) + RefusedIn(c.refusals, assets) == TotalIn(l0, assets))
  {
    hide RunIn, RunsTo, RunsBy, ProfitSum, ProfitIn, TotalIn, RefusedIn, QuoteOf;
    var s := RunState(Started(cfg.limits, seeds), lanes);
    var trades := RunHasTrades(cfg, s, ts, r);
    RunConservesEach(cfg, seeds, lanes, ts, g, r, trades, assets);
    AllOrNothing(trades, assets);
    forall i | 0 <= i < |trades|
      ensures AllQuotes(cfg, assets) ==> QuoteOf(trades[i].opp.symbol) in assets
      ensures NoQuotes(cfg, assets) ==> QuoteOf(trades[i].opp.symbol) !in assets
    {
      var j :| 0 <= j < |cfg.symbols| && cfg.symbols[j] == trades[i].opp.symbol;
    }
  }
}
