/**
  Why no position ever is MIN_INT64, the one quantity without an absolute value: as long as no
  two symbols share a base, a position is what its base balance has gained, and a sale leaves
  that balance nonnegative. Prices, rates and views play no part.
 */
module Measurable {
  import opened Outcomes
  import opened Decimal
  import opened Domain
  import opened Markets
  import opened Execution
  import opened Portfolio
  import opened LedgerTheory
  import opened EngineSpec
  import opened Conservation
  import opened DeterministicRun
  import R = Risk
  import O = Opportunity

  /** No base is a quote, and no two symbols share a base. */
  predicate OwnBases(symbols: seq<string>, quotes: set<string>) {
    && (forall s :: s in symbols ==> QuoteOf(s) in quotes && BaseOf(s) !in quotes)
    && (forall s, t :: s in symbols && t in symbols && s != t ==> BaseOf(s) != BaseOf(t))
  }

  /** Each position is what its base balance has gained since `l0`, and none is MIN_INT64. */
  ghost predicate Held(l0: LedgerState, l: LedgerState, symbols: seq<string>) {
    && (forall k :: k in l.positions ==> k.1 in symbols)
    && (forall v: Venue, s: string :: s in symbols ==>
          PositionAt(l, (v, s)).qty == Available(l, (v, BaseOf(s))) - Available(l0, (v, BaseOf(s))))
    && NoMinPosition(l)
  }

  /** What a settlement of a symbol does to positions and base balances, whatever its amounts. */
  ghost predicate Shifts(l: LedgerState, l': LedgerState, v: Venue, symbol: string, quotes: set<string>, moved: int) {
    && (forall k: Key :: k.1 !in quotes ==>
          Available(l', k) == Available(l, k) + (if k == (v, BaseOf(symbol)) then moved else 0))
    && (forall k: Key :: PositionAt(l', k).qty == PositionAt(l, k).qty + (if k == (v, symbol) then moved else 0))
    && (forall k :: k in l'.positions ==> k in l.positions || k == (v, symbol))
  }

  lemma BuyMoves(l: LedgerState, v: Venue, symbol: string, px: Fixed, qty: Fixed, fee: Fixed, quotes: set<string>)
    requires QuoteOf(symbol) in quotes && BaseOf(symbol) !in quotes
    requires BuyApplied(l, v, symbol, BaseOf(symbol), QuoteOf(symbol), px, qty, fee).Done?
    ensures var (l', ok) := BuyApplied(l, v, symbol, BaseOf(symbol), QuoteOf(symbol), px, qty, fee).value;
            Shifts(l, l', v, symbol, quotes, if ok then qty else 0)
  {
    hide BuyApplied, Notional, BaseOf, QuoteOf, Available;
    BuyEffect(l, v, symbol, BaseOf(symbol), QuoteOf(symbol), px, qty, fee);
  }

  lemma SaleMoves(l: LedgerState, v: Venue, symbol: string, px: Fixed, qty: Fixed, fee: Fixed, quotes: set<string>)
    requires QuoteOf(symbol) in quotes && BaseOf(symbol) !in quotes
    requires SellApplied(l, v, symbol, BaseOf(symbol), QuoteOf(symbol), px, qty, fee).Done?
    ensures var (l', ok) := SellApplied(l, v, symbol, BaseOf(symbol), QuoteOf(symbol), px, qty, fee).value;
            && Shifts(l, l', v, symbol, quotes, if ok then Minus(qty) else 0)
            && (ok && qty != MIN_INT64 ==> Available(l', (v, BaseOf(symbol))) >= 0)
  {
    hide SellApplied, Notional, BaseOf, QuoteOf, Available;
    SellEffect(l, v, symbol, BaseOf(symbol), QuoteOf(symbol), px, qty, fee);
  }

  /** A move keeps positions at what their balances gained; a sale must leave its balance nonnegative. */
  lemma MoveKeepsHeld(l0: LedgerState, l: LedgerState, l': LedgerState, v: Venue, symbol: string,
                      symbols: seq<string>, quotes: set<string>, moved: int)
    requires OwnBases(symbols, quotes) && symbol in symbols && Held(l0, l, symbols)
    requires Shifts(l, l', v, symbol, quotes, moved)
    requires moved < 0 ==> Available(l', (v, BaseOf(symbol))) >= 0
    ensures Held(l0, l', symbols)
  {
    hide BaseOf, QuoteOf;
    forall k | k in l'.positions
      ensures k.1 in symbols && l'.positions[k].qty != MIN_INT64
    {
      assert l'.positions[k] == PositionAt(l', k);
      assert Available(l0, (v, BaseOf(symbol))) <= MAX_INT64;
    }
  }

  lemma ResultKeepsHeld(l0: LedgerState, b: Books, o: O.Opp, res: ArbResult, symbols: seq<string>, quotes: set<string>)
    requires OwnBases(symbols, quotes) && o.symbol in symbols && Held(l0, b.ledger, symbols)
    requires SettleResult(b, o, res).Done?
    ensures Held(l0, SettleResult(b, o, res).value.ledger, symbols)
  {
    BuyKeepsHeld(l0, b, o, res.buy, symbols, quotes);
    var bought := SettleBuy(b, o, res.buy).value;
    SaleKeepsHeld(l0, bought, o, res.sell, symbols, quotes);
    var sold := SettleSell(bought, o, res.sell).value;
    SamePositionsHeld(l0, sold.ledger, SettleResult(b, o, res).value.ledger, symbols);
  }

  lemma BuyKeepsHeld(l0: LedgerState, b: Books, o: O.Opp, leg: Leg, symbols: seq<string>, quotes: set<string>)
    requires OwnBases(symbols, quotes) && o.symbol in symbols && Held(l0, b.ledger, symbols)
    requires SettleBuy(b, o, leg).Done?
    ensures Held(l0, SettleBuy(b, o, leg).value.ledger, symbols)
  {
    hide BuyApplied, Shifts, Held;
    if leg.filledQty > 0 {
      BuyMoves(b.ledger, o.buyVenue, o.symbol, leg.vwap, leg.filledQty, leg.fee, quotes);
      var (l', ok) := BuyApplied(b.ledger, o.buyVenue, o.symbol, BaseOf(o.symbol), QuoteOf(o.symbol),
                                 leg.vwap, leg.filledQty, leg.fee).value;
      MoveKeepsHeld(l0, b.ledger, l', o.buyVenue, o.symbol, symbols, quotes, if ok then leg.filledQty else 0);
    }
  }

  lemma SaleKeepsHeld(l0: LedgerState, b: Books, o: O.Opp, leg: Leg, symbols: seq<string>, quotes: set<string>)
    requires OwnBases(symbols, quotes) && o.symbol in symbols && Held(l0, b.ledger, symbols)
    requires SettleSell(b, o, leg).Done?
    ensures Held(l0, SettleSell(b, o, leg).value.ledger, symbols)
  {
    hide SellApplied, Shifts, Held;
    if leg.filledQty > 0 {
      SaleMoves(b.ledger, o.sellVenue, o.symbol, leg.vwap, leg.filledQty, leg.fee, quotes);
      var (l', ok) := SellApplied(b.ledger, o.sellVenue, o.symbol, BaseOf(o.symbol), QuoteOf(o.symbol),
                                  leg.vwap, leg.filledQty, leg.fee).value;
      MoveKeepsHeld(l0, b.ledger, l', o.sellVenue, o.symbol, symbols, quotes, if ok then 0 - leg.filledQty else 0);
    }
  }

  lemma SamePositionsHeld(l0: LedgerState, l: LedgerState, l': LedgerState, symbols: seq<string>)
    requires Held(l0, l, symbols) && l'.positions == l.positions && l'.balances == l.balances
    ensures Held(l0, l', symbols)
  {
    hide BaseOf;
    assert forall k: Key :: PositionAt(l', k) == PositionAt(l, k) && Available(l', k) == Available(l, k);
  }

  /** An attempt on a configured symbol, live or not, and whatever its exposures came to. */
  lemma AttemptKeepsHeld(l0: LedgerState, cfg: EngineConfig, c: Core, o: O.Opp, now: int, seen: Reads,
                         e: R.ExposureSums, quotes: set<string>)
    requires OwnBases(cfg.symbols, quotes) && o.symbol in cfg.symbols && Held(l0, c.ledger, cfg.symbols)
    requires MaybeExecuteGiven(cfg, c, o, now, seen, e).Done?
    ensures Held(l0, MaybeExecuteGiven(cfg, c, o, now, seen, e).value.ledger, cfg.symbols)
  {
    hide PassesGiven, Traded, SettleResult, Held, OwnBases;
    if PassesGiven(cfg, c, o, now, seen, e) == Done(true) {
      ResultKeepsHeld(l0, BooksOf(c), o, Traded(cfg, c.sim, o, seen).value.result, cfg.symbols, quotes);
    }
  }

  // Whole runs.

  predicate AllOf(opps: seq<O.Opp>, symbol: string) {
    forall i :: 0 <= i < |opps| ==> opps[i].symbol == symbol
  }

  lemma {:induction false} FoundSymbols(s: O.Settings, vs: Views, symbol: string, now: int, pairs: seq<(Venue, Venue)>,
                                        found: seq<O.Opp>, counter: nat)
    requires AllOf(found, symbol) && EvaluateFrom(s, vs, symbol, now, pairs, found, counter).Done?
    ensures AllOf(EvaluateFrom(s, vs, symbol, now, pairs, found, counter).value.0, symbol)
    decreases |pairs|
  {
    if pairs != [] {
      var e := O.EvaluatePair(PairOf(vs, symbol, pairs[0], now), s, counter).value;
      if e.Found? {
        FoundMeaning(PairOf(vs, symbol, pairs[0], now), s, counter, e.opp);
        FoundSymbols(s, vs, symbol, now, pairs[1..], found + [e.opp], counter + 1);
      } else {
        FoundSymbols(s, vs, symbol, now, pairs[1..], found, counter);
      }
    }
  }

  lemma {:induction false} ExecutionsAreMeasurable(l0: LedgerState, cfg: EngineConfig, c: Core, opps: seq<O.Opp>,
                                                   now: int, vs: Views, quotes: set<string>, symbol: string)
    requires OwnBases(cfg.symbols, quotes) && symbol in cfg.symbols && AllOf(opps, symbol)
    requires Held(l0, c.ledger, cfg.symbols)
    ensures ChecksMeasurable(cfg, c, opps, now, vs)
    ensures ExecuteFrom(cfg, c, opps, now, vs).Done? ==>
              Held(l0, ExecuteFrom(cfg, c, opps, now, vs).value.ledger, cfg.symbols)
    decreases |opps|
  {
    hide MaybeExecuteGiven, OwnBases, ExactSums;
    if opps != [] && MaybeExecute(cfg, c, opps[0], now, Same(vs)).Done? {
      var d := MaybeExecute(cfg, c, opps[0], now, Same(vs)).value;
      AttemptKeepsHeld(l0, cfg, c, opps[0], now, Same(vs), ExactSums(c, opps[0], now, Same(vs)), quotes);
      ExecutionsAreMeasurable(l0, cfg, d, opps[1..], now, vs, quotes, symbol);
    }
  }

  lemma {:induction false} PassIsMeasurable(l0: LedgerState, cfg: EngineConfig, m: Machine, i: nat, vs: Views,
                                            clock: Clock, quotes: set<string>)
    requires OwnBases(cfg.symbols, quotes) && i <= |cfg.symbols| && Held(l0, m.core.ledger, cfg.symbols)
    ensures PassMeasurable(cfg, m, i, vs, clock)
    ensures PassFrom(cfg, m, i, vs, clock).Done? ==>
              Held(l0, PassFrom(cfg, m, i, vs, clock).value.core.ledger, cfg.symbols)
    decreases |cfg.symbols| - i
  {
    hide Held, OwnBases, EvaluateFrom, ExecuteFrom, ChecksMeasurable;
    if i < |cfg.symbols| {
      var symbol, pairs := cfg.symbols[i], PairsFrom(cfg.venues, 0, 0);
      var r := EvaluateFrom(cfg.settings, vs, symbol, clock.Scan(i), pairs, [], m.counter);
      if r.Done? {
        FoundSymbols(cfg.settings, vs, symbol, clock.Scan(i), pairs, [], m.counter);
        ExecutionsAreMeasurable(l0, cfg, m.core, r.value.0, clock.now, vs, quotes, symbol);
        var c := ExecuteFrom(cfg, m.core, r.value.0, clock.now, vs);
        if c.Done? {
          PassIsMeasurable(l0, cfg, Machine(c.value, r.value.1), i + 1, vs, clock, quotes);
        }
      }
    }
  }

  /**
    In a run of an engine whose symbols have bases of their own, no check ever meets a position
    of MIN_INT64, so the order of the positions decides nothing and the run has one outcome.
   */
  lemma {:induction false} RunIsMeasurable(cfg: EngineConfig, s: RunState, ts: seq<Tick>, quotes: set<string>)
    requires OwnBases(cfg.symbols, quotes) && s.machine.core.ledger.positions == map[]
    ensures RunMeasurable(cfg, s, ts)
    ensures RunOf(cfg, s, ts).Done? ==>
              Held(s.machine.core.ledger, RunOf(cfg, s, ts).value.machine.core.ledger, cfg.symbols)
  {
    hide OwnBases, PassFrom, PassMeasurable;
    if ts != [] {
      var init, t := ts[..|ts| - 1], ts[|ts| - 1];
      RunIsMeasurable(cfg, s, init, quotes);
      var r := RunOf(cfg, s, init);
      if r.Done? {
        PassIsMeasurable(s.machine.core.ledger, cfg, r.value.machine, 0,
                         Visible(Applied(r.value.lanes, t.key, t.event)), t.clock, quotes);
      }
    }
  }
}
