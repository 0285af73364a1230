/** The trades by which a deterministic run reaches each of its outcomes. */
module RunTrades {
  import opened Outcomes
  import opened Decimal
  import opened BookSpec
  import opened Walk
  import opened Portfolio
  import opened Markets
  import opened EngineSpec
  import O = Opportunity
  import R = Risk

  /** An executed opportunity, how many bid levels its sale touched, and the profit that was booked. */
  datatype Trade = Trade(opp: O.Opp, levels: nat, profit: int) {
    /** What pricing promised, scaled up, less what rounding can take. */
    function Worth(): int {
      (opp.costing.net + opp.costing.slippage + opp.costing.latency) * SCALE - levels * SCALE - levels * opp.quantity
    }
  }

  /** How many bid levels a sale of `q` takes something from. */
  function BidsTouched(v: View, q: Fixed): nat
    requires GoodView(v)
  {
    if q <= 0 then 0 else Touched(v.bids, q)
  }

  ghost function TradeOn(o: O.Opp, vs: Views, profit: int): Trade {
    var v := ViewAt(vs, o.sellVenue, o.symbol);
    Trade(o, if v.Some? && GoodView(v.value) then BidsTouched(v.value, o.quantity) else 0, profit)
  }

  /** What an attempt that took `c` to `d` traded. */
  ghost function TradedBy(c: Core, d: Core, o: O.Opp, vs: Views): seq<Trade> {
    if d.executed > c.executed then [TradeOn(o, vs, d.ledger.realized - c.ledger.realized)] else []
  }

  /** Some order of the positions takes `c` to `d` by these trades. */
  ghost predicate ExecutesBy(cfg: EngineConfig, c: Core, opps: seq<O.Opp>, now: int, vs: Views, d: Core,
                             trades: seq<Trade>)
    decreases |opps|
  {
    if opps == [] then d == c && trades == []
    else
      exists e: R.ExposureSums ::
        && R.PossibleSums(e, c.ledger, RequestFor(opps[0], now, Same(vs)))
        && match MaybeExecuteGiven(cfg, c, opps[0], now, Same(vs), e)
           case Panicked => false
           case Done(m) =>
             exists rest ::
               ExecutesBy(cfg, m, opps[1..], now, vs, d, rest) && trades == TradedBy(c, m, opps[0], vs) + rest
  }

  ghost predicate PassesBy(cfg: EngineConfig, m: Machine, i: nat, vs: Views, clock: Clock, n: Machine,
                           trades: seq<Trade>)
    requires i <= |cfg.symbols|
    decreases |cfg.symbols| - i
  {
    if i == |cfg.symbols| then n == m && trades == []
    else
      exists opps: seq<O.Opp>, next: Machine, first: seq<Trade>, rest: seq<Trade> ::
        && EvaluateFrom(cfg.settings, vs, cfg.symbols[i], clock.Scan(i), PairsFrom(cfg.venues, 0, 0), [], m.counter)
           == Done((opps, next.counter))
        && ExecutesBy(cfg, m.core, opps, clock.now, vs, next.core, first)
        && PassesBy(cfg, next, i + 1, vs, clock, n, rest) && trades == first + rest
  }

  /** Some order of the positions at each check takes the run to `r` by these trades. */
  ghost predicate RunsBy(cfg: EngineConfig, s: RunState, ts: seq<Tick>, r: RunState, trades: seq<Trade>) {
    if ts == [] then r == s && trades == []
    else
      var init, t := ts[..|ts| - 1], ts[|ts| - 1];
      exists m: RunState, first: seq<Trade>, last: seq<Trade> ::
        RunsBy(cfg, s, init, m, first) && TicksBy(cfg, m, t, r, last) && trades == first + last
  }

  ghost predicate TicksBy(cfg: EngineConfig, s: RunState, t: Tick, r: RunState, trades: seq<Trade>) {
    && r.lanes == Applied(s.lanes, t.key, t.event)
    && PassesBy(cfg, s.machine, 0, Visible(r.lanes), t.clock, r.machine, trades)
  }

  // On the way to an outcome.

  /** The first attempt on the way to `d`, and where it led. */
  lemma FirstAttempt(cfg: EngineConfig, c: Core, opps: seq<O.Opp>, now: int, vs: Views, d: Core)
    returns (e: R.ExposureSums, m: Core)
    requires opps != [] && ExecutesTo(cfg, c, opps, now, vs, Done(d))
    ensures R.PossibleSums(e, c.ledger, RequestFor(opps[0], now, Same(vs)))
    ensures MaybeExecuteGiven(cfg, c, opps[0], now, Same(vs), e) == Done(m)
    ensures ExecutesTo(cfg, m, opps[1..], now, vs, Done(d))
  {
    hide MaybeExecuteGiven, R.PossibleSums, RequestFor;
    e :| && R.PossibleSums(e, c.ledger, RequestFor(opps[0], now, Same(vs)))
         && match MaybeExecuteGiven(cfg, c, opps[0], now, Same(vs), e)
            case Panicked => false
            case Done(d') => ExecutesTo(cfg, d', opps[1..], now, vs, Done(d));
    m := MaybeExecuteGiven(cfg, c, opps[0], now, Same(vs), e).value;
  }

  /** The first symbol on the way to `n`: what its scan found, and where that led. */
  lemma FirstSymbol(cfg: EngineConfig, m: Machine, i: nat, vs: Views, clock: Clock, n: Machine)
    returns (opps: seq<O.Opp>, next: Machine)
    requires i < |cfg.symbols| && PassesTo(cfg, m, i, vs, clock, Done(n))
    ensures EvaluateFrom(cfg.settings, vs, cfg.symbols[i], clock.Scan(i), PairsFrom(cfg.venues, 0, 0), [], m.counter)
            == Done((opps, next.counter))
    ensures ExecutesTo(cfg, m.core, opps, clock.now, vs, Done(next.core))
    ensures PassesTo(cfg, next, i + 1, vs, clock, Done(n))
  {
    hide EvaluateFrom, ExecutesTo, PairsFrom;
    var pairs := PairsFrom(cfg.venues, 0, 0);
    var f := EvaluateFrom(cfg.settings, vs, cfg.symbols[i], clock.Scan(i), pairs, [], m.counter).value;
    var c: Checked<Core> :|
      && ExecutesTo(cfg, m.core, f.0, clock.now, vs, c)
      && match c
         case Panicked => false
         case Done(d) => PassesTo(cfg, Machine(d, f.1), i + 1, vs, clock, Done(n));
    opps, next := f.0, Machine(c.value, f.1);
  }

  /** The last event on the way to `r`, and the state before it. */
  lemma LastTick(cfg: EngineConfig, s: RunState, ts: seq<Tick>, r: RunState) returns (m: RunState)
    requires ts != [] && RunsTo(cfg, s, ts, Done(r))
    ensures RunsTo(cfg, s, ts[..|ts| - 1], Done(m)) && TicksTo(cfg, m, ts[|ts| - 1], Done(r))
  {
    hide TicksTo;
    var c: Checked<RunState> :|
      && RunsTo(cfg, s, ts[..|ts| - 1], c)
      && if c.Panicked? then false else TicksTo(cfg, c.value, ts[|ts| - 1], Done(r));
    m := c.value;
  }

  lemma LastTrades(cfg: EngineConfig, s: RunState, ts: seq<Tick>, r: RunState, trades: seq<Trade>)
    returns (m: RunState, first: seq<Trade>, last: seq<Trade>)
    requires ts != [] && RunsBy(cfg, s, ts, r, trades)
    ensures RunsBy(cfg, s, ts[..|ts| - 1], m, first) && TicksBy(cfg, m, ts[|ts| - 1], r, last)
    ensures trades == first + last
  {
    hide TicksBy;
    var init, t := ts[..|ts| - 1], ts[|ts| - 1];
    m, first, last :| RunsBy(cfg, s, init, m, first) && TicksBy(cfg, m, t, r, last) && trades == first + last;
  }

  lemma FirstTrade(cfg: EngineConfig, c: Core, opps: seq<O.Opp>, now: int, vs: Views, d: Core, trades: seq<Trade>)
    returns (e: R.ExposureSums, m: Core, rest: seq<Trade>)
    requires opps != [] && ExecutesBy(cfg, c, opps, now, vs, d, trades)
    ensures R.PossibleSums(e, c.ledger, RequestFor(opps[0], now, Same(vs)))
    ensures MaybeExecuteGiven(cfg, c, opps[0], now, Same(vs), e) == Done(m)
    ensures ExecutesBy(cfg, m, opps[1..], now, vs, d, rest) && trades == TradedBy(c, m, opps[0], vs) + rest
  {
    hide MaybeExecuteGiven, R.PossibleSums, RequestFor, TradedBy;
    e :| && R.PossibleSums(e, c.ledger, RequestFor(opps[0], now, Same(vs)))
         && match MaybeExecuteGiven(cfg, c, opps[0], now, Same(vs), e)
            case Panicked => false
            case Done(m') =>
              exists tail ::
                ExecutesBy(cfg, m', opps[1..], now, vs, d, tail) && trades == TradedBy(c, m', opps[0], vs) + tail;
    m := MaybeExecuteGiven(cfg, c, opps[0], now, Same(vs), e).value;
    rest :| ExecutesBy(cfg, m, opps[1..], now, vs, d, rest) && trades == TradedBy(c, m, opps[0], vs) + rest;
  }

  lemma FirstSymbolTrades(cfg: EngineConfig, m: Machine, i: nat, vs: Views, clock: Clock, n: Machine,
                          trades: seq<Trade>)
    returns (opps: seq<O.Opp>, next: Machine, first: seq<Trade>, rest: seq<Trade>)
    requires i < |cfg.symbols| && PassesBy(cfg, m, i, vs, clock, n, trades)
    ensures EvaluateFrom(cfg.settings, vs, cfg.symbols[i], clock.Scan(i), PairsFrom(cfg.venues, 0, 0), [], m.counter)
            == Done((opps, next.counter))
    ensures ExecutesBy(cfg, m.core, opps, clock.now, vs, next.core, first)
    ensures PassesBy(cfg, next, i + 1, vs, clock, n, rest) && trades == first + rest
  {
    hide EvaluateFrom, ExecutesBy, PairsFrom;
    opps, next, first, rest :|
      && EvaluateFrom(cfg.settings, vs, cfg.symbols[i], clock.Scan(i), PairsFrom(cfg.venues, 0, 0), [], m.counter)
         == Done((opps, next.counter))
      && ExecutesBy(cfg, m.core, opps, clock.now, vs, next.core, first)
      && PassesBy(cfg, next, i + 1, vs, clock, n, rest) && trades == first + rest;
  }

  // Every outcome of a run is reached by some trades.

  lemma {:induction false} ExecutionHasTrades(cfg: EngineConfig, c: Core, opps: seq<O.Opp>, now: int, vs: Views,
                                              d: Core) returns (trades: seq<Trade>)
    requires ExecutesTo(cfg, c, opps, now, vs, Done(d))
    ensures ExecutesBy(cfg, c, opps, now, vs, d, trades)
    decreases |opps|
  {
    hide MaybeExecuteGiven, R.PossibleSums, RequestFor, TradedBy;
    if opps == [] {
      trades := [];
    } else {
      var e, m := FirstAttempt(cfg, c, opps, now, vs, d);
      var rest := ExecutionHasTrades(cfg, m, opps[1..], now, vs, d);
      trades := TradedBy(c, m, opps[0], vs) + rest;
    }
  }

  lemma {:induction false} PassHasTrades(cfg: EngineConfig, m: Machine, i: nat, vs: Views, clock: Clock, n: Machine)
    returns (trades: seq<Trade>)
    requires i <= |cfg.symbols| && PassesTo(cfg, m, i, vs, clock, Done(n))
    ensures PassesBy(cfg, m, i, vs, clock, n, trades)
    decreases |cfg.symbols| - i
  {
    hide ExecutesTo, ExecutesBy, EvaluateFrom, PairsFrom;
    if i == |cfg.symbols| {
      trades := [];
    } else {
      var opps, next := FirstSymbol(cfg, m, i, vs, clock, n);
      var first := ExecutionHasTrades(cfg, m.core, opps, clock.now, vs, next.core);
      var rest := PassHasTrades(cfg, next, i + 1, vs, clock, n);
      trades := first + rest;
    }
  }

  lemma {:induction false} RunHasTrades(cfg: EngineConfig, s: RunState, ts: seq<Tick>, r: RunState)
    returns (trades: seq<Trade>)
    requires RunsTo(cfg, s, ts, Done(r))
    ensures RunsBy(cfg, s, ts, r, trades)
  {
    hide PassesTo, PassesBy, Applied, Visible;
    if ts == [] {
      trades := [];
    } else {
      var m := LastTick(cfg, s, ts, r);
      var first := RunHasTrades(cfg, s, ts[..|ts| - 1], m);
      var t := ts[|ts| - 1];
      var last := PassHasTrades(cfg, m.machine, 0, Visible(Applied(m.lanes, t.key, t.event)), t.clock, r.machine);
      assert TicksBy(cfg, m, t, r, last);
      trades := first + last;
    }
  }

  // What trades add up to.

  function ProfitSum(trades: seq<Trade>): int {
    if trades == [] then 0 else ProfitSum(trades[..|trades| - 1]) + trades[|trades| - 1].profit
  }

  /** The profit of the trades whose quote is among the assets. */
  function ProfitIn(trades: seq<Trade>, assets: set<string>): int {
    if trades == [] then 0
    else
      var t := trades[|trades| - 1];
      ProfitIn(trades[..|trades| - 1], assets) + (if QuoteOf(t.opp.symbol) in assets then t.profit else 0)
  }

  lemma {:induction false} ProfitsJoin(a: seq<Trade>, b: seq<Trade>, assets: set<string>)
    ensures ProfitSum(a + b) == ProfitSum(a) + ProfitSum(b)
    ensures ProfitIn(a + b, assets) == ProfitIn(a, assets) + ProfitIn(b, assets)
  {
    hide QuoteOf;
    if b == [] {
      assert a + b == a;
    } else {
      var init, last := b[..|b| - 1], b[|b| - 1];
      ProfitsJoin(a, init, assets);
      assert (a + b)[..|a + b| - 1] == a + init && (a + b)[|a + b| - 1] == last;
    }
  }

  /** Where all quotes are among the assets, or none is, that is all of the profit, or nothing. */
  lemma {:induction false} AllOrNothing(trades: seq<Trade>, assets: set<string>)
    ensures (forall i :: 0 <= i < |trades| ==> QuoteOf(trades[i].opp.symbol) in assets) ==>
              ProfitIn(trades, assets) == ProfitSum(trades)
    ensures (forall i :: 0 <= i < |trades| ==> QuoteOf(trades[i].opp.symbol) !in assets) ==>
              ProfitIn(trades, assets) == 0
  {
    hide QuoteOf;
    if trades != [] {
      AllOrNothing(trades[..|trades| - 1], assets);
    }
  }
}
