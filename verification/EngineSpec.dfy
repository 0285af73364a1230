/**
  The supervisor's execution path as a function on values: gate, submit, execute, settle
  (internal/engine/engine.go), and the evaluation passes of a deterministic run.
 */
module EngineSpec {
  import opened Outcomes
  import opened Decimal
  import opened Domain
  import opened BookSpec
  import opened Markets
  import opened Orders
  import opened Execution
  import opened Portfolio
  import R = Risk
  import O = Opportunity

  /**
    Live books move under the evaluator: the risk check, the mid lookups and each leg read
    views of their own. A deterministic run reads the same views throughout.
   */
  datatype Reads = Reads(check: Views, mids: Views, buyLeg: Views, sellLeg: Views)

  function Same(vs: Views): Reads {
    Reads(vs, vs, vs, vs)
  }

  /** A buy or sell that the ledger refused to settle: the journal's error lines. */
  datatype Refusal = Refusal(sale: bool, venue: Venue, symbol: string, qty: Fixed, amount: int)

  datatype Core = Core(
    risk: R.RiskState, sim: SimState, ledger: LedgerState, executed: nat, refusals: seq<Refusal>)

  datatype EngineConfig = EngineConfig(
    limits: R.Limits, settings: O.Settings, policy: Policy, symbols: seq<string>, venues: seq<Venue>)

  /** The midpoint of the best bid and ask, if the view has both. */
  function MidOf(view: Option<View>): Checked<Option<Fixed>> {
    if view.None? || view.value.bids == [] || view.value.asks == [] then Done(None)
    else
      var sum :- Add(view.value.bids[0].price, view.value.asks[0].price);
      var mid :- Div(sum, 2 * SCALE);
      Done(Some(mid))
  }

  function RequestFor(o: O.Opp, now: int, seen: Reads): R.Request {
    R.Request(now, o.buyVenue, o.sellVenue, o.quantity, o.buyVWAP, o.costing.net,
              ViewAt(seen.check, o.buyVenue, o.symbol), ViewAt(seen.check, o.sellVenue, o.symbol),
              MidOf(ViewAt(seen.mids, o.buyVenue, o.symbol)), MidOf(ViewAt(seen.mids, o.sellVenue, o.symbol)))
  }

  function OrderFor(o: O.Opp, side: Side): OrderData {
    OrderData(0, ForOpportunity(o.id, side), if side == Buy then o.buyVenue else o.sellVenue, o.symbol,
              side, Market, 0, o.quantity, 0, 0, Pending)
  }

  /** Submits both orders of an opportunity. */
  function SubmitBoth(s: SimState, o: O.Opp): SimState {
    Submitted(Submitted(s, OrderFor(o, Buy)), OrderFor(o, Sell))
  }

  /** Both orders worked in place. */
  function OrdersWorked(s: SimState, run: ArbRun, policy: Policy): SimState {
    s.(orders := s.orders[run.buyOrder.clientOrderID := run.buyOrder][run.sellOrder.clientOrderID := run.sellOrder],
       sink := if policy == SellFirst then s.sink + run.sellFills + run.buyFills
               else s.sink + run.buyFills + run.sellFills)
  }

  /** Two orders open and close around an execution; its result counts toward the kill switch. */
  function RiskAfter(l: R.Limits, s: R.RiskState, success: bool): R.RiskState {
    var closed := R.Closed(R.Closed(R.Opened(R.Opened(s))));
    var noted := R.Noted(closed, success);
    if l.maxConsecutiveFails > 0 && noted.consecutiveFails >= l.maxConsecutiveFails
    then R.Killed(noted, "max_consecutive_failures")
    else noted
  }

  datatype Books = Books(ledger: LedgerState, refusals: seq<Refusal>)

  /** `amount` is what the refused buy would have cost. */
  function RefusedBuy(o: O.Opp, leg: Leg): Refusal {
    Refusal(false, o.buyVenue, o.symbol, leg.filledQty, Notional(leg.vwap, leg.filledQty) + leg.fee)
  }

  /** `amount` is what the refused sale would have brought. */
  function RefusedSale(o: O.Opp, leg: Leg): Refusal {
    Refusal(true, o.sellVenue, o.symbol, leg.filledQty, Notional(leg.vwap, leg.filledQty) + Negate(leg.fee))
  }

  function SettleBuy(b: Books, o: O.Opp, leg: Leg): Checked<Books> {
    if leg.filledQty <= 0 then Done(b)
    else
      var (l, ok) :- BuyApplied(b.ledger, o.buyVenue, o.symbol, BaseOf(o.symbol), QuoteOf(o.symbol),
                                leg.vwap, leg.filledQty, leg.fee);
      Done(Books(l, if ok then b.refusals else b.refusals + [RefusedBuy(o, leg)]))
  }

  function SettleSell(b: Books, o: O.Opp, leg: Leg): Checked<Books> {
    if leg.filledQty <= 0 then Done(b)
    else
      var (l, ok) :- SellApplied(b.ledger, o.sellVenue, o.symbol, BaseOf(o.symbol), QuoteOf(o.symbol),
                                 leg.vwap, leg.filledQty, leg.fee);
      Done(Books(l, if ok then b.refusals else b.refusals + [RefusedSale(o, leg)]))
  }

  /** Both settlements are attempted, and the realized profit is booked whatever became of them. */
  function SettleResult(b: Books, o: O.Opp, res: ArbResult): Checked<Books> {
    var bought :- SettleBuy(b, o, res.buy);
    var sold :- SettleSell(bought, o, res.sell);
    var l :- RealizedAdded(sold.ledger, res.realized);
    Done(sold.(ledger := l))
  }

  /** The inventory check: quote for the priced notional, without its fee, and base for the quantity. */
  function HasInventory(l: LedgerState, o: O.Opp, buyNotional: Fixed): bool {
    && Available(l, (o.buyVenue, QuoteOf(o.symbol))) >= buyNotional
    && Available(l, (o.sellVenue, BaseOf(o.symbol))) >= o.quantity
  }

  /** The two orders of an opportunity, as the simulator holds them once submitted, worked against their books. */
  function Traded(cfg: EngineConfig, s: SimState, o: O.Opp, seen: Reads): Checked<ArbRun> {
    var sim := SubmitBoth(s, o);
    var buy, sell := sim.orders[ForOpportunity(o.id, Buy)], sim.orders[ForOpportunity(o.id, Sell)];
    Arbitrage(buy, sell, ViewAt(seen.buyLeg, buy.venue, buy.symbol), ViewAt(seen.sellLeg, sell.venue, sell.symbol),
              TakerBps(cfg.settings.fees, buy.venue), TakerBps(cfg.settings.fees, sell.venue))
  }

  /** Submission, execution and settlement, once the checks have passed. */
  function Execute(cfg: EngineConfig, c: Core, o: O.Opp, seen: Reads): Checked<Core> {
    var run :- Traded(cfg, c.sim, o, seen);
    var books :- SettleResult(Books(c.ledger, c.refusals), o, run.result);
    var success := run.result.buy.filledQty > 0 && run.result.sell.filledQty > 0;
    Done(Core(RiskAfter(cfg.limits, c.risk, success), OrdersWorked(SubmitBoth(c.sim, o), run, cfg.policy),
              books.ledger, c.executed + 1, books.refusals))
  }

  /** Whether an opportunity passes the risk check and the inventory check, given what the exposures came to. */
  function PassesGiven(cfg: EngineConfig, c: Core, o: O.Opp, now: int, seen: Reads, e: R.ExposureSums): Checked<bool> {
    var reasons :- R.ReasonsGiven(cfg.limits, c.risk, RequestFor(o, now, seen), c.ledger.realized, e);
    if reasons != [] then Done(false)
    else
      var buyNotional :- Mul(o.buyVWAP, o.quantity);
      Done(HasInventory(c.ledger, o, buyNotional))
  }

  /** The risk check has formed the product that the inventory check needs. */
  lemma CheckedProduct(cfg: EngineConfig, c: Core, o: O.Opp, now: int, seen: Reads, e: R.ExposureSums)
    requires R.ReasonsGiven(cfg.limits, c.risk, RequestFor(o, now, seen), c.ledger.realized, e).Done?
    ensures Mul(o.buyVWAP, o.quantity).Done?
  {
  }

  /** maybeExecute, given what the exposures came to. */
  function MaybeExecuteGiven(cfg: EngineConfig, c: Core, o: O.Opp, now: int, seen: Reads, e: R.ExposureSums):
    Checked<Core> {
    var passes :- PassesGiven(cfg, c, o, now, seen, e);
    if passes then Execute(cfg, c, o, seen) else Done(c)
  }

  /** The exposures behind a check that do not depend on the order of the positions. */
  ghost function ExactSums(c: Core, o: O.Opp, now: int, seen: Reads): R.ExposureSums {
    R.ExactSums(c.ledger, RequestFor(o, now, seen))
  }

  /** maybeExecute, where the order of the positions does not matter. */
  ghost function MaybeExecute(cfg: EngineConfig, c: Core, o: O.Opp, now: int, seen: Reads): Checked<Core> {
    MaybeExecuteGiven(cfg, c, o, now, seen, ExactSums(c, o, now, seen))
  }

  // Evaluation passes.

  /** The ordered pairs of distinct venues still to come at row i, column j of the nested scan. */
  function PairsFrom(vs: seq<Venue>, i: nat, j: nat): seq<(Venue, Venue)>
    requires i <= |vs| && j <= |vs|
    decreases |vs| - i, |vs| - j
  {
    if i == |vs| then []
    else if j == |vs| then PairsFrom(vs, i + 1, 0)
    else (if vs[i] == vs[j] then [] else [(vs[i], vs[j])]) + PairsFrom(vs, i, j + 1)
  }

  /** After the last column comes the next row, and after the last row nothing. */
  lemma RowEnds(vs: seq<Venue>, i: nat)
    requires i < |vs|
    ensures PairsFrom(vs, i, |vs|) == PairsFrom(vs, i + 1, 0)
  {
  }

  lemma ScanEnds(vs: seq<Venue>)
    ensures PairsFrom(vs, |vs|, 0) == []
  {
  }

  function PairOf(vs: Views, symbol: string, venues: (Venue, Venue), now: int): O.Pair {
    O.Pair(symbol, venues.0, venues.1, ViewAt(vs, venues.0, symbol), ViewAt(vs, venues.1, symbol), now)
  }

  /** Evaluates the pairs in order, collecting what is found; ids count up from `counter`. */
  function EvaluateFrom(s: O.Settings, vs: Views, symbol: string, now: int, pairs: seq<(Venue, Venue)>,
                        found: seq<O.Opp>, counter: nat): Checked<(seq<O.Opp>, nat)>
    decreases |pairs|
  {
    if pairs == [] then Done((found, counter))
    else
      var e :- O.EvaluatePair(PairOf(vs, symbol, pairs[0], now), s, counter);
      if e.Found? then EvaluateFrom(s, vs, symbol, now, pairs[1..], found + [e.opp], counter + 1)
      else EvaluateFrom(s, vs, symbol, now, pairs[1..], found, counter)
  }

  lemma NothingToScan(s: O.Settings, vs: Views, symbol: string, now: int, found: seq<O.Opp>, counter: nat)
    ensures EvaluateFrom(s, vs, symbol, now, [], found, counter) == Done((found, counter))
  {
  }

  /** One step of the nested scan. */
  lemma ScanStep(s: O.Settings, vs: Views, symbol: string, now: int, venues: seq<Venue>, i: nat, j: nat,
                 found: seq<O.Opp>, counter: nat)
    requires i < |venues| && j < |venues|
    ensures EvaluateFrom(s, vs, symbol, now, PairsFrom(venues, i, j), found, counter)
            == if venues[i] == venues[j]
               then EvaluateFrom(s, vs, symbol, now, PairsFrom(venues, i, j + 1), found, counter)
               else match O.EvaluatePair(PairOf(vs, symbol, (venues[i], venues[j]), now), s, counter)
                    case Panicked => Panicked
                    case Done(e) =>
                      if e.Found?
                      then EvaluateFrom(s, vs, symbol, now, PairsFrom(venues, i, j + 1), found + [e.opp], counter + 1)
                      else EvaluateFrom(s, vs, symbol, now, PairsFrom(venues, i, j + 1), found, counter)
  {
    var rest := PairsFrom(venues, i, j + 1);
    if venues[i] == venues[j] {
      assert PairsFrom(venues, i, j) == rest;
    } else {
      assert PairsFrom(venues, i, j) == [(venues[i], venues[j])] + rest;
      assert PairsFrom(venues, i, j)[1..] == rest;
    }
  }

  ghost function ExecuteFrom(cfg: EngineConfig, c: Core, opps: seq<O.Opp>, now: int, vs: Views): Checked<Core>
    decreases |opps|
  {
    if opps == [] then Done(c)
    else
      var d :- MaybeExecute(cfg, c, opps[0], now, Same(vs));
      ExecuteFrom(cfg, d, opps[1..], now, vs)
  }

  /** A call's outcome: a panic, or the state it leaves. */
  function Ended<T>(r: Checked<()>, x: T): Checked<T> {
    if r.Panicked? then Panicked else Done(x)
  }

  /** `r` is what some order of the positions at each risk check makes of the opportunities. */
  ghost predicate ExecutesTo(cfg: EngineConfig, c: Core, opps: seq<O.Opp>, now: int, vs: Views, r: Checked<Core>)
    decreases |opps|
  {
    if opps == [] then r == Done(c)
    else
      exists e: R.ExposureSums ::
        && R.PossibleSums(e, c.ledger, RequestFor(opps[0], now, Same(vs)))
        && match MaybeExecuteGiven(cfg, c, opps[0], now, Same(vs), e)
           case Panicked => r.Panicked?
           case Done(d) => ExecutesTo(cfg, d, opps[1..], now, vs, r)
  }

  /** Whatever the opportunities from the j-th on make of `c`, all of them can make of `start`. */
  ghost predicate ExecutionLeads(cfg: EngineConfig, start: Core, opps: seq<O.Opp>, c: Core, j: nat, now: int,
                                 vs: Views) {
    j <= |opps| && forall r :: ExecutesTo(cfg, c, opps[j..], now, vs, r) ==> ExecutesTo(cfg, start, opps, now, vs, r)
  }

  lemma ExecutionStep(cfg: EngineConfig, start: Core, opps: seq<O.Opp>, c: Core, j: nat, now: int, vs: Views,
                      e: R.ExposureSums)
    requires ExecutionLeads(cfg, start, opps, c, j, now, vs) && j < |opps|
    requires R.PossibleSums(e, c.ledger, RequestFor(opps[j], now, Same(vs)))
    ensures match MaybeExecuteGiven(cfg, c, opps[j], now, Same(vs), e)
            case Panicked => ExecutesTo(cfg, start, opps, now, vs, Panicked)
            case Done(d) => ExecutionLeads(cfg, start, opps, d, j + 1, now, vs)
  {
    hide MaybeExecuteGiven, R.PossibleSums, RequestFor;
    assert opps[j..][1..] == opps[j + 1..];
  }

  lemma ExecutionEnd(cfg: EngineConfig, start: Core, opps: seq<O.Opp>, c: Core, now: int, vs: Views)
    requires ExecutionLeads(cfg, start, opps, c, |opps|, now, vs)
    ensures ExecutesTo(cfg, start, opps, now, vs, Done(c))
  {
    assert ExecutesTo(cfg, c, opps[|opps|..], now, vs, Done(c));
  }

  /** The engine between events: everything executed so far, and the opportunity counter. */
  datatype Machine = Machine(core: Core, counter: nat)

  /** When a pass runs: its own clock reading, and the one of each symbol's scan. */
  datatype Clock = Clock(now: int, scans: seq<int>) {
    function Scan(i: nat): (t: int)
      ensures i < |scans| ==> t == scans[i]
      ensures i >= |scans| ==> t == now
    {
      if i < |scans| then scans[i] else now
    }
  }

  /** EvaluateOnce from the i-th symbol on: scan all pairs of a symbol, then try what was found. */
  ghost function PassFrom(cfg: EngineConfig, m: Machine, i: nat, vs: Views, clock: Clock): Checked<Machine>
    requires i <= |cfg.symbols|
    decreases |cfg.symbols| - i
  {
    if i == |cfg.symbols| then Done(m)
    else
      var pairs := PairsFrom(cfg.venues, 0, 0);
      var r :- EvaluateFrom(cfg.settings, vs, cfg.symbols[i], clock.Scan(i), pairs, [], m.counter);
      var c :- ExecuteFrom(cfg, m.core, r.0, clock.now, vs);
      PassFrom(cfg, Machine(c, r.1), i + 1, vs, clock)
  }

  /** At none of these risk checks is a position the one quantity whose absolute value does not exist. */
  ghost predicate ChecksMeasurable(cfg: EngineConfig, c: Core, opps: seq<O.Opp>, now: int, vs: Views)
    decreases |opps|
  {
    opps != [] ==>
      && NoMinPosition(c.ledger)
      && var d := MaybeExecute(cfg, c, opps[0], now, Same(vs));
         d.Done? ==> ChecksMeasurable(cfg, d.value, opps[1..], now, vs)
  }

  ghost predicate PassMeasurable(cfg: EngineConfig, m: Machine, i: nat, vs: Views, clock: Clock)
    requires i <= |cfg.symbols|
    decreases |cfg.symbols| - i
  {
    i < |cfg.symbols| ==>
      var pairs := PairsFrom(cfg.venues, 0, 0);
      var r := EvaluateFrom(cfg.settings, vs, cfg.symbols[i], clock.Scan(i), pairs, [], m.counter);
      r.Done? ==>
        && ChecksMeasurable(cfg, m.core, r.value.0, clock.now, vs)
        && var c := ExecuteFrom(cfg, m.core, r.value.0, clock.now, vs);
           c.Done? ==> PassMeasurable(cfg, Machine(c.value, r.value.1), i + 1, vs, clock)
  }

  /** Where there is no such position, the order of the positions decides nothing. */
  lemma {:induction false} MeasurableExecution(cfg: EngineConfig, c: Core, opps: seq<O.Opp>, now: int, vs: Views,
                                               r: Checked<Core>)
    requires ChecksMeasurable(cfg, c, opps, now, vs) && ExecutesTo(cfg, c, opps, now, vs, r)
    ensures r == ExecuteFrom(cfg, c, opps, now, vs)
    decreases |opps|
  {
    hide MaybeExecuteGiven, R.PossibleSums, R.ExactSums, RequestFor;
    if opps != [] {
      var q := RequestFor(opps[0], now, Same(vs));
      var e :| R.PossibleSums(e, c.ledger, q)
               && match MaybeExecuteGiven(cfg, c, opps[0], now, Same(vs), e)
                  case Panicked => r.Panicked?
                  case Done(d) => ExecutesTo(cfg, d, opps[1..], now, vs, r);
      R.SumsAreExact(e, c.ledger, q);
      var d := MaybeExecute(cfg, c, opps[0], now, Same(vs));
      if d.Done? {
        MeasurableExecution(cfg, d.value, opps[1..], now, vs, r);
      }
    }
  }

  /** `r` is what some order of the positions at each risk check makes of the rest of a pass. */
  ghost predicate PassesTo(cfg: EngineConfig, m: Machine, i: nat, vs: Views, clock: Clock, r: Checked<Machine>)
    requires i <= |cfg.symbols|
    decreases |cfg.symbols| - i
  {
    if i == |cfg.symbols| then r == Done(m)
    else
      var pairs := PairsFrom(cfg.venues, 0, 0);
      match EvaluateFrom(cfg.settings, vs, cfg.symbols[i], clock.Scan(i), pairs, [], m.counter)
      case Panicked => r.Panicked?
      case Done(f) =>
        exists c: Checked<Core> ::
          && ExecutesTo(cfg, m.core, f.0, clock.now, vs, c)
          && match c
             case Panicked => r.Panicked?
             case Done(d) => PassesTo(cfg, Machine(d, f.1), i + 1, vs, clock, r)
  }

  ghost predicate PassLeads(cfg: EngineConfig, start: Machine, m: Machine, i: nat, vs: Views, clock: Clock) {
    i <= |cfg.symbols| && forall r :: PassesTo(cfg, m, i, vs, clock, r) ==> PassesTo(cfg, start, 0, vs, clock, r)
  }

  /** One symbol more: its scan panics, or what it found is tried. */
  lemma PassStep(cfg: EngineConfig, start: Machine, m: Machine, i: nat, vs: Views, clock: Clock, c: Checked<Core>)
    requires PassLeads(cfg, start, m, i, vs, clock) && i < |cfg.symbols|
    ensures match EvaluateFrom(cfg.settings, vs, cfg.symbols[i], clock.Scan(i), PairsFrom(cfg.venues, 0, 0), [],
                               m.counter)
            case Panicked => PassesTo(cfg, start, 0, vs, clock, Panicked)
            case Done(f) =>
              ExecutesTo(cfg, m.core, f.0, clock.now, vs, c) ==>
                if c.Panicked? then PassesTo(cfg, start, 0, vs, clock, Panicked)
                else PassLeads(cfg, start, Machine(c.value, f.1), i + 1, vs, clock)
  {
    hide EvaluateFrom, ExecutesTo, PairsFrom;
  }

  lemma PassEnd(cfg: EngineConfig, start: Machine, m: Machine, vs: Views, clock: Clock)
    requires PassLeads(cfg, start, m, |cfg.symbols|, vs, clock)
    ensures PassesTo(cfg, start, 0, vs, clock, Done(m))
  {
    assert PassesTo(cfg, m, |cfg.symbols|, vs, clock, Done(m));
  }

  lemma {:induction false} MeasurablePass(cfg: EngineConfig, m: Machine, i: nat, vs: Views, clock: Clock,
                                          r: Checked<Machine>)
    requires i <= |cfg.symbols| && PassMeasurable(cfg, m, i, vs, clock) && PassesTo(cfg, m, i, vs, clock, r)
    ensures r == PassFrom(cfg, m, i, vs, clock)
    decreases |cfg.symbols| - i
  {
    hide EvaluateFrom, ExecuteFrom, ExecutesTo, ChecksMeasurable, PairsFrom;
    if i < |cfg.symbols| {
      var pairs := PairsFrom(cfg.venues, 0, 0);
      var f := EvaluateFrom(cfg.settings, vs, cfg.symbols[i], clock.Scan(i), pairs, [], m.counter);
      if f.Done? {
        var c: Checked<Core> :|
          && ExecutesTo(cfg, m.core, f.value.0, clock.now, vs, c)
          && match c
             case Panicked => r.Panicked?
             case Done(d) => PassesTo(cfg, Machine(d, f.value.1), i + 1, vs, clock, r);
        MeasurableExecution(cfg, m.core, f.value.0, clock.now, vs, c);
        if c.Done? {
          MeasurablePass(cfg, Machine(c.value, f.value.1), i + 1, vs, clock, r);
        }
      }
    }
  }

  // Deterministic runs.

  datatype RunState = RunState(machine: Machine, lanes: Lanes)

  /** An event of the source, and the clock readings of the pass that follows it. */
  datatype Tick = Tick(key: BookKey, event: MarketEvent, clock: Clock)

  ghost function TickOnce(cfg: EngineConfig, s: RunState, t: Tick): Checked<RunState> {
    var lanes := Applied(s.lanes, t.key, t.event);
    var m :- PassFrom(cfg, s.machine, 0, Visible(lanes), t.clock);
    Done(RunState(m, lanes))
  }

  /** runDeterministic: apply, evaluate, next event. */
  ghost function RunOf(cfg: EngineConfig, s: RunState, ts: seq<Tick>): Checked<RunState> {
    if ts == [] then Done(s)
    else
      var r :- RunOf(cfg, s, ts[..|ts| - 1]);
      TickOnce(cfg, r, ts[|ts| - 1])
  }

  ghost predicate TicksTo(cfg: EngineConfig, s: RunState, t: Tick, r: Checked<RunState>) {
    var lanes := Applied(s.lanes, t.key, t.event);
    exists m: Checked<Machine> ::
      && PassesTo(cfg, s.machine, 0, Visible(lanes), t.clock, m)
      && r == if m.Panicked? then Panicked else Done(RunState(m.value, lanes))
  }

  /** `r` is what some order of the positions at each risk check makes of the run. */
  ghost predicate RunsTo(cfg: EngineConfig, s: RunState, ts: seq<Tick>, r: Checked<RunState>) {
    if ts == [] then r == Done(s)
    else
      exists m: Checked<RunState> ::
        && RunsTo(cfg, s, ts[..|ts| - 1], m)
        && if m.Panicked? then r.Panicked? else TicksTo(cfg, m.value, ts[|ts| - 1], r)
  }

  ghost predicate RunMeasurable(cfg: EngineConfig, s: RunState, ts: seq<Tick>) {
    ts != [] ==>
      && RunMeasurable(cfg, s, ts[..|ts| - 1])
      && var r, t := RunOf(cfg, s, ts[..|ts| - 1]), ts[|ts| - 1];
         r.Done? ==> PassMeasurable(cfg, r.value.machine, 0, Visible(Applied(r.value.lanes, t.key, t.event)), t.clock)
  }

  lemma RunsNothing(cfg: EngineConfig, s: RunState)
    ensures RunsTo(cfg, s, [], Done(s))
  {
  }

  /** One event more. */
  lemma RunsStep(cfg: EngineConfig, s: RunState, ts: seq<Tick>, i: nat, m: Checked<RunState>, r: Checked<RunState>)
    requires i < |ts| && RunsTo(cfg, s, ts[..i], m)
    requires if m.Panicked? then r.Panicked? else TicksTo(cfg, m.value, ts[i], r)
    ensures RunsTo(cfg, s, ts[..i + 1], r)
  {
    hide TicksTo;
    assert ts[..i + 1][..i] == ts[..i];
  }

  /** A panic ends the run, whatever was still to come. */
  lemma {:induction false} RunsEnd(cfg: EngineConfig, s: RunState, ts: seq<Tick>, i: nat)
    requires i <= |ts| && RunsTo(cfg, s, ts[..i], Panicked)
    ensures RunsTo(cfg, s, ts, Panicked)
    decreases |ts| - i
  {
    hide RunsTo;
    if i == |ts| {
      assert ts[..i] == ts;
    } else {
      RunsStep(cfg, s, ts, i, Panicked, Panicked);
      RunsEnd(cfg, s, ts, i + 1);
    }
  }

  /** In a run without such a position the order decides nothing: there is one outcome, that of RunOf. */
  lemma {:induction false} MeasurableRun(cfg: EngineConfig, s: RunState, ts: seq<Tick>, r: Checked<RunState>)
    requires RunMeasurable(cfg, s, ts) && RunsTo(cfg, s, ts, r)
    ensures r == RunOf(cfg, s, ts)
  {
    hide PassesTo, PassFrom, PassMeasurable, Applied, Visible;
    if ts != [] {
      var init, t := ts[..|ts| - 1], ts[|ts| - 1];
      var m :| RunsTo(cfg, s, init, m) && if m.Panicked? then r.Panicked? else TicksTo(cfg, m.value, t, r);
      MeasurableRun(cfg, s, init, m);
      if m.Done? {
        var lanes := Applied(m.value.lanes, t.key, t.event);
        var p: Checked<Machine> :|
          && PassesTo(cfg, m.value.machine, 0, Visible(lanes), t.clock, p)
          && r == if p.Panicked? then Panicked else Done(RunState(p.value, lanes));
        MeasurablePass(cfg, m.value.machine, 0, Visible(lanes), t.clock, p);
      }
    }
  }

  lemma CertainIfMeasurable(cfg: EngineConfig, s: RunState, ts: seq<Tick>, r: Checked<RunState>)
    requires RunsTo(cfg, s, ts, r)
    ensures RunMeasurable(cfg, s, ts) ==> r == RunOf(cfg, s, ts)
  {
    if RunMeasurable(cfg, s, ts) {
      MeasurableRun(cfg, s, ts, r);
    }
  }
}
