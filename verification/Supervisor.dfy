/** The supervisor object: gate, submit, execute, settle, and deterministic runs (internal/engine/engine.go). */
module Supervisors {
  import opened Outcomes
  import opened Decimal
  import opened Domain
  import opened BookSpec
  import Lane
  import opened Markets
  import opened Pipelines
  import opened Orders
  import opened Execution
  import opened Portfolio
  import opened EngineSpec
  import R = Risk
  import O = Opportunity

  class Supervisor {
    const cfg: EngineConfig
    const pipe: Pipeline
    const opp: O.Engine
    const risk: R.Engine
    const exec: Simulator
    const ledger: Ledger
    var executed: nat
    // The settlements that the ledger refused, which the source only logs.
    ghost var refusals: seq<Refusal>

    ghost function Working(): set<object>
      reads exec`byClientID
    {
      exec.byClientID.Values
    }

    /** What executions write, apart from the parts themselves. */
    ghost function Entries(): set<object>
      reads exec`byClientID, ledger`repr
    {
      Working() + ledger.repr
    }

    ghost predicate Valid()
      reads this, exec, ledger, ledger.repr, pipe, pipe.model.repr
    {
      && risk.limits == cfg.limits && exec.fees == cfg.settings.fees && opp.settings == cfg.settings
      && exec.Valid() && ledger.Valid() && pipe.Valid() && Separate()
    }

    /** The parts share no objects. */
    ghost predicate Separate()
      reads exec`byClientID, ledger`repr, pipe`model
    {
      && Working() !! ledger.repr
      && Entries() + pipe.model.repr !! {this, pipe, opp, risk, exec, ledger}
      && Entries() !! pipe.model.repr
    }

    ghost function Value(): Core
      reads this, risk, exec, Working(), ledger
    {
      Core(risk.Value(), exec.Value(), ledger.value, executed, refusals)
    }

    /** What the book manager shows of every book. */
    ghost function Seen(): Views
      reads pipe`model
    {
      Visible(pipe.model.value)
    }

    constructor (cfg: EngineConfig, laneConfig: Lane.LaneConfig)
      ensures Valid() && this.cfg == cfg && pipe.model.value == map[] && opp.counter == 0
      ensures fresh({pipe, opp, risk, exec, ledger} + Entries() + pipe.model.repr)
      ensures Value() == Core(R.RiskState(cfg.limits.killSwitch, "", 0, 0), SimState(map[], 0, []),
                              LedgerState(map[], map[], 0), 0, [])
    {
      this.cfg := cfg;
      pipe := new Pipeline(laneConfig);
      opp := new O.Engine(cfg.settings);
      risk := new R.Engine(cfg.limits);
      exec := new Simulator(cfg.settings.fees);
      ledger := new Ledger();
      executed, refusals := 0, [];
    }

    /** The request of the risk check, with the views and mids it looks up. */
    method Ask(o: O.Opp, now: int) returns (q: R.Request)
      requires Valid()
      ensures q == RequestFor(o, now, Same(Seen()))
    {
      var buyView := pipe.Snapshot(o.buyVenue, o.symbol);
      var sellView := pipe.Snapshot(o.sellVenue, o.symbol);
      q := R.Request(now, o.buyVenue, o.sellVenue, o.quantity, o.buyVWAP, o.costing.net,
                     buyView, sellView, MidOf(buyView), MidOf(sellView));
    }

    /** The risk check, then the inventory check; `e` is what the exposures came to. */
    method Check(o: O.Opp, now: int) returns (r: Checked<bool>, ghost e: R.ExposureSums)
      requires Valid()
      ensures R.PossibleSums(e, ledger.value, RequestFor(o, now, Same(Seen())))
      ensures r == PassesGiven(cfg, Value(), o, now, Same(Seen()), e)
    {
      hide R.ReasonsGiven, R.PossibleSums, RequestFor, HasInventory;
      hide Simulator.Valid, Simulator.Value, Pipeline.Valid, Separate;
      var q := Ask(o, now);
      var decision;
      decision, e := risk.CheckOpportunity(q, ledger);
      var d :- decision;
      CheckedProduct(cfg, Value(), o, now, Same(Seen()), e);
      if !d.allowed {
        r := Done(false);
        return;
      }
      var stocked := CheckInventory(o);
      r := Done(stocked);
    }

    method CheckInventory(o: O.Opp) returns (ok: bool)
      requires ledger.Valid() && Mul(o.buyVWAP, o.quantity).Done?
      ensures ok == HasInventory(ledger.value, o, Mul(o.buyVWAP, o.quantity).value)
    {
      var buyNotional := Mul(o.buyVWAP, o.quantity).value;
      var quote := ledger.AvailableAt(o.buyVenue, QuoteOf(o.symbol));
      if quote < buyNotional {
        return false;
      }
      var base := ledger.AvailableAt(o.sellVenue, BaseOf(o.symbol));
      ok := base >= o.quantity;
    }

    /** Submits the two orders of an opportunity; those of an id seen before are the ones already there. */
    method SubmitOrders(o: O.Opp) returns (buy: Order, sell: Order)
      requires exec.Valid()
      modifies exec
      ensures exec.Valid() && exec.Value() == SubmitBoth(old(exec.Value()), o)
      ensures buy != sell && fresh(Working() - old(Working()))
      ensures Registered(buy) && buy.clientOrderID == ForOpportunity(o.id, Buy)
      ensures Registered(sell) && sell.clientOrderID == ForOpportunity(o.id, Sell)
    {
      hide Simulator.Valid, Submitted;
      buy := exec.Submit(OrderFor(o, Buy));
      sell := exec.Submit(OrderFor(o, Sell));
    }

    /** `o` is the order that the simulator has under its id. */
    ghost predicate Registered(o: Order)
      reads exec, Working(), o
    {
      && o.clientOrderID in exec.byClientID && exec.byClientID[o.clientOrderID] == o
      && exec.Value().orders[o.clientOrderID] == o.Value()
    }

    /** No other order is one of these two. */
    lemma RegisteredOnce(buy: Order, sell: Order)
      requires exec.Valid()
      ensures forall c :: c in exec.byClientID && c != buy.clientOrderID && c != sell.clientOrderID
                          ==> exec.byClientID[c] != buy && exec.byClientID[c] != sell
    {
    }

    /** Works two registered orders, each against a view. */
    method WorkOrders(buy: Order, sell: Order, buyView: Option<View>, sellView: Option<View>)
      returns (r: Checked<ArbResult>)
      requires exec.Valid() && exec.fees == cfg.settings.fees && buy != sell && Registered(buy) && Registered(sell)
      modifies exec`sink, buy, sell
      ensures match Arbitrage(old(buy.Value()), old(sell.Value()), buyView, sellView,
                              TakerBps(cfg.settings.fees, buy.venue), TakerBps(cfg.settings.fees, sell.venue))
              case Panicked => r.Panicked?
              case Done(run) =>
                r == Done(run.result) && exec.Value() == OrdersWorked(old(exec.Value()), run, cfg.policy)
    {
      hide LegsInOrder, Combine, Simulator.Valid, Arbitrage;
      RegisteredOnce(buy, sell);
      PolicyOrdersFillsOnly(buy.Value(), sell.Value(), cfg.policy, buyView, sellView,
                            TakerBps(exec.fees, buy.venue), TakerBps(exec.fees, sell.venue));
      ghost var before := exec.Value();
      r := exec.ExecuteArbitrage(buy, sell, cfg.policy, buyView, sellView);
      OrdersLeft(before, buy, sell);
    }

    /** Only these two orders were worked on. */
    lemma OrdersLeft(before: SimState, buy: Order, sell: Order)
      requires before.orders.Keys == exec.byClientID.Keys
      requires buy.clientOrderID in exec.byClientID && exec.byClientID[buy.clientOrderID] == buy
      requires sell.clientOrderID in exec.byClientID && exec.byClientID[sell.clientOrderID] == sell
      requires forall c :: c in exec.byClientID && c != buy.clientOrderID && c != sell.clientOrderID
                           ==> exec.byClientID[c].Value() == before.orders[c]
      ensures exec.Value().orders
              == before.orders[buy.clientOrderID := buy.Value()][sell.clientOrderID := sell.Value()]
    {
    }

    lemma PairApart(buy: Order, sell: Order)
      requires Separate() && buy in Working() && sell in Working()
      ensures {exec, buy, sell} !! ledger.repr && {exec, buy, sell} !! pipe.model.repr
    {
    }

    /** Submits both orders and looks up the views of their books. */
    method PlaceOrders(o: O.Opp) returns (buy: Order, sell: Order, buyView: Option<View>, sellView: Option<View>)
      requires Valid()
      modifies exec
      ensures Valid() && exec.Value() == SubmitBoth(old(exec.Value()), o) && fresh(Working() - old(Working()))
      ensures buy != sell && Registered(buy) && Registered(sell)
      ensures buy.clientOrderID == ForOpportunity(o.id, Buy) && sell.clientOrderID == ForOpportunity(o.id, Sell)
      ensures {exec, buy, sell} !! ledger.repr && {exec, buy, sell} !! pipe.model.repr
      ensures buyView == ViewAt(Seen(), buy.venue, buy.symbol) && sellView == ViewAt(Seen(), sell.venue, sell.symbol)
    {
      hide Simulator.Valid, Simulator.Value, Ledger.Valid, Pipeline.Valid, SubmitBoth, ViewAt, Visible;
      buy, sell := SubmitOrders(o);
      assert Separate();
      PairApart(buy, sell);
      buyView := pipe.Snapshot(buy.venue, buy.symbol);
      sellView := pipe.Snapshot(sell.venue, sell.symbol);
    }

    /** Submits both orders and works them against the views of their books. */
    method Trade(o: O.Opp) returns (r: Checked<ArbResult>)
      requires Valid()
      modifies exec, Working()
      ensures match Traded(cfg, old(exec.Value()), o, Same(Seen()))
              case Panicked => r.Panicked?
              case Done(run) => r == Done(run.result) && Valid() && fresh(Working() - old(Working()))
                                && exec.Value() == OrdersWorked(SubmitBoth(old(exec.Value()), o), run, cfg.policy)
    {
      hide Arbitrage, OrdersWorked, SubmitBoth, ViewAt, Visible, TakerBps;
      hide Simulator.Valid, Simulator.Value, Ledger.Valid, Pipeline.Valid;
      hide Separate;
      var buy, sell, buyView, sellView := PlaceOrders(o);
      r := WorkOrders(buy, sell, buyView, sellView);
      assert ledger.Valid() && pipe.Valid() && Separate();
    }

    /** Two orders opened and closed, and the result noted. */
    method NoteResult(success: bool)
      requires risk.limits == cfg.limits
      modifies risk
      ensures risk.Value() == RiskAfter(cfg.limits, old(risk.Value()), success)
    {
      risk.NoteOrderOpened();
      risk.NoteOrderOpened();
      risk.NoteOrderClosed();
      risk.NoteOrderClosed();
      risk.NoteExecutionResult(success);
      if risk.consecutiveFails >= cfg.limits.maxConsecutiveFails && cfg.limits.maxConsecutiveFails > 0 {
        risk.ActivateKillSwitch("max_consecutive_failures");
      }
    }

    /** Settles both legs and books the profit; a refusal is logged and nothing else. */
    method Settle(o: O.Opp, res: ArbResult) returns (r: Checked<()>)
      requires ledger.Valid() && this !in ledger.repr
      modifies this`refusals, ledger, ledger.repr
      ensures match SettleResult(Books(old(ledger.value), old(refusals)), o, res)
              case Panicked => r.Panicked?
              case Done(b) => r.Done? && ledger.Valid() && fresh(ledger.repr - old(ledger.repr))
                              && ledger.value == b.ledger && refusals == b.refusals
    {
      var _ :- SettleBuyLeg(o, res.buy);
      var _ :- SettleSellLeg(o, res.sell);
      r := ledger.AddRealized(res.realized);
    }

    method SettleBuyLeg(o: O.Opp, leg: Leg) returns (r: Checked<()>)
      requires ledger.Valid() && this !in ledger.repr
      modifies this`refusals, ledger, ledger.repr
      ensures match SettleBuy(Books(old(ledger.value), old(refusals)), o, leg)
              case Panicked => r.Panicked?
              case Done(b) => r.Done? && ledger.Valid() && fresh(ledger.repr - old(ledger.repr))
                              && ledger.value == b.ledger && refusals == b.refusals
    {
      if leg.filledQty > 0 {
        var settled :- ledger.ApplyBuy(o.buyVenue, o.symbol, BaseOf(o.symbol), QuoteOf(o.symbol),
                                       leg.vwap, leg.filledQty, leg.fee);
        if !settled {
          refusals := refusals + [RefusedBuy(o, leg)];
        }
      }
      r := Done(());
    }

    method SettleSellLeg(o: O.Opp, leg: Leg) returns (r: Checked<()>)
      requires ledger.Valid() && this !in ledger.repr
      modifies this`refusals, ledger, ledger.repr
      ensures match SettleSell(Books(old(ledger.value), old(refusals)), o, leg)
              case Panicked => r.Panicked?
              case Done(b) => r.Done? && ledger.Valid() && fresh(ledger.repr - old(ledger.repr))
                              && ledger.value == b.ledger && refusals == b.refusals
    {
      if leg.filledQty > 0 {
        var settled :- ledger.ApplySell(o.sellVenue, o.symbol, BaseOf(o.symbol), QuoteOf(o.symbol),
                                        leg.vwap, leg.filledQty, leg.fee);
        if !settled {
          refusals := refusals + [RefusedSale(o, leg)];
        }
      }
      r := Done(());
    }

    /** Submission, execution and settlement. */
    method Execute(o: O.Opp) returns (r: Checked<()>)
      requires Valid()
      modifies this`executed, this`refusals, risk, exec, Working(), ledger, ledger.repr
      ensures match EngineSpec.Execute(cfg, old(Value()), o, Same(Seen()))
              case Panicked => r.Panicked?
              case Done(c) => r.Done? && Valid() && Value() == c && fresh(Entries() - old(Entries()))
    {
      hide Traded, SettleResult, RiskAfter, OrdersWorked, SubmitBoth;
      hide Simulator.Valid, Simulator.Value, Ledger.Valid, Pipeline.Valid;
      var res :- Trade(o);
      NoteResult(res.buy.filledQty > 0 && res.sell.filledQty > 0);
      var _ :- Settle(o, res);
      executed := executed + 1;
      r := Done(());
    }

    /** maybeExecute; `e` is what the exposures came to, which is exact unless a position is MIN_INT64. */
    method MaybeExecute(o: O.Opp, now: int) returns (r: Checked<()>, ghost e: R.ExposureSums)
      requires Valid()
      modifies this`executed, this`refusals, risk, exec, Working(), ledger, ledger.repr
      ensures R.PossibleSums(e, old(ledger.value), RequestFor(o, now, Same(Seen())))
      ensures NoMinPosition(old(ledger.value)) ==> e == ExactSums(old(Value()), o, now, Same(Seen()))
      ensures match MaybeExecuteGiven(cfg, old(Value()), o, now, Same(Seen()), e)
              case Panicked => r.Panicked?
              case Done(c) => r.Done? && Valid() && Value() == c && fresh(Entries() - old(Entries()))
    {
      hide EngineSpec.Execute, PassesGiven, RequestFor, R.PossibleSums, R.ExactSums;
      hide Simulator.Valid, Ledger.Valid, Pipeline.Valid;
      var passed;
      passed, e := Check(o, now);
      if NoMinPosition(ledger.value) {
        R.SumsAreExact(e, ledger.value, RequestFor(o, now, Same(Seen())));
      }
      var passes :- passed;
      if passes {
        r := Execute(o);
      } else {
        r := Done(());
      }
    }

    /** Engine.Evaluate of the opportunity engine: every ordered pair of distinct venues, in order. */
    method Scan(symbol: string, now: int) returns (r: Checked<seq<O.Opp>>)
      requires pipe.Valid() && opp.settings == cfg.settings && opp !in pipe.model.repr
      modifies opp
      ensures match EvaluateFrom(cfg.settings, Seen(), symbol, now, PairsFrom(cfg.venues, 0, 0), [], old(opp.counter))
              case Panicked => r.Panicked?
              case Done(f) => r == Done(f.0) && opp.counter == f.1
    {
      hide Pipeline.Valid, Visible, O.EvaluatePair, PairOf, EvaluateFrom, PairsFrom;
      var found: seq<O.Opp> := [];
      ghost var whole := EvaluateFrom(cfg.settings, Seen(), symbol, now, PairsFrom(cfg.venues, 0, 0), [], opp.counter);
      var i := 0;
      while i < |cfg.venues|
        invariant 0 <= i <= |cfg.venues| && pipe.Valid()
        invariant whole
                  == EvaluateFrom(cfg.settings, Seen(), symbol, now, PairsFrom(cfg.venues, i, 0), found, opp.counter)
      {
        var j := 0;
        while j < |cfg.venues|
          invariant 0 <= j <= |cfg.venues| && pipe.Valid()
          invariant whole
                    == EvaluateFrom(cfg.settings, Seen(), symbol, now, PairsFrom(cfg.venues, i, j), found, opp.counter)
        {
          ScanStep(cfg.settings, Seen(), symbol, now, cfg.venues, i, j, found, opp.counter);
          if cfg.venues[i] != cfg.venues[j] {
            var e :- Evaluate(symbol, cfg.venues[i], cfg.venues[j], now);
            if e.Found? {
              found := found + [e.opp];
            }
          }
          j := j + 1;
        }
        RowEnds(cfg.venues, i);
        i := i + 1;
      }
      ScanEnds(cfg.venues);
      NothingToScan(cfg.settings, Seen(), symbol, now, found, opp.counter);
      r := Done(found);
    }

    /** evaluatePair on the current views of both books. */
    method Evaluate(symbol: string, buyVenue: Venue, sellVenue: Venue, now: int) returns (r: Checked<O.Evaluation>)
      requires pipe.Valid() && opp.settings == cfg.settings && opp !in pipe.model.repr
      modifies opp
      ensures pipe.Valid()
      ensures r == O.EvaluatePair(PairOf(Seen(), symbol, (buyVenue, sellVenue), now), cfg.settings, old(opp.counter))
      ensures opp.counter == old(opp.counter) + (if r.Done? && r.value.Found? then 1 else 0)
    {
      hide Pipeline.Valid, Visible, O.EvaluatePair;
      var buyView := pipe.Snapshot(buyVenue, symbol);
      var sellView := pipe.Snapshot(sellVenue, symbol);
      r := opp.Evaluate(O.Pair(symbol, buyVenue, sellVenue, buyView, sellView, now));
    }

    /** Tries the opportunities found, in order. */
    method ExecuteAll(opps: seq<O.Opp>, now: int) returns (r: Checked<()>)
      requires Valid()
      modifies this`executed, this`refusals, risk, exec, Working(), ledger, ledger.repr
      ensures ExecutesTo(cfg, old(Value()), opps, now, Seen(), Ended(r, Value()))
      ensures r.Done? ==> Valid() && fresh(Entries() - old(Entries()))
    {
      hide Simulator.Valid, Simulator.Value, Ledger.Valid, Pipeline.Valid, Visible;
      hide MaybeExecuteGiven, ExecutesTo, R.PossibleSums, RequestFor;
      ghost var start := Value();
      assert opps[0..] == opps;
      var j := 0;
      while j < |opps|
        invariant 0 <= j <= |opps| && Valid() && fresh(Entries() - old(Entries()))
        invariant ExecutionLeads(cfg, start, opps, Value(), j, now, Seen())
      {
        ghost var c := Value();
        var tried;
        ghost var e;
        tried, e := MaybeExecute(opps[j], now);
        ExecutionStep(cfg, start, opps, c, j, now, Seen(), e);
        if tried.Panicked? {
          return Panicked;
        }
        j := j + 1;
      }
      ExecutionEnd(cfg, start, opps, Value(), now, Seen());
      r := Done(());
    }

    ghost function State(): Machine
      reads this, risk, exec, Working(), ledger, opp
    {
      Machine(Value(), opp.counter)
    }

    /** One evaluation pass; the clock is read once for the pass and once for each scan. */
    method EvaluateOnce(clock: Clock) returns (r: Checked<()>)
      requires Valid()
      modifies this`executed, this`refusals, opp, risk, exec, Working(), ledger, ledger.repr
      ensures PassesTo(cfg, old(State()), 0, Seen(), clock, Ended(r, State()))
      ensures r.Done? ==> Valid() && fresh(Entries() - old(Entries()))
    {
      hide Simulator.Valid, Simulator.Value, Ledger.Valid, Pipeline.Valid;
      hide Visible, PairsFrom, EvaluateFrom, ExecutesTo, PassesTo;
      ghost var start := State();
      var i := 0;
      while i < |cfg.symbols|
        invariant 0 <= i <= |cfg.symbols| && Valid() && fresh(Entries() - old(Entries()))
        invariant PassLeads(cfg, start, State(), i, Seen(), clock)
      {
        ghost var m := State();
        var opps := Scan(cfg.symbols[i], clock.Scan(i));
        if opps.Panicked? {
          PassStep(cfg, start, m, i, Seen(), clock, Panicked);
          return Panicked;
        }
        var tried := ExecuteAll(opps.value, clock.now);
        PassStep(cfg, start, m, i, Seen(), clock, Ended(tried, Value()));
        if tried.Panicked? {
          return Panicked;
        }
        i := i + 1;
      }
      PassEnd(cfg, start, State(), Seen(), clock);
      r := Done(());
    }

    ghost function Whole(): RunState
      reads this, risk, exec, Working(), ledger, opp, pipe
    {
      RunState(State(), pipe.model.value)
    }

    /** Applies one event, then evaluates. */
    method Consume(t: Tick) returns (r: Checked<()>)
      requires Valid()
      modifies this`executed, this`refusals, opp, risk, exec, Working(), ledger, ledger.repr, pipe, pipe.model.repr
      ensures TicksTo(cfg, old(Whole()), t, Ended(r, Whole()))
      ensures r.Done? ==> Valid() && fresh(Entries() - old(Entries())) && fresh(pipe.model.repr - old(pipe.model.repr))
    {
      hide Simulator.Valid, Simulator.Value, Ledger.Valid, Pipeline.Valid, Visible, PassesTo, Applied;
      pipe.ApplySync(t.key, t.event);
      r := EvaluateOnce(t.clock);
      assert PassesTo(cfg, old(State()), 0, Seen(), t.clock, Ended(r, State()));
    }

    /** Consumes the source event by event. */
    method RunDeterministic(ts: seq<Tick>) returns (r: Checked<()>)
      requires Valid()
      modifies this`executed, this`refusals, opp, risk, exec, Working(), ledger, ledger.repr, pipe, pipe.model.repr
      ensures RunsTo(cfg, old(Whole()), ts, Ended(r, Whole()))
      ensures RunMeasurable(cfg, old(Whole()), ts) ==> Ended(r, Whole()) == RunOf(cfg, old(Whole()), ts)
      ensures r.Done? ==> Valid()
    {
      hide Simulator.Valid, Simulator.Value, Ledger.Valid, Pipeline.Valid, Visible, Applied;
      hide TicksTo, RunsTo, RunOf, RunMeasurable;
      ghost var start := Whole();
      RunsNothing(cfg, start);
      assert ts[..0] == [];
      var i := 0;
      while i < |ts|
        invariant 0 <= i <= |ts| && Valid()
        invariant fresh(Entries() - old(Entries())) && fresh(pipe.model.repr - old(pipe.model.repr))
        invariant RunsTo(cfg, start, ts[..i], Done(Whole()))
      {
        ghost var s := Whole();
        var tried := Consume(ts[i]);
        RunsStep(cfg, start, ts, i, Done(s), Ended(tried, Whole()));
        if tried.Panicked? {
          RunsEnd(cfg, start, ts, i + 1);
          CertainIfMeasurable(cfg, start, ts, Panicked);
          return Panicked;
        }
        i := i + 1;
      }
      assert ts[..|ts|] == ts;
      CertainIfMeasurable(cfg, start, ts, Done(Whole()));
      r := Done(());
    }
  }
}
