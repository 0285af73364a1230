/**
  What a deterministic run attempts: everything that the scans after each of its events find, in
  order, and nothing else (runDeterministic, EvaluateOnce and Evaluate).
 */
module RunPlans {
  import opened Outcomes
  import opened Domain
  import opened Markets
  import opened EngineSpec
  import opened PricedProfit
  import opened RunTrades
  import opened MarketTruth
  import O = Opportunity
  import R = Risk

  // The order of a scan.

  /** Row by row, and by columns within a row. */
  predicate Before(a: (nat, nat), b: (nat, nat)) {
    a.0 < b.0 || (a.0 == b.0 && a.1 < b.1)
  }

  /** A place of the scan from row `i` and column `j` on, where two different venues meet. */
  predicate Meets(vs: seq<Venue>, i: nat, j: nat, a: (nat, nat)) {
    a.0 < |vs| && a.1 < |vs| && !Before(a, (i, j)) && vs[a.0] != vs[a.1]
  }

  /** `pairs` are the venues at `places`, which are all the places there are, in order. */
  ghost predicate InScanOrder(vs: seq<Venue>, i: nat, j: nat, pairs: seq<(Venue, Venue)>, places: seq<(nat, nat)>) {
    && |places| == |pairs|
    && (forall k :: 0 <= k < |places| ==>
          Meets(vs, i, j, places[k]) && pairs[k] == (vs[places[k].0], vs[places[k].1]))
    && (forall k, l :: 0 <= k < l < |places| ==> Before(places[k], places[l]))
    && (forall a :: Meets(vs, i, j, a) ==> a in places)
  }

  lemma MeetsAhead(vs: seq<Venue>, i: nat, j: nat, a: (nat, nat))
    requires i < |vs| && j < |vs|
    ensures Meets(vs, i, j, a) <==> Meets(vs, i, j + 1, a) || (a == (i, j) && vs[i] != vs[j])
    ensures Meets(vs, i, j + 1, a) ==> Before((i, j), a)
  {
  }

  lemma PlaceAhead(vs: seq<Venue>, i: nat, j: nat, pairs: seq<(Venue, Venue)>, places: seq<(nat, nat)>)
    requires i < |vs| && j < |vs| && InScanOrder(vs, i, j + 1, pairs, places)
    ensures if vs[i] == vs[j] then InScanOrder(vs, i, j, pairs, places)
            else InScanOrder(vs, i, j, [(vs[i], vs[j])] + pairs, [(i, j)] + places)
  {
    forall a: (nat, nat)
      ensures Meets(vs, i, j, a) <==> Meets(vs, i, j + 1, a) || (a == (i, j) && vs[i] != vs[j])
      ensures Meets(vs, i, j + 1, a) ==> Before((i, j), a)
      ensures Meets(vs, i, j, a) ==> a.0 < |vs| && a.1 < |vs|
    {
      MeetsAhead(vs, i, j, a);
    }
    hide Meets, Before;
    if vs[i] != vs[j] {
      forall a | Meets(vs, i, j, a)
        ensures a in [(i, j)] + places
      {
      }
    }
  }

  lemma RowAhead(vs: seq<Venue>, i: nat, pairs: seq<(Venue, Venue)>, places: seq<(nat, nat)>)
    requires i < |vs| && InScanOrder(vs, i + 1, 0, pairs, places)
    ensures InScanOrder(vs, i, |vs|, pairs, places)
  {
    assert forall a :: Meets(vs, i, |vs|, a) <==> Meets(vs, i + 1, 0, a);
  }

  lemma {:induction false} ScanPlaces(vs: seq<Venue>, i: nat, j: nat) returns (places: seq<(nat, nat)>)
    requires i <= |vs| && j <= |vs|
    ensures InScanOrder(vs, i, j, PairsFrom(vs, i, j), places)
    decreases |vs| - i, |vs| - j
  {
    if i == |vs| {
      places := [];
    } else {
      hide InScanOrder;
      if j == |vs| {
        places := ScanPlaces(vs, i + 1, 0);
        RowAhead(vs, i, PairsFrom(vs, i + 1, 0), places);
      } else {
        places := ScanPlaces(vs, i, j + 1);
        PlaceAhead(vs, i, j, PairsFrom(vs, i, j + 1), places);
        if vs[i] != vs[j] {
          places := [(i, j)] + places;
        } else {
          assert PairsFrom(vs, i, j) == PairsFrom(vs, i, j + 1);
        }
      }
    }
  }

  /** A scan visits all places where two different venues meet, row by row, each once. */
  lemma ScanOrder(vs: seq<Venue>)
    ensures exists places :: InScanOrder(vs, 0, 0, PairsFrom(vs, 0, 0), places)
  {
    hide InScanOrder;
    var places := ScanPlaces(vs, 0, 0);
  }

  // What a scan finds.

  /** Whether an evaluation of the pair finds an opportunity. */
  predicate Pays(s: O.Settings, vs: Views, symbol: string, now: int, pair: (Venue, Venue)) {
    var e := O.EvaluatePair(PairOf(vs, symbol, pair, now), s, 0);
    e.Done? && e.value.Found?
  }

  /** The number an opportunity gets is the only thing it owes to the counter. */
  lemma CounterNumbers(p: O.Pair, s: O.Settings, m: nat, n: nat)
    ensures match O.EvaluatePair(p, s, m)
            case Panicked => O.EvaluatePair(p, s, n).Panicked?
            case Done(e) =>
              O.EvaluatePair(p, s, n) == if e.Found? then Done(O.Found(e.opp.(id := n + 1))) else Done(e)
  {
  }

  predicate Increasing(picks: seq<nat>, bound: nat) {
    && (forall j, k :: 0 <= j < k < |picks| ==> picks[j] < picks[k])
    && (forall k :: 0 <= k < |picks| ==> picks[k] < bound)
  }

  /** `found` is what the pairs at `picks` yield, in order and numbered on from `counter`. */
  predicate Yielded(s: O.Settings, vs: Views, symbol: string, now: int, pairs: seq<(Venue, Venue)>, counter: nat,
                    found: seq<O.Opp>, picks: seq<nat>) {
    && |picks| == |found| && Increasing(picks, |pairs|)
    && (forall k :: 0 <= k < |picks| ==>
          Emitted(PairOf(vs, symbol, pairs[picks[k]], now), s, counter + k, found[k]))
  }

  /** Of the first `n` pairs, those at `picks` pay and no other does. */
  predicate PicksPaying(s: O.Settings, vs: Views, symbol: string, now: int, pairs: seq<(Venue, Venue)>, n: nat,
                        picks: seq<nat>)
    requires n <= |pairs|
  {
    forall i :: 0 <= i < n ==> (i in picks <==> Pays(s, vs, symbol, now, pairs[i]))
  }

  /** One pair more: it is picked if it pays. */
  lemma PairScanned(s: O.Settings, vs: Views, symbol: string, now: int, pairs: seq<(Venue, Venue)>, i: nat,
                    counter: nat, found: seq<O.Opp>, picks: seq<nat>)
    requires i < |pairs| && O.EvaluatePair(PairOf(vs, symbol, pairs[i], now), s, counter + |found|).Done?
    requires Yielded(s, vs, symbol, now, pairs, counter, found, picks) && Increasing(picks, i)
    requires PicksPaying(s, vs, symbol, now, pairs, i, picks)
    ensures var e := O.EvaluatePair(PairOf(vs, symbol, pairs[i], now), s, counter + |found|).value;
            if e.Found?
            then Yielded(s, vs, symbol, now, pairs, counter, found + [e.opp], picks + [i])
                 && Increasing(picks + [i], i + 1) && PicksPaying(s, vs, symbol, now, pairs, i + 1, picks + [i])
            else Increasing(picks, i + 1) && PicksPaying(s, vs, symbol, now, pairs, i + 1, picks)
  {
    hide O.EvaluatePair, PairOf;
    CounterNumbers(PairOf(vs, symbol, pairs[i], now), s, 0, counter + |found|);
    assert i !in picks;
  }

  lemma {:induction false} ScanFrom(s: O.Settings, vs: Views, symbol: string, now: int, pairs: seq<(Venue, Venue)>,
                                    i: nat, counter: nat, found: seq<O.Opp>, picks: seq<nat>)
    returns (all: seq<nat>)
    requires i <= |pairs| && EvaluateFrom(s, vs, symbol, now, pairs[i..], found, counter + |found|).Done?
    requires Yielded(s, vs, symbol, now, pairs, counter, found, picks) && Increasing(picks, i)
    requires PicksPaying(s, vs, symbol, now, pairs, i, picks)
    ensures var r := EvaluateFrom(s, vs, symbol, now, pairs[i..], found, counter + |found|).value;
            && r.1 == counter + |r.0| && Yielded(s, vs, symbol, now, pairs, counter, r.0, all)
            && PicksPaying(s, vs, symbol, now, pairs, |pairs|, all)
    decreases |pairs| - i
  {
    hide Yielded, PicksPaying, Increasing, O.EvaluatePair;
    if i == |pairs| {
      all := picks;
    } else {
      assert pairs[i..][1..] == pairs[i + 1..];
      var e := O.EvaluatePair(PairOf(vs, symbol, pairs[i], now), s, counter + |found|).value;
      PairScanned(s, vs, symbol, now, pairs, i, counter, found, picks);
      if e.Found? {
        all := ScanFrom(s, vs, symbol, now, pairs, i + 1, counter, found + [e.opp], picks + [i]);
      } else {
        all := ScanFrom(s, vs, symbol, now, pairs, i + 1, counter, found, picks);
      }
    }
  }

  /**
    A scan finds exactly the pairs that pay, in the order it visits them: what the k-th of them
    yields is found under the k-th number.
   */
  lemma ScanFindsAll(s: O.Settings, vs: Views, symbol: string, now: int, pairs: seq<(Venue, Venue)>, counter: nat)
    requires EvaluateFrom(s, vs, symbol, now, pairs, [], counter).Done?
    ensures var r := EvaluateFrom(s, vs, symbol, now, pairs, [], counter).value;
            && r.1 == counter + |r.0|
            && exists picks :: Yielded(s, vs, symbol, now, pairs, counter, r.0, picks)
                               && PicksPaying(s, vs, symbol, now, pairs, |pairs|, picks)
  {
    assert pairs[0..] == pairs;
    hide EvaluateFrom, Pays;
    var picks := ScanFrom(s, vs, symbol, now, pairs, 0, counter, [], []);
  }

  // What is attempted.

  /** An opportunity as it is tried: the time of the pass, and the views it reads. */
  datatype Try = Try(opp: O.Opp, now: int, views: Views)

  /** Trying each of `plan` in turn, whatever the order of the positions at each check, can take `c` to `d`. */
  ghost predicate Attempted(cfg: EngineConfig, c: Core, plan: seq<Try>, d: Core) {
    if plan == [] then d == c
    else
      var t := plan[|plan| - 1];
      exists m: Core, e: R.ExposureSums ::
        && Attempted(cfg, c, plan[..|plan| - 1], m)
        && R.PossibleSums(e, m.ledger, RequestFor(t.opp, t.now, Same(t.views)))
        && MaybeExecuteGiven(cfg, m, t.opp, t.now, Same(t.views), e) == Done(d)
  }

  lemma NothingAttempted(cfg: EngineConfig, c: Core)
    ensures Attempted(cfg, c, [], c)
  {
  }

  lemma AttemptedOne(cfg: EngineConfig, c: Core, t: Try, e: R.ExposureSums, d: Core)
    requires R.PossibleSums(e, c.ledger, RequestFor(t.opp, t.now, Same(t.views)))
    requires MaybeExecuteGiven(cfg, c, t.opp, t.now, Same(t.views), e) == Done(d)
    ensures Attempted(cfg, c, [t], d)
  {
    hide R.PossibleSums, MaybeExecuteGiven, RequestFor;
    var plan := [t];
    assert plan[..|plan| - 1] == [] && plan[|plan| - 1] == t;
    assert Attempted(cfg, c, plan[..|plan| - 1], c);
  }

  lemma {:induction false} AttemptedBoth(cfg: EngineConfig, c: Core, a: seq<Try>, m: Core, b: seq<Try>, d: Core)
    requires Attempted(cfg, c, a, m) && Attempted(cfg, m, b, d)
    ensures Attempted(cfg, c, a + b, d)
  {
    hide R.PossibleSums, MaybeExecuteGiven, RequestFor;
    if b == [] {
      assert a + b == a;
    } else {
      var init, t := b[..|b| - 1], b[|b| - 1];
      var n, e :| Attempted(cfg, m, init, n)
                  && R.PossibleSums(e, n.ledger, RequestFor(t.opp, t.now, Same(t.views)))
                  && MaybeExecuteGiven(cfg, n, t.opp, t.now, Same(t.views), e) == Done(d);
      AttemptedBoth(cfg, c, a, m, init, n);
      assert (a + b)[..|a + b| - 1] == a + init && (a + b)[|a + b| - 1] == t;
    }
  }

  /** Opportunities tried in one pass. */
  function Tries(opps: seq<O.Opp>, now: int, vs: Views): (plan: seq<Try>)
    ensures |plan| == |opps| && forall k :: 0 <= k < |opps| ==> plan[k] == Try(opps[k], now, vs)
  {
    seq(|opps|, k requires 0 <= k < |opps| => Try(opps[k], now, vs))
  }

  lemma {:induction false} ExecutionTries(cfg: EngineConfig, c: Core, opps: seq<O.Opp>, now: int, vs: Views, d: Core)
    requires ExecutesTo(cfg, c, opps, now, vs, Done(d))
    ensures Attempted(cfg, c, Tries(opps, now, vs), d)
    decreases |opps|
  {
    hide R.PossibleSums, MaybeExecuteGiven, RequestFor, Attempted;
    if opps == [] {
      NothingAttempted(cfg, c);
    } else {
      var e, m := FirstAttempt(cfg, c, opps, now, vs, d);
      AttemptedOne(cfg, c, Try(opps[0], now, vs), e, m);
      ExecutionTries(cfg, m, opps[1..], now, vs, d);
      AttemptedBoth(cfg, c, [Try(opps[0], now, vs)], m, Tries(opps[1..], now, vs), d);
      assert Tries(opps, now, vs) == [Try(opps[0], now, vs)] + Tries(opps[1..], now, vs);
    }
  }

  /** What the scan of one symbol finds. */
  function FoundOn(cfg: EngineConfig, vs: Views, symbol: string, now: int, counter: nat): seq<O.Opp> {
    var r := EvaluateFrom(cfg.settings, vs, symbol, now, PairsFrom(cfg.venues, 0, 0), [], counter);
    if r.Done? then r.value.0 else []
  }

  /** What a pass over the first `n` symbols tries, each scan numbering on from the last. */
  function PassPlan(cfg: EngineConfig, vs: Views, clock: Clock, counter: nat, n: nat): seq<Try>
    requires n <= |cfg.symbols|
  {
    if n == 0 then []
    else
      var before := PassPlan(cfg, vs, clock, counter, n - 1);
      before + Tries(FoundOn(cfg, vs, cfg.symbols[n - 1], clock.Scan(n - 1), counter + |before|), clock.now, vs)
  }

  /** What a run tries: after each event, what a pass finds on the books as the events so far left them. */
  ghost function RunPlan(cfg: EngineConfig, lanes: Lanes, ts: seq<Tick>, counter: nat): seq<Try> {
    if ts == [] then []
    else
      var before := RunPlan(cfg, lanes, ts[..|ts| - 1], counter);
      before + PassPlan(cfg, Visible(LanesAfter(lanes, ts)), ts[|ts| - 1].clock, counter + |before|, |cfg.symbols|)
  }

  /** The scan of one symbol, and what it leads to. */
  lemma SymbolTries(cfg: EngineConfig, m: Machine, i: nat, vs: Views, clock: Clock, n: Machine) returns (next: Machine)
    requires i < |cfg.symbols| && PassesTo(cfg, m, i, vs, clock, Done(n))
    ensures PassesTo(cfg, next, i + 1, vs, clock, Done(n))
    ensures var opps := FoundOn(cfg, vs, cfg.symbols[i], clock.Scan(i), m.counter);
            && Attempted(cfg, m.core, Tries(opps, clock.now, vs), next.core) && next.counter == m.counter + |opps|
  {
    hide PassesTo, Attempted, EvaluateFrom, ExecutesTo, PairsFrom, PicksPaying, Yielded;
    var opps;
    opps, next := FirstSymbol(cfg, m, i, vs, clock, n);
    ScanFindsAll(cfg.settings, vs, cfg.symbols[i], clock.Scan(i), PairsFrom(cfg.venues, 0, 0), m.counter);
    ExecutionTries(cfg, m.core, opps, clock.now, vs, next.core);
  }

  lemma {:induction false} PassTries(cfg: EngineConfig, c: Core, counter: nat, m: Machine, i: nat, vs: Views,
                                     clock: Clock, n: Machine)
    requires i <= |cfg.symbols| && PassesTo(cfg, m, i, vs, clock, Done(n))
    requires Attempted(cfg, c, PassPlan(cfg, vs, clock, counter, i), m.core)
    requires m.counter == counter + |PassPlan(cfg, vs, clock, counter, i)|
    ensures Attempted(cfg, c, PassPlan(cfg, vs, clock, counter, |cfg.symbols|), n.core)
    ensures n.counter == counter + |PassPlan(cfg, vs, clock, counter, |cfg.symbols|)|
    decreases |cfg.symbols| - i
  {
    hide Attempted, FoundOn, ExecutesTo, EvaluateFrom, PairsFrom;
    if i < |cfg.symbols| {
      hide PassesTo;
      var next := SymbolTries(cfg, m, i, vs, clock, n);
      var found := Tries(FoundOn(cfg, vs, cfg.symbols[i], clock.Scan(i), m.counter), clock.now, vs);
      AttemptedBoth(cfg, c, PassPlan(cfg, vs, clock, counter, i), m.core, found, next.core);
      assert PassPlan(cfg, vs, clock, counter, i + 1) == PassPlan(cfg, vs, clock, counter, i) + found;
      PassTries(cfg, c, counter, next, i + 1, vs, clock, n);
    }
  }

  /**
    Any outcome of a deterministic run is what trying its whole plan comes to: after every event,
    on the books as that event left them, every opportunity that a scan finds, in order.
   */
  lemma {:induction false} RunTriesAll(cfg: EngineConfig, s: RunState, ts: seq<Tick>, r: RunState)
    requires RunsTo(cfg, s, ts, Done(r))
    ensures var plan := RunPlan(cfg, s.lanes, ts, s.machine.counter);
            && Attempted(cfg, s.machine.core, plan, r.machine.core)
            && r.machine.counter == s.machine.counter + |plan|
  {
    hide Attempted, RunPlan;
    if ts == [] {
      NothingPlanned(cfg, s);
    } else {
      hide RunsTo, TicksTo;
      var m := LastTick(cfg, s, ts, r);
      RunTriesAll(cfg, s, ts[..|ts| - 1], m);
      TickTries(cfg, m, ts[|ts| - 1], r);
      RunLanes(cfg, s, ts, r);
      PlanThen(cfg, s, ts, m, r);
    }
  }

  lemma NothingPlanned(cfg: EngineConfig, s: RunState)
    ensures RunPlan(cfg, s.lanes, [], s.machine.counter) == [] && Attempted(cfg, s.machine.core, [], s.machine.core)
  {
  }

  lemma PlanThen(cfg: EngineConfig, s: RunState, ts: seq<Tick>, m: RunState, r: RunState)
    requires ts != [] && r.lanes == LanesAfter(s.lanes, ts)
    requires var plan := RunPlan(cfg, s.lanes, ts[..|ts| - 1], s.machine.counter);
             Attempted(cfg, s.machine.core, plan, m.machine.core) && m.machine.counter == s.machine.counter + |plan|
    requires var plan := PassPlan(cfg, Visible(r.lanes), ts[|ts| - 1].clock, m.machine.counter, |cfg.symbols|);
             && Attempted(cfg, m.machine.core, plan, r.machine.core)
             && r.machine.counter == m.machine.counter + |plan|
    ensures var plan := RunPlan(cfg, s.lanes, ts, s.machine.counter);
            && Attempted(cfg, s.machine.core, plan, r.machine.core)
            && r.machine.counter == s.machine.counter + |plan|
  {
    hide Attempted, PassPlan, LanesAfter, Visible;
    AttemptedBoth(cfg, s.machine.core, RunPlan(cfg, s.lanes, ts[..|ts| - 1], s.machine.counter), m.machine.core,
                  PassPlan(cfg, Visible(r.lanes), ts[|ts| - 1].clock, m.machine.counter, |cfg.symbols|),
                  r.machine.core);
  }

  lemma TickTries(cfg: EngineConfig, m: RunState, t: Tick, r: RunState)
    requires TicksTo(cfg, m, t, Done(r))
    ensures var plan := PassPlan(cfg, Visible(r.lanes), t.clock, m.machine.counter, |cfg.symbols|);
            && Attempted(cfg, m.machine.core, plan, r.machine.core)
            && r.machine.counter == m.machine.counter + |plan|
  {
    hide PassesTo, Applied, Visible, Attempted;
    NothingAttempted(cfg, m.machine.core);
    assert PassPlan(cfg, Visible(r.lanes), t.clock, m.machine.counter, 0) == [];
    PassTries(cfg, m.machine.core, m.machine.counter, m.machine, 0, Visible(r.lanes), t.clock, r.machine);
  }
}
