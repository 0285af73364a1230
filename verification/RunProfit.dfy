/** What a whole deterministic run earns against what its opportunities were priced at. */
module RunProfit {
  import opened Outcomes
  import opened Decimal
  import opened Portfolio
  import opened ModestFills
  import opened Markets
  import opened EngineSpec
  import opened Settlement
  import opened RunTrades
  import opened DeterministicRun

  function Worth(trades: seq<Trade>): int {
    if trades == [] then 0 else Worth(trades[..|trades| - 1]) + trades[|trades| - 1].Worth()
  }

  lemma {:induction false} ProfitAtLeastWorth(trades: seq<Trade>)
    requires AllWorth(trades)
    ensures ProfitSum(trades) * SCALE >= Worth(trades) + |trades|
  {
    if trades != [] {
      ProfitAtLeastWorth(trades[..|trades| - 1]);
    }
  }

  /**
    A deterministic run earns what it priced, up to rounding, whatever its symbols and whatever
    order the positions are visited in: some trades lead to each of its outcomes, and whichever
    do, there is one per execution, and the realized profit of the whole run is at least the sum
    over them of priced net plus slippage and latency reserves, less n + n*q/1e8 for the n bid
    levels that each sale of q touched.
   */
  lemma RunRealizesPricedProfit(cfg: EngineConfig, seeds: map<Key, Fixed>, lanes: Lanes, ts: seq<Tick>, r: RunState)
    requires RunIn(NonnegPrice, cfg, lanes, ts) && SoundSettings(cfg.settings)
    requires RunsTo(cfg, RunState(Started(cfg.limits, seeds), lanes), ts, Done(r))
    ensures exists trades :: RunsBy(cfg, RunState(Started(cfg.limits, seeds), lanes), ts, r, trades)
    ensures forall trades :: RunsBy(cfg, RunState(Started(cfg.limits, seeds), lanes), ts, r, trades) ==>
                               && |trades| == r.machine.core.executed
                               && r.machine.core.ledger.realized * SCALE >= Worth(trades) + |trades|
  {
    hide RunsTo, RunsBy, SoundSettings, RunIn, ProfitSum, AllWorth;
    var s := RunState(Started(cfg.limits, seeds), lanes);
    var some := RunHasTrades(cfg, s, ts, r);
    StartedBooks(cfg.limits, seeds, {});
    forall trades | RunsBy(cfg, s, ts, r, trades)
      ensures |trades| == r.machine.core.executed
      ensures r.machine.core.ledger.realized * SCALE >= Worth(trades) + |trades|
    {
      RunMoves(cfg, s, ts, NonnegPrice, r, trades);
      ProfitAtLeastWorth(trades);
    }
  }
}
