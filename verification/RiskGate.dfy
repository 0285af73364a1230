/** What the risk gate guarantees over whole histories, live or deterministic. */
module RiskGate {
  import opened Outcomes
  import opened EngineSpec
  import opened Attempts
  import R = Risk
  import O = Opportunity

  /** What can happen between two states: an attempt on any opportunity, or an operator's action. */
  datatype Event =
    | Attempt(opp: O.Opp, now: int, seen: Reads, sums: R.ExposureSums)
    | ResetKill
    | ActivateKill(reason: string)

  function Happens(cfg: EngineConfig, c: Core, e: Event): Checked<Core> {
    match e
    case Attempt(o, now, seen, sums) => MaybeExecuteGiven(cfg, c, o, now, seen, sums)
    case ResetKill => Done(c.(risk := R.Reset(c.risk)))
    case ActivateKill(reason) => Done(c.(risk := R.Killed(c.risk, reason)))
  }

  function History(cfg: EngineConfig, c: Core, es: seq<Event>): Checked<Core> {
    if es == [] then Done(c)
    else
      var d :- History(cfg, c, es[..|es| - 1]);
      Happens(cfg, d, es[|es| - 1])
  }

  /** An attempt executes only when no reason of state speaks against it; otherwise nothing changes. */
  lemma AttemptIsGated(cfg: EngineConfig, c: Core, o: O.Opp, now: int, seen: Reads, e: R.ExposureSums)
    requires MaybeExecuteGiven(cfg, c, o, now, seen, e).Done?
    ensures var d := MaybeExecuteGiven(cfg, c, o, now, seen, e).value;
            || d == c
            || (&& !c.risk.kill
                && (cfg.limits.maxConsecutiveFails > 0 ==> c.risk.consecutiveFails < cfg.limits.maxConsecutiveFails)
                && Traded(cfg, c.sim, o, seen).Done?
                && d.risk == RiskAfter(cfg.limits, c.risk, BothFilled(Traded(cfg, c.sim, o, seen).value.result)))
  {
    hide Traded, SettleResult;
    var r := RequestFor(o, now, seen);
    var reasons := R.ReasonsGiven(cfg.limits, c.risk, r, c.ledger.realized, e).value;
    assert R.StateReasons(cfg.limits, c.risk) <= reasons;
    R.NoStateReason(cfg.limits, c.risk);
  }

  /** Opening and closing two orders leaves the count of outstanding orders as it was. */
  lemma RiskAfterFacts(l: R.Limits, s: R.RiskState, success: bool)
    ensures var t := RiskAfter(l, s, success);
            && t.outstanding == s.outstanding
            && t.consecutiveFails == (if success then 0 else s.consecutiveFails + 1)
            && (s.kill ==> t.kill)
            && (l.maxConsecutiveFails > 0 && t.consecutiveFails >= l.maxConsecutiveFails ==> t.kill)
  {
  }

  /** With the kill switch set, an attempt submits nothing, settles nothing and books nothing. */
  lemma KilledMeansNothing(cfg: EngineConfig, c: Core, o: O.Opp, now: int, seen: Reads, e: R.ExposureSums)
    requires c.risk.kill
    ensures MaybeExecuteGiven(cfg, c, o, now, seen, e).Done? ==> MaybeExecuteGiven(cfg, c, o, now, seen, e).value == c
  {
    if MaybeExecuteGiven(cfg, c, o, now, seen, e).Done? {
      AttemptIsGated(cfg, c, o, now, seen, e);
    }
  }

  lemma EventKeepsGate(cfg: EngineConfig, c: Core, e: Event)
    requires cfg.limits.maxConsecutiveFails > 0 && c.risk.consecutiveFails <= cfg.limits.maxConsecutiveFails
    requires Happens(cfg, c, e).Done?
    ensures var d := Happens(cfg, c, e).value;
            && d.risk.consecutiveFails <= cfg.limits.maxConsecutiveFails
            && d.risk.outstanding == c.risk.outstanding
            && (c.risk.consecutiveFails == cfg.limits.maxConsecutiveFails ==>
                  d == c.(risk := d.risk) && d.risk.consecutiveFails == c.risk.consecutiveFails)
  {
    match e
    case Attempt(o, now, seen, sums) =>
      AttemptIsGated(cfg, c, o, now, seen, sums);
      var d := Happens(cfg, c, e).value;
      if d != c {
        RiskAfterFacts(cfg.limits, c.risk, BothFilled(Traded(cfg, c.sim, o, seen).value.result));
      }
    case ResetKill =>
    case ActivateKill(reason) =>
  }

  /**
    Over any history the failure count stays within its maximum and no order stays outstanding.
   */
  lemma {:induction false} FailuresStayBounded(cfg: EngineConfig, c: Core, es: seq<Event>)
    requires cfg.limits.maxConsecutiveFails > 0 && c.risk.consecutiveFails <= cfg.limits.maxConsecutiveFails
    requires History(cfg, c, es).Done?
    ensures var d := History(cfg, c, es).value;
            d.risk.consecutiveFails <= cfg.limits.maxConsecutiveFails && d.risk.outstanding == c.risk.outstanding
  {
    if es != [] {
      FailuresStayBounded(cfg, c, es[..|es| - 1]);
      EventKeepsGate(cfg, History(cfg, c, es[..|es| - 1]).value, es[|es| - 1]);
    }
  }

  /**
    Reaching the maximum is for good: whatever is attempted afterwards, and however often the
    kill switch is reset, no order is ever submitted again and no amount ever moves.
   */
  lemma {:induction false} MaximumIsAbsorbing(cfg: EngineConfig, c: Core, es: seq<Event>)
    requires cfg.limits.maxConsecutiveFails > 0 && c.risk.consecutiveFails == cfg.limits.maxConsecutiveFails
    requires History(cfg, c, es).Done?
    ensures var d := History(cfg, c, es).value;
            d == c.(risk := d.risk) && d.risk.consecutiveFails == c.risk.consecutiveFails
  {
    if es != [] {
      MaximumIsAbsorbing(cfg, c, es[..|es| - 1]);
      EventKeepsGate(cfg, History(cfg, c, es[..|es| - 1]).value, es[|es| - 1]);
    }
  }
}
