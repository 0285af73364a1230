/** The paper execution simulator: submission, depth-consuming fills, two-leg arbitrage. */
module Execution {
  import opened Outcomes
  import opened Decimal
  import opened Domain
  import opened BookSpec
  import opened Orders

  datatype FillRecord = FillRecord(order: nat, price: Fixed, qty: Fixed, fee: Fixed)

  /** The accumulators of FillAgainstBook, and the fills reported to the sink so far. */
  datatype Tally = Tally(remaining: Fixed, cost: Fixed, fee: Fixed, filled: Fixed, fills: seq<FillRecord>)

  datatype FillRun = FillRun(order: OrderData, tally: Tally, status: Status)

  /** An IOC order stops at the first level beyond its limit. */
  predicate Beyond(o: OrderData, price: Fixed) {
    o.kind == IOCLimit && (if o.side == Buy then price > o.price else price < o.price)
  }

  /** One level: its share of the accumulators, then the fill. */
  function FillLevel(o: OrderData, l: Level, t: Tally, bps: Fixed): Checked<FillRun> {
    var take := if l.qty > t.remaining then t.remaining else l.qty;
    var notional :- Mul(l.price, take);
    var fee :- MulBps(notional, bps);
    var cost :- Add(t.cost, notional);
    var totalFee :- Add(t.fee, fee);
    var filled :- Add(t.filled, take);
    var remaining :- Sub(t.remaining, take);
    var (p, status) :- WithFill(o, l.price, take);
    var fills := if status == Success then t.fills + [FillRecord(o.id, l.price, take, fee)] else t.fills;
    Done(FillRun(p, Tally(remaining, cost, totalFee, filled, fills), status))
  }

  /** The loop over the levels. */
  function FillLevels(o: OrderData, s: seq<Level>, t: Tally, bps: Fixed): Checked<FillRun>
    decreases |s|
  {
    if s == [] || t.remaining == 0 || Beyond(o, s[0].price) then Done(FillRun(o, t, Success))
    else
      var r :- FillLevel(o, s[0], t, bps);
      if r.status != Success then Done(r) else FillLevels(r.order, s[1..], r.tally, bps)
  }

  /** One round of the loop. */
  lemma LevelsStep(o: OrderData, s: seq<Level>, i: nat, t: Tally, bps: Fixed)
    requires i <= |s|
    ensures FillLevels(o, s[i..], t, bps)
            == if i == |s| || t.remaining == 0 || Beyond(o, s[i].price) then Done(FillRun(o, t, Success))
               else match FillLevel(o, s[i], t, bps)
                    case Panicked => Panicked
                    case Done(r) =>
                      if r.status != Success then Done(r) else FillLevels(r.order, s[i + 1..], r.tally, bps)
  {
    hide FillLevel, Beyond;
    if i < |s| {
      assert s[i..][1..] == s[i + 1..];
    }
  }

  datatype Leg = Leg(filledQty: Fixed, vwap: Fixed, notional: Fixed, fee: Fixed, rejected: bool)

  const NoLeg := Leg(0, 0, 0, 0, false)

  datatype LegRun = LegRun(order: OrderData, leg: Leg, fills: seq<FillRecord>, status: Status)

  function SideLevels(side: Side, v: View): seq<Level> {
    if side == Sell then v.bids else v.asks
  }

  /** The levels worked against the view that the manager hands out for the order's book. */
  function FillAgainst(o: OrderData, view: Option<View>, bps: Fixed): Checked<LegRun> {
    if view.None? || !view.value.state.ready then
      var (p, status) := Transitioned(o, Rejected);
      if status != Success then Done(LegRun(o, NoLeg, [], status))
      else Done(LegRun(p, NoLeg.(rejected := true), [], BookNotReady))
    else
      var remaining :- Sub(o.quantity, o.filledQuantity);
      var r :- FillLevels(o, SideLevels(o.side, view.value), Tally(remaining, 0, 0, 0, []), bps);
      if r.status != Success then Done(LegRun(r.order, NoLeg, r.tally.fills, r.status))
      else
        // An IOC order cancels its remainder; one that filled nothing is left as it is.
        var p := if o.kind == IOCLimit && r.order.state == PartiallyFilled then Transitioned(r.order, Cancelled).0
                 else r.order;
        Done(LegRun(p, Leg(r.tally.filled, p.avgFillPrice, r.tally.cost, r.tally.fee, false), r.tally.fills, Success))
  }

  // Two legs.

  datatype Policy = Parallel | BuyFirst | SellFirst

  datatype ArbResult = ArbResult(buy: Leg, sell: Leg, residual: Fixed, realized: Fixed)

  /** Residual exposure, and profit on the matched quantity only. */
  function Combine(buy: Leg, sell: Leg): Checked<ArbResult> {
    var residual :- Sub(buy.filledQty, sell.filledQty);
    var matched := if sell.filledQty < buy.filledQty then sell.filledQty else buy.filledQty;
    if matched <= 0 then Done(ArbResult(buy, sell, residual, 0))
    else
      var buyCost :- Mul(buy.vwap, matched);
      var proceeds :- Mul(sell.vwap, matched);
      var fees :- Add(buy.fee, sell.fee);
      var gross :- Sub(proceeds, buyCost);
      var realized :- Sub(gross, fees);
      Done(ArbResult(buy, sell, residual, realized))
  }

  datatype ArbRun = ArbRun(
    result: ArbResult, buyOrder: OrderData, sellOrder: OrderData, buyFills: seq<FillRecord>, sellFills: seq<FillRecord>)

  /** Both legs of an arbitrage and their combination; the legs of two orders do not see each other. */
  function Arbitrage(buy: OrderData, sell: OrderData, buyView: Option<View>, sellView: Option<View>,
                     buyBps: Fixed, sellBps: Fixed): Checked<ArbRun> {
    var b :- FillAgainst(buy, buyView, buyBps);
    var s :- FillAgainst(sell, sellView, sellBps);
    var result :- Combine(b.leg, s.leg);
    Done(ArbRun(result, b.order, s.order, b.fills, s.fills))
  }

  /** The legs in the policy's order. When both are the `same` order, the second works what the first left. */
  function LegsInOrder(buy: OrderData, sell: OrderData, same: bool, policy: Policy, buyView: Option<View>,
                       sellView: Option<View>, buyBps: Fixed, sellBps: Fixed): Checked<(LegRun, LegRun)> {
    if policy == SellFirst then
      var s :- FillAgainst(sell, sellView, sellBps);
      var b :- FillAgainst(if same then s.order else buy, buyView, buyBps);
      Done((b, s))
    else
      var b :- FillAgainst(buy, buyView, buyBps);
      var s :- FillAgainst(if same then b.order else sell, sellView, sellBps);
      Done((b, s))
  }

  /** The policy decides which leg goes first, and so which of one order's two legs sees what the other left. */
  lemma FirstLegFirst(buy: OrderData, sell: OrderData, same: bool, policy: Policy, buyView: Option<View>,
                      sellView: Option<View>, buyBps: Fixed, sellBps: Fixed)
    requires LegsInOrder(buy, sell, same, policy, buyView, sellView, buyBps, sellBps).Done?
    ensures var (b, s) := LegsInOrder(buy, sell, same, policy, buyView, sellView, buyBps, sellBps).value;
            && (policy == SellFirst || !same ==> FillAgainst(sell, sellView, sellBps) == Done(s))
            && (policy != SellFirst || !same ==> FillAgainst(buy, buyView, buyBps) == Done(b))
            && (policy == SellFirst && same ==> FillAgainst(s.order, buyView, buyBps) == Done(b))
            && (policy != SellFirst && same ==> FillAgainst(b.order, sellView, sellBps) == Done(s))
            && FillsOf(policy, b, s) == if policy == SellFirst then s.fills + b.fills else b.fills + s.fills
  {
    hide FillAgainst;
  }

  function FillsOf(policy: Policy, b: LegRun, s: LegRun): seq<FillRecord> {
    if policy == SellFirst then s.fills + b.fills else b.fills + s.fills
  }

  /** For two orders the policy decides the order of the reported fills and nothing else. */
  lemma PolicyOrdersFillsOnly(buy: OrderData, sell: OrderData, policy: Policy, buyView: Option<View>,
                              sellView: Option<View>, buyBps: Fixed, sellBps: Fixed)
    ensures Arbitrage(buy, sell, buyView, sellView, buyBps, sellBps)
            == match LegsInOrder(buy, sell, false, policy, buyView, sellView, buyBps, sellBps)
               case Panicked => Panicked
               case Done((b, s)) =>
                 match Combine(b.leg, s.leg)
                 case Panicked => Panicked
                 case Done(result) => Done(ArbRun(result, b.order, s.order, b.fills, s.fills))
  {
  }

  // The simulator.

  /** A client order id is submitted once: a new order is numbered next and pending, a known one is left alone. */
  lemma SubmittedOnce(s: SimState, o: OrderData)
    ensures var t, id := Submitted(s, o), o.clientOrderID;
            && id in t.orders && t.sink == s.sink
            && (forall c :: c in s.orders ==> c in t.orders && t.orders[c] == s.orders[c])
            && (forall c :: c in t.orders ==> c in s.orders || c == id)
            && (id in s.orders ==> t == s)
            && (id !in s.orders ==> t.counter == s.counter + 1 && t.orders[id].id == s.counter + 1
                                    && t.orders[id].state == Pending
                                    && t.orders[id] == o.(id := t.counter, state := Pending))
  {
  }

  /** Orders by client order id, the id counter, and the fills reported so far. */
  datatype SimState = SimState(orders: map<ClientOrderID, OrderData>, counter: nat, sink: seq<FillRecord>)

  /** Submission is idempotent in the client order id. */
  function Submitted(s: SimState, o: OrderData): SimState {
    if o.clientOrderID in s.orders then s
    else
      var n := s.counter + 1;
      s.(counter := n, orders := s.orders[o.clientOrderID := o.(id := n, state := Pending)])
  }

  class Simulator {
    const fees: FeeSchedule
    var byID: map<nat, Order>
    var byClientID: map<ClientOrderID, Order>
    var counter: nat
    var sink: seq<FillRecord>

    ghost function Value(): SimState
      reads this, byClientID.Values
    {
      SimState(map c | c in byClientID :: byClientID[c].Value(), counter, sink)
    }

    /** Both indexes hold the same orders, each under its own ids, numbered 1..counter. */
    ghost predicate Valid()
      reads this`byID, this`byClientID, this`counter
    {
      && (forall c :: c in byClientID ==>
            var o := byClientID[c];
            o.clientOrderID == c && 1 <= o.id <= counter && o.id in byID && byID[o.id] == o)
      && (forall n :: n in byID ==>
            byID[n].id == n && byID[n].clientOrderID in byClientID && byClientID[byID[n].clientOrderID] == byID[n])
    }

    constructor (fees: FeeSchedule)
      ensures Valid() && Value() == SimState(map[], 0, []) && this.fees == fees
    {
      this.fees := fees;
      byID, byClientID, counter, sink := map[], map[], 0, [];
    }

    /** A duplicate returns the order already there, unchanged; ids are never reused. */
    method Submit(o: OrderData) returns (r: Order)
      requires Valid()
      modifies this
      ensures Valid() && Value() == Submitted(old(Value()), o)
      ensures o.clientOrderID in byClientID && r == byClientID[o.clientOrderID] && r.clientOrderID == o.clientOrderID
      ensures o.clientOrderID in old(byClientID) ==> r == old(byClientID)[o.clientOrderID]
      ensures o.clientOrderID !in old(byClientID) ==> fresh(r) && r.id !in old(byID)
      ensures forall c :: c in old(byClientID) ==> c in byClientID && byClientID[c] == old(byClientID)[c]
      ensures byClientID.Values <= old(byClientID.Values) + {r}
    {
      if o.clientOrderID in byClientID {
        r := byClientID[o.clientOrderID];
        return;
      }
      r := Register(o);
    }

    /** The fresh half of Submit: the next number, a copy of the order, and both indexes. */
    method Register(o: OrderData) returns (r: Order)
      requires Valid() && o.clientOrderID !in byClientID
      modifies this
      ensures Valid() && sink == old(sink) && counter == old(counter) + 1
      ensures fresh(r) && r.Value() == o.(id := counter, state := Pending) && counter !in old(byID)
      ensures byClientID == old(byClientID)[o.clientOrderID := r]
    {
      counter := counter + 1;
      assert counter !in byID;
      r := new Order(o.(id := counter, state := Pending));
      byID := byID[counter := r];
      byClientID := byClientID[o.clientOrderID := r];
    }

    /** FillAgainstBook, given the view the manager hands out for the order's book. */
    method FillAgainstBook(o: Order, view: Option<View>) returns (r: Checked<(Leg, Status)>)
      modifies this`sink, o
      ensures match FillAgainst(old(o.Value()), view, TakerBps(fees, o.venue))
              case Panicked => r.Panicked?
              case Done(run) => r == Done((run.leg, run.status)) && o.Value() == run.order
                                && sink == old(sink) + run.fills
    {
      if view.None? || !view.value.state.ready {
        var refused := o.Transition(Rejected);
        if refused != Success {
          return Done((NoLeg, refused));
        }
        return Done((NoLeg.(rejected := true), BookNotReady));
      }
      var levels := view.value.asks;
      if o.side == Sell {
        levels := view.value.bids;
      }
      var remaining :- Sub(o.quantity, o.filledQuantity);
      var sums :- ConsumeLevels(o, levels, remaining);
      if sums.status != Success {
        return Done((NoLeg, sums.status));
      }
      if o.kind == IOCLimit && o.state == PartiallyFilled {
        var cancelled := o.Transition(Cancelled);
        assert cancelled == Success;
      }
      r := Done((Leg(sums.filled, o.avgFillPrice, sums.cost, sums.fee, false), Success));
    }

    /** The level loop of FillAgainstBook. */
    method ConsumeLevels(o: Order, levels: seq<Level>, start: Fixed) returns (r: Checked<LoopSums>)
      modifies this`sink, o
      ensures match FillLevels(old(o.Value()), levels, Tally(start, 0, 0, 0, []), TakerBps(fees, o.venue))
              case Panicked => r.Panicked?
              case Done(run) => r == Done(LoopSums(run.tally.cost, run.tally.fee, run.tally.filled, run.status))
                                && o.Value() == run.order && sink == old(sink) + run.tally.fills
    {
      hide FillLevels, FillLevel;
      var t := Tally(start, 0, 0, 0, []);
      var bps := TakerBps(fees, o.venue);
      ghost var whole := FillLevels(o.Value(), levels, t, bps);
      assert levels[0..] == levels;
      var i := 0;
      while i < |levels|
        invariant 0 <= i <= |levels|
        invariant FillLevels(o.Value(), levels[i..], t, bps) == whole
        invariant sink == old(sink) + t.fills
      {
        LevelsStep(o.Value(), levels, i, t, bps);
        if t.remaining == 0 {
          break;
        }
        var l := levels[i];
        if o.kind == IOCLimit && ((o.side == Buy && l.price > o.price) || (o.side == Sell && l.price < o.price)) {
          break;
        }
        var step :- ConsumeLevel(o, l, t, bps, old(sink));
        t := step.0;
        if step.1 != Success {
          return Done(LoopSums(t.cost, t.fee, t.filled, step.1));
        }
        i := i + 1;
      }
      LevelsStep(o.Value(), levels, i, t, bps);
      r := Done(LoopSums(t.cost, t.fee, t.filled, Success));
    }

    /** The body of the level loop; `before` is what the sink held when the loop began. */
    method ConsumeLevel(o: Order, l: Level, t: Tally, bps: Fixed, ghost before: seq<FillRecord>)
      returns (r: Checked<(Tally, Status)>)
      requires sink == before + t.fills
      modifies this`sink, o
      ensures match FillLevel(old(o.Value()), l, t, bps)
              case Panicked => r.Panicked?
              case Done(run) => r == Done((run.tally, run.status)) && o.Value() == run.order
                                && sink == before + run.tally.fills
    {
      var take: Fixed := if l.qty > t.remaining then t.remaining else l.qty;
      var notional :- Mul(l.price, take);
      var fee :- MulBps(notional, bps);
      var cost :- Add(t.cost, notional);
      var totalFee :- Add(t.fee, fee);
      var filled :- Add(t.filled, take);
      var remaining :- Sub(t.remaining, take);
      var status :- o.Fill(l.price, take);
      if status != Success {
        return Done((Tally(remaining, cost, totalFee, filled, t.fills), status));
      }
      var record := FillRecord(o.id, l.price, take, fee);
      sink := sink + [record];
      r := Done((Tally(remaining, cost, totalFee, filled, t.fills + [record]), Success));
    }

    /** Two legs in the policy's order; a result other than BookNotReady is only reported. */
    method ExecuteArbitrage(buy: Order, sell: Order, policy: Policy, buyView: Option<View>, sellView: Option<View>)
      returns (r: Checked<ArbResult>)
      modifies this`sink, buy, sell
      ensures match LegsInOrder(old(buy.Value()), old(sell.Value()), buy == sell, policy, buyView, sellView,
                                TakerBps(fees, buy.venue), TakerBps(fees, sell.venue))
              case Panicked => r.Panicked?
              case Done((b, s)) =>
                match Combine(b.leg, s.leg)
                case Panicked => r.Panicked?
                case Done(result) =>
                  && r == Done(result) && LegsLeft(buy, sell, policy, b, s)
                  && sink == old(sink) + if policy == SellFirst then s.fills + b.fills else b.fills + s.fills
    {
      var legs :- RunLegs(buy, sell, policy, buyView, sellView);
      r := Combine(legs.0, legs.1);
    }

    /** What the orders are after both legs; one order worked twice is as the second leg left it. */
    ghost predicate LegsLeft(buy: Order, sell: Order, policy: Policy, b: LegRun, s: LegRun)
      reads buy, sell
    {
      if buy == sell then buy.Value() == (if policy == SellFirst then b.order else s.order)
      else buy.Value() == b.order && sell.Value() == s.order
    }

    method RunLegs(buy: Order, sell: Order, policy: Policy, buyView: Option<View>, sellView: Option<View>)
      returns (r: Checked<(Leg, Leg)>)
      modifies this`sink, buy, sell
      ensures match LegsInOrder(old(buy.Value()), old(sell.Value()), buy == sell, policy, buyView, sellView,
                                TakerBps(fees, buy.venue), TakerBps(fees, sell.venue))
              case Panicked => r.Panicked?
              case Done((b, s)) =>
                && r == Done((b.leg, s.leg)) && LegsLeft(buy, sell, policy, b, s)
                && sink == old(sink) + FillsOf(policy, b, s)
    {
      hide FillAgainst;
      var buyLeg: (Leg, Status), sellLeg: (Leg, Status);
      if policy == SellFirst {
        sellLeg :- FillAgainstBook(sell, sellView);
        buyLeg :- FillAgainstBook(buy, buyView);
      } else {
        buyLeg :- FillAgainstBook(buy, buyView);
        sellLeg :- FillAgainstBook(sell, sellView);
      }
      r := Done((buyLeg.0, sellLeg.0));
    }
  }

  datatype LoopSums = LoopSums(cost: Fixed, fee: Fixed, filled: Fixed, status: Status)
}
