/** What filling an order against a book does: how far it fills, at what cost, fee and average. */
module FillTheory {
  import opened Outcomes
  import opened Decimal
  import opened Domain
  import opened BookSpec
  import opened Walk
  import opened Orders
  import opened Execution

  // How far an order fills.

  /** The levels an order may work: all of them, or those before the first one beyond its limit. */
  function Crossing(o: OrderData, s: seq<Level>): seq<Level> {
    if s == [] || Beyond(o, s[0].price) then [] else [s[0]] + Crossing(o, s[1..])
  }

  /** An order that can still be worked: between 0 and its quantity, and not in a final state. */
  predicate Workable(o: OrderData) {
    !Terminal(o.state) && 0 <= o.filledQuantity <= o.quantity
  }

  /** `p` is `o` after filling `k` more. */
  predicate FilledOn(o: OrderData, p: OrderData, k: nat) {
    && p.filledQuantity == o.filledQuantity + k
    && p == o.(filledQuantity := p.filledQuantity, avgFillPrice := p.avgFillPrice, state := p.state)
    && p.state == (if k == 0 then o.state else if p.filledQuantity == o.quantity then Filled else PartiallyFilled)
    && (k == 0 ==> p == o)
  }

  /** `u` is `t` after `k` units in `n` fills. */
  predicate Advanced(t: Tally, u: Tally, k: nat, n: nat) {
    u.filled == t.filled + k && u.remaining == t.remaining - k && |u.fills| == |t.fills| + n
  }

  lemma FillLevelProgress(o: OrderData, l: Level, t: Tally, bps: Fixed)
    requires Workable(o) && l.qty > 0 && t.remaining > 0 && t.remaining == o.quantity - o.filledQuantity
    ensures match FillLevel(o, l, t, bps)
            case Panicked => true
            case Done(r) =>
              var k := Min(l.qty, t.remaining);
              r.status == Success && FilledOn(o, r.order, k) && Advanced(t, r.tally, k, 1)
  {
    var take := if l.qty > t.remaining then t.remaining else l.qty;
    FillStates(o, l.price, take);
  }

  lemma CrossingStays(o: OrderData, p: OrderData, s: seq<Level>)
    requires o.kind == p.kind && o.side == p.side && o.price == p.price
    ensures Crossing(o, s) == Crossing(p, s)
  {
  }

  lemma CrossingPositive(o: OrderData, s: seq<Level>)
    requires PositiveLevels(s)
    ensures PositiveLevels(Crossing(o, s))
    ensures NonnegPrices(s) ==> NonnegPrices(Crossing(o, s))
  {
  }

  lemma FilledOnThen(o: OrderData, p: OrderData, q: OrderData, j: nat, k: nat)
    requires FilledOn(o, p, j) && FilledOn(p, q, k) && j > 0
    ensures FilledOn(o, q, j + k)
  {
  }

  /** `r` filled what the levels `c` offer to an order `o` that started the loop at `t`. */
  predicate FilledFrom(o: OrderData, t: Tally, c: seq<Level>, r: FillRun)
    requires PositiveLevels(c) && t.remaining >= 0
  {
    && r.status == Success
    && FilledOn(o, r.order, FilledBy(c, t.remaining))
    && Advanced(t, r.tally, FilledBy(c, t.remaining), Touched(c, t.remaining))
  }

  lemma FilledFromThen(o: OrderData, t: Tally, p: OrderData, u: Tally, c: seq<Level>, r: FillRun)
    requires PositiveLevels(c) && c != [] && t.remaining > 0
    requires FilledOn(o, p, Take(c, t.remaining)) && Advanced(t, u, Take(c, t.remaining), 1)
    requires FilledFrom(p, u, c[1..], r)
    ensures FilledFrom(o, t, c, r)
  {
    FilledOnThen(o, p, r.order, Take(c, t.remaining), FilledBy(c[1..], u.remaining));
  }

  /** The loop fills min(remaining, crossing depth) and never fails on an order that can be worked. */
  lemma {:induction false} FillLevelsProgress(o: OrderData, s: seq<Level>, t: Tally, bps: Fixed)
    requires Workable(o) && PositiveLevels(s) && PositiveLevels(Crossing(o, s))
    requires 0 <= t.remaining == o.quantity - o.filledQuantity
    ensures FillLevels(o, s, t, bps).Done? ==> FilledFrom(o, t, Crossing(o, s), FillLevels(o, s, t, bps).value)
    decreases |s|
  {
    if s != [] && t.remaining != 0 && !Beyond(o, s[0].price) && FillLevel(o, s[0], t, bps).Done? {
      FillLevelProgress(o, s[0], t, bps);
      var r := FillLevel(o, s[0], t, bps).value;
      CrossingStays(o, r.order, s[1..]);
      CrossingPositive(o, s[1..]);
      assert Crossing(o, s)[1..] == Crossing(o, s[1..]);
      if r.tally.remaining == 0 {
        assert FillLevels(r.order, s[1..], r.tally, bps) == Done(FillRun(r.order, r.tally, Success));
      } else {
        FillLevelsProgress(r.order, s[1..], r.tally, bps);
      }
      if FillLevels(o, s, t, bps).Done? {
        FilledFromThen(o, t, r.order, r.tally, Crossing(o, s), FillLevels(o, s, t, bps).value);
      }
    }
  }

  // IOC limits against sorted levels.

  /** The depth at or better than an order's limit, wherever in the list it is. */
  function DepthWithin(o: OrderData, s: seq<Level>): nat
    requires PositiveLevels(s)
  {
    if s == [] then 0
    else
      var p := s[0].price;
      var worse := o.kind == IOCLimit && ((o.side == Buy && p > o.price) || (o.side == Sell && p < o.price));
      (if worse then 0 else s[0].qty) + DepthWithin(o, s[1..])
  }

  /** The order of levels justifies stopping at the first one beyond the limit. */
  lemma {:induction false} BreakIsJustified(o: OrderData, s: seq<Level>)
    requires PositiveLevels(s) && PositiveLevels(Crossing(o, s))
    requires Sorted(if o.side == Buy then Sell else Buy, s)
    ensures TotalQty(Crossing(o, s)) == DepthWithin(o, s)
  {
    if s != [] {
      CrossingPositive(o, s[1..]);
      if Beyond(o, s[0].price) {
        NothingWithin(o, s);
      } else {
        assert Crossing(o, s)[1..] == Crossing(o, s[1..]);
        BreakIsJustified(o, s[1..]);
      }
    }
  }

  lemma {:induction false} NothingWithin(o: OrderData, s: seq<Level>)
    requires PositiveLevels(s) && Sorted(if o.side == Buy then Sell else Buy, s)
    requires s != [] ==> Beyond(o, s[0].price)
    ensures DepthWithin(o, s) == 0
  {
    if s != [] {
      NothingWithin(o, s[1..]);
    }
  }

  // One call of FillAgainstBook.

  /**
    A call on an order that can still be worked, against a sorted view of positive levels.
    It fills exactly min(what is left, depth at or better than the limit); an IOC order is not
    left partially filled by it, and one that crosses nothing is not touched.
   */
  lemma FillAgainstOutcome(o: OrderData, v: View, bps: Fixed)
    requires Workable(o) && GoodView(v) && v.state.ready
    ensures match FillAgainst(o, Some(v), bps)
            case Panicked => true
            case Done(r) =>
              var left := o.quantity - o.filledQuantity;
              var k := Min(left, DepthWithin(o, SideLevels(o.side, v)));
              && r.status == Success && r.leg.filledQty == k && !r.leg.rejected
              && r.order.filledQuantity == o.filledQuantity + k
              && r.order.quantity == o.quantity && r.order.kind == o.kind
              && (k == 0 ==>
                    r.order == if o.kind == IOCLimit && o.state == PartiallyFilled then o.(state := Cancelled) else o)
              && (k > 0 ==> r.order.state == if r.order.filledQuantity == o.quantity then Filled
                                             else if o.kind == IOCLimit then Cancelled else PartiallyFilled)
  {
    hide FillLevels, DepthWithin;
    LoopFills(o, SideLevels(o.side, v), bps);
  }

  lemma LoopFills(o: OrderData, s: seq<Level>, bps: Fixed)
    requires Workable(o) && PositiveLevels(s) && Sorted(if o.side == Buy then Sell else Buy, s)
    ensures match FillLevels(o, s, Tally(o.quantity - o.filledQuantity, 0, 0, 0, []), bps)
            case Panicked => true
            case Done(r) =>
              var k := Min(o.quantity - o.filledQuantity, DepthWithin(o, s));
              r.status == Success && FilledOn(o, r.order, k) && r.tally.filled == k
  {
    CrossingPositive(o, s);
    BreakIsJustified(o, s);
    FillLevelsProgress(o, s, Tally(o.quantity - o.filledQuantity, 0, 0, 0, []), bps);
  }

  /** Without a ready view only a pending order is rejected; nothing else changes. */
  lemma FillAgainstNotReady(o: OrderData, view: Option<View>, bps: Fixed)
    requires view.None? || !view.value.state.ready
    ensures FillAgainst(o, view, bps).Done?
    ensures var r := FillAgainst(o, view, bps).value;
            if o.state == Pending
            then r.status == BookNotReady && r.order == o.(state := Rejected) && r.leg == NoLeg.(rejected := true)
            else r.status == IllegalTransition(o.state, Rejected) && r.order == o && r.leg == NoLeg
  {
  }

  // The life of an order.

  /** What holds of a submitted order at every moment until it is terminal, and then too. */
  predicate OrderInv(o: OrderData) {
    && 0 <= o.filledQuantity <= o.quantity && o.quantity > 0
    && (o.state == Filled <==> o.filledQuantity == o.quantity)
    && (o.state == Pending ==> o.filledQuantity == 0)
    && (o.kind == IOCLimit ==> o.state != PartiallyFilled)
  }

  predicate Submittable(o: OrderData) {
    o.state == Pending && o.filledQuantity == 0 && o.quantity > 0
  }

  /** Repeated calls, one per view, stopping when the order is terminal or a call panics. */
  function Drive(o: OrderData, views: seq<Option<View>>, bps: Fixed): Checked<OrderData> {
    if views == [] then Done(o)
    else
      var p :- Drive(o, views[..|views| - 1], bps);
      if Terminal(p.state) then Done(p)
      else
        var r :- FillAgainst(p, views[|views| - 1], bps);
        Done(r.order)
  }

  predicate GoodViews(views: seq<Option<View>>) {
    forall i :: 0 <= i < |views| ==> (views[i].Some? ==> GoodView(views[i].value))
  }

  lemma CallKeepsOrderInv(o: OrderData, view: Option<View>, bps: Fixed)
    requires OrderInv(o) && !Terminal(o.state) && (view.Some? ==> GoodView(view.value))
    ensures match FillAgainst(o, view, bps)
            case Panicked => true
            case Done(r) => OrderInv(r.order) && r.order.filledQuantity >= o.filledQuantity
  {
    if view.None? || !view.value.state.ready {
      FillAgainstNotReady(o, view, bps);
    } else {
      FillAgainstOutcome(o, view.value, bps);
    }
  }

  /** Over the whole life of an order: Filled means filled in full, and an IOC order never rests in part. */
  lemma {:induction false} OrderLifecycle(o: OrderData, views: seq<Option<View>>, bps: Fixed)
    requires Submittable(o) && GoodViews(views)
    ensures Drive(o, views, bps).Done? ==> OrderInv(Drive(o, views, bps).value)
  {
    if views != [] {
      OrderLifecycle(o, views[..|views| - 1], bps);
      var p := Drive(o, views[..|views| - 1], bps);
      if p.Done? && !Terminal(p.value.state) {
        CallKeepsOrderInv(p.value, views[|views| - 1], bps);
      }
    }
  }

  // Calls after the end.

  /** No call, with whatever view, takes an order out of a terminal state. */
  lemma LevelsKeepTerminal(o: OrderData, s: seq<Level>, t: Tally, bps: Fixed)
    requires Terminal(o.state)
    ensures FillLevels(o, s, t, bps).Done? ==> FillLevels(o, s, t, bps).value.order.state == o.state
    decreases |s|
  {
    if s != [] && t.remaining != 0 && !Beyond(o, s[0].price) {
      var take := if s[0].qty > t.remaining then t.remaining else s[0].qty;
      FillStates(o, s[0].price, take);
    }
  }

  lemma TerminalStateIsFinal(o: OrderData, view: Option<View>, bps: Fixed)
    requires Terminal(o.state)
    ensures FillAgainst(o, view, bps).Done? ==> FillAgainst(o, view, bps).value.order.state == o.state
  {
    if view.Some? && view.value.state.ready {
      var left := Sub(o.quantity, o.filledQuantity);
      if left.Done? {
        LevelsKeepTerminal(o, SideLevels(o.side, view.value), Tally(left.value, 0, 0, 0, []), bps);
      }
    }
  }

  /** The first level that the loop reaches, if there is one, is written to a terminal order. */
  lemma TerminalLoop(o: OrderData, s: seq<Level>, t: Tally, bps: Fixed)
    requires Terminal(o.state) && PositiveLevels(s) && 0 <= t.remaining == o.quantity - o.filledQuantity
    requires FillLevels(o, s, t, bps).Done?
    ensures FillLevels(o, s, t, bps).value.order != o <==> t.remaining > 0 && Crossing(o, s) != []
    ensures FillLevels(o, s, t, bps).value.order.state == o.state
  {
    assert s[0..] == s;
    LevelsStep(o, s, 0, t, bps);
    hide FillLevels, WithFill, Mul, MulBps;
    if s != [] && t.remaining > 0 && !Beyond(o, s[0].price) {
      var take := if s[0].qty > t.remaining then t.remaining else s[0].qty;
      FillStates(o, s[0].price, take);
      FailedFillChangesNothingIff(o, s[0].price, take);
    }
  }

  /**
    But a call on a terminal order still writes to it exactly when it is short of its quantity
    and the book is ready with a first level that crosses.
   */
  lemma TerminalOrderChangesIff(o: OrderData, view: Option<View>, bps: Fixed)
    requires OrderInv(o) && Terminal(o.state) && (view.Some? ==> GoodView(view.value))
    requires FillAgainst(o, view, bps).Done?
    ensures FillAgainst(o, view, bps).value.order != o
            <==> && o.state != Filled && view.Some? && view.value.state.ready
                 && Crossing(o, SideLevels(o.side, view.value)) != []
  {
    hide FillLevels, Crossing;
    if view.Some? && view.value.state.ready {
      TerminalLoop(o, SideLevels(o.side, view.value), Tally(o.quantity - o.filledQuantity, 0, 0, 0, []), bps);
    }
  }
}
