/**
  Amounts of fills at prices of any sign, under a bound on the notional: no sum of them comes near
  the ends of an int64 (internal/execution/execution.go).
 */
module ModestFills {
  import opened Outcomes
  import opened Decimal
  import opened Domain
  import opened BookSpec
  import opened Walk
  import opened Orders
  import opened Execution
  import opened FillTheory
  import opened FillValues

  /** No price is larger than `most`, whatever its sign. */
  predicate PricesWithin(s: seq<Level>, most: nat) {
    forall i :: 0 <= i < |s| ==> Magnitude(s[i].price) <= most
  }

  /** `q` at the largest price, with its fee, is at most half an int64. */
  predicate BoundedNotional(most: nat, q: int, bps: Fixed) {
    most * q * (10_000 + Magnitude(bps)) <= MAX_INT64 / 2 * (10_000 * SCALE)
  }

  lemma NotionalAtMost(p: Fixed, k: Fixed, most: nat)
    requires Magnitude(p) <= most && k >= 0
    ensures Magnitude(Notional(p, k)) * SCALE <= most * k
  {
    ProductMagnitude(p, k);
    var m := Magnitude(p) * Magnitude(k);
    FloorBounds(m, SCALE);
    FloorAtLeast(m, SCALE, 0);
    MulMonotone(Magnitude(p), most, k);
  }

  lemma FeeMagnitude(n: Fixed, bps: Fixed)
    requires MulBps(n, bps).Done?
    ensures Magnitude(MulBps(n, bps).value) * 10_000 <= Magnitude(n) * Magnitude(bps)
  {
    var m := Magnitude(n) * Magnitude(bps);
    MulMonotone(0, Magnitude(n), Magnitude(bps));
    FloorBounds(m, 10_000);
    FloorAtLeast(m, 10_000, 0);
  }

  lemma AverageMagnitude(cost: Fixed, total: Fixed, most: nat)
    requires total > 0 && Magnitude(cost) * SCALE <= most * total && Div(cost, total).Done?
    ensures Magnitude(Div(cost, total).value) <= most
  {
    var x := Magnitude(cost) * SCALE;
    assert Magnitude(SCALE) == SCALE && Magnitude(total) == total;
    FloorAtLeast(x, total, 0);
    assert x < (most + 1) * total;
    FloorAtMost(x, total, most);
  }

  lemma NextAverageWithin(o: OrderData, price: Fixed, k: Fixed, most: nat)
    requires o.filledQuantity >= 0 && Magnitude(o.avgFillPrice) <= most && Magnitude(price) <= most
    requires WithFill(o, price, k).Done? && WithFill(o, price, k).value.1 == Success
    ensures k > 0 && Magnitude(WithFill(o, price, k).value.0.avgFillPrice) <= most
    ensures WithFill(o, price, k).value.0.filledQuantity == o.filledQuantity + k
  {
    FillStates(o, price, k);
    var held, total := o.filledQuantity, o.filledQuantity + k;
    MulIsQuotient(o.avgFillPrice, held);
    MulIsQuotient(price, k);
    NotionalAtMost(o.avgFillPrice, held, most);
    NotionalAtMost(price, k, most);
    var cost: Fixed := Notional(o.avgFillPrice, held) + Notional(price, k);
    Distribute(most, held, k);
    hide Notional, Mul, Div;
    SumMagnitude(Notional(o.avgFillPrice, held), Notional(price, k), SCALE);
    AverageMagnitude(cost, total, most);
  }

  lemma SumMagnitude(a: int, b: int, c: nat)
    ensures Magnitude(a + b) * c <= Magnitude(a) * c + Magnitude(b) * c
  {
    MulMonotone(Magnitude(a + b), Magnitude(a) + Magnitude(b), c);
    assert (Magnitude(a) + Magnitude(b)) * c == Magnitude(a) * c + Magnitude(b) * c;
  }

  /** The average is within the prices, and the fees within the rate of what was filled at the largest. */
  predicate Modest(o: OrderData, t: Tally, most: nat, bps: Fixed) {
    && 0 <= t.filled == o.filledQuantity && Magnitude(o.avgFillPrice) <= most
    && Magnitude(t.fee) * (10_000 * SCALE) <= most * t.filled * Magnitude(bps)
  }

  /** A fee within its rate of a notional that is itself within `worth`. */
  lemma FeeWithin(fee: nat, n: nat, rate: nat, worth: nat)
    requires fee * 10_000 <= n * rate && n * SCALE <= worth
    ensures fee * (10_000 * SCALE) <= worth * rate
  {
    MulMonotone(n * SCALE, worth, rate);
    Reorder(n, rate);
  }

  lemma Reorder(n: nat, rate: nat)
    ensures n * SCALE * rate == n * rate * SCALE
  {
  }

  lemma WorthOfBoth(most: nat, a: nat, b: nat, rate: nat)
    ensures most * (a + b) * rate == most * a * rate + most * b * rate
  {
    Distribute(most, a, b);
    Distribute(rate, most * a, most * b);
  }

  /** One more fee, of `k` at price `p`. */
  lemma FeeStaysModest(fee: Fixed, filled: nat, p: Fixed, k: Fixed, more: Fixed, most: nat, bps: Fixed)
    requires Magnitude(fee) * (10_000 * SCALE) <= most * filled * Magnitude(bps) && Magnitude(p) <= most && k >= 0
    requires InRange(Notional(p, k)) && MulBps(Notional(p, k), bps) == Done(more)
    ensures Magnitude(fee + more) * (10_000 * SCALE) <= most * (filled + k) * Magnitude(bps)
  {
    NotionalAtMost(p, k, most);
    FeeMagnitude(Notional(p, k), bps);
    MulMonotone(0, most, k);
    FeeWithin(Magnitude(more), Magnitude(Notional(p, k)), Magnitude(bps), most * k);
    WorthOfBoth(most, filled, k, Magnitude(bps));
    hide *;
    assert Magnitude(fee + more) <= Magnitude(fee) + Magnitude(more) by {
      SumMagnitude(fee, more, 1);
    }
  }

  lemma LevelStaysModest(o: OrderData, l: Level, t: Tally, most: nat, bps: Fixed)
    requires Modest(o, t, most, bps) && Magnitude(l.price) <= most
    requires FillLevel(o, l, t, bps).Done? && FillLevel(o, l, t, bps).value.status == Success
    ensures var r := FillLevel(o, l, t, bps).value; Modest(r.order, r.tally, most, bps)
  {
    var k := if l.qty > t.remaining then t.remaining else l.qty;
    NextAverageWithin(o, l.price, k, most);
    MulIsQuotient(l.price, k);
    hide WithFill, Notional, Mul, MulBps;
    var fee := MulBps(Notional(l.price, k), bps).value;
    FeeStaysModest(t.fee, t.filled, l.price, k, fee, most, bps);
  }

  lemma {:induction false} LevelsStayModest(o: OrderData, s: seq<Level>, t: Tally, most: nat, bps: Fixed)
    requires Modest(o, t, most, bps) && PricesWithin(s, most)
    requires FillLevels(o, s, t, bps).Done? && FillLevels(o, s, t, bps).value.status == Success
    ensures var r := FillLevels(o, s, t, bps).value; Modest(r.order, r.tally, most, bps)
    decreases |s|
  {
    if s != [] && t.remaining != 0 && !Beyond(o, s[0].price) {
      hide Modest, FillLevel;
      var r := FillLevel(o, s[0], t, bps).value;
      LevelStaysModest(o, s[0], t, most, bps);
      LevelsStayModest(r.order, s[1..], r.tally, most, bps);
    }
  }

  /** A leg whose cost with its fee, and whose fee alone twice, are within half and all of an int64. */
  predicate ModestLeg(leg: Leg) {
    && -MAX_INT64 <= 2 * leg.fee
    && (leg.filledQty > 0 ==> Notional(leg.vwap, leg.filledQty) + leg.fee != MIN_INT64)
  }

  lemma HalfOfBoth(n: nat, fee: nat, worth: nat, rate: nat)
    requires n * SCALE <= worth && fee * (10_000 * SCALE) <= worth * rate
    requires worth * (10_000 + rate) <= MAX_INT64 / 2 * (10_000 * SCALE)
    ensures n + fee <= MAX_INT64 / 2
  {
    Distribute(worth, 10_000, rate);
  }

  lemma ModestAmounts(vwap: Fixed, filled: Fixed, fee: Fixed, q: Fixed, most: nat, bps: Fixed)
    requires 0 <= filled <= q && Magnitude(vwap) <= most && BoundedNotional(most, q, bps)
    requires Magnitude(fee) * (10_000 * SCALE) <= most * filled * Magnitude(bps)
    ensures Magnitude(Notional(vwap, filled)) + Magnitude(fee) <= MAX_INT64 / 2
  {
    NotionalAtMost(vwap, filled, most);
    MulMonotone(0, most, filled);
    WorthGrows(most, filled, q, 10_000 + Magnitude(bps));
    HalfOfBoth(Magnitude(Notional(vwap, filled)), Magnitude(fee), most * filled, Magnitude(bps));
  }

  lemma WorthGrows(most: nat, filled: nat, q: nat, c: nat)
    requires filled <= q
    ensures most * filled * c <= most * q * c
  {
    MulMonotone(filled, q, most);
    Commute(most, filled);
    Commute(most, q);
    MulMonotone(most * filled, most * q, c);
  }

  lemma Commute(a: nat, b: nat)
    ensures a * b == b * a
  {
  }

  /** A fresh market order at prices of any sign, under a bounded notional. */
  lemma BoundedLegIsModest(o: OrderData, v: View, most: nat, bps: Fixed)
    requires FreshMarket(o) && GoodView(v) && v.state.ready && PricesWithin(SideLevels(o.side, v), most)
    requires BoundedNotional(most, o.quantity, bps) && FillAgainst(o, Some(v), bps).Done?
    ensures ModestLeg(FillAgainst(o, Some(v), bps).value.leg)
  {
    hide FillAgainst, FillLevels, DepthWithin, Notional, BoundedNotional;
    FillAgainstOutcome(o, v, bps);
    CallIsLoop(o, v, bps, o.quantity);
    var t := Tally(o.quantity, 0, 0, 0, []);
    LevelsStayModest(o, SideLevels(o.side, v), t, most, bps);
    var leg := FillAgainst(o, Some(v), bps).value.leg;
    ModestAmounts(leg.vwap, leg.filledQty, leg.fee, o.quantity, most, bps);
  }

  // What is assumed of prices and rates.

  datatype Regime = AnyPrice | NonnegPrice | Bounded(most: nat)

  predicate PricesIn(g: Regime, s: seq<Level>) {
    forall i :: 0 <= i < |s| ==> PriceIn(g, s[i].price)
  }

  predicate PriceIn(g: Regime, p: Fixed) {
    match g
    case AnyPrice => true
    case NonnegPrice => p >= 0
    case Bounded(most) => Magnitude(p) <= most
  }

  /** At nonnegative prices no rebate exceeds half of a notional; at others the notional is bounded. */
  predicate RateIn(g: Regime, q: int, bps: Fixed) {
    match g
    case AnyPrice => true
    case NonnegPrice => bps >= -5_000
    case Bounded(most) => BoundedNotional(most, q, bps)
  }

  /** A rebate of at most half of a notional is at most half of an int64. */
  lemma HalfAtMost(notional: int, fee: int, n: nat, bps: Fixed)
    requires 0 <= notional <= MAX_INT64 && bps >= -5_000 && FeesWithin(notional, fee, n, bps)
    ensures -MAX_INT64 <= 2 * fee
  {
    if bps < 0 {
      MulMonotone(Magnitude(bps), 5_000, notional);
    }
  }

  lemma NonnegLegIsModest(o: OrderData, v: View, bps: Fixed)
    requires FreshMarket(o) && GoodView(v) && v.state.ready && NonnegPrices(SideLevels(o.side, v)) && bps >= -5_000
    requires FillAgainst(o, Some(v), bps).Done?
    ensures var leg := FillAgainst(o, Some(v), bps).value.leg; ModestLeg(leg) && leg.vwap >= 0
  {
    hide FillAgainst, TruncCost, Touched, FilledBy, FeesWithin;
    var r := FillAgainst(o, Some(v), bps).value;
    MarketOrderFill(o, v, bps);
    HalfAtMost(r.leg.notional, r.leg.fee, |r.fills|, bps);
    if r.leg.filledQty > 0 {
      NotionalOfNonneg(r.leg.vwap, r.leg.filledQty);
    }
  }

  /** One call on a fresh market order, with a ready view or without. */
  lemma LegIsModest(o: OrderData, view: Option<View>, bps: Fixed, g: Regime)
    requires FreshMarket(o) && g != AnyPrice && RateIn(g, o.quantity, bps) && FillAgainst(o, view, bps).Done?
    requires view.Some? ==> GoodView(view.value) && PricesIn(g, SideLevels(o.side, view.value))
    ensures ModestLeg(FillAgainst(o, view, bps).value.leg)
  {
    hide FillAgainst, BoundedNotional, ModestLeg, GoodView;
    if view.None? || !view.value.state.ready {
      FillAgainstNotReady(o, view, bps);
      NoLegIsModest();
    } else {
      match g
      case NonnegPrice => NonnegLegIsModest(o, view.value, bps);
      case Bounded(most) => BoundedLegIsModest(o, view.value, most, bps);
    }
  }

  lemma NoLegIsModest()
    ensures ModestLeg(NoLeg) && ModestLeg(NoLeg.(rejected := true))
  {
  }

  /** Such a call fills between nothing and the quantity. */
  lemma LegFills(o: OrderData, view: Option<View>, bps: Fixed)
    requires FreshMarket(o) && (view.Some? ==> GoodView(view.value)) && FillAgainst(o, view, bps).Done?
    ensures 0 <= FillAgainst(o, view, bps).value.leg.filledQty <= o.quantity
  {
    hide FillAgainst, GoodView, DepthWithin;
    if view.None? || !view.value.state.ready {
      FillAgainstNotReady(o, view, bps);
    } else {
      FillAgainstOutcome(o, view.value, bps);
    }
  }
}
