/** The rounding of fills: the incremental average and the per-level fees against the one-shot quote. */
module FillValues {
  import opened Outcomes
  import opened Decimal
  import opened Domain
  import opened BookSpec
  import opened Walk
  import opened Vwap
  import opened Averages
  import opened Orders
  import opened Execution
  import opened FillTheory

  // The average of an order over all of its fills.

  /** The quantity and average of `o` are those of the fills `lots`, one after the other. */
  predicate Averaged(o: OrderData, lots: seq<Level>) {
    Priced(lots) && o.filledQuantity == QtyOf(lots) && o.avgFillPrice == AverageOf(lots)
  }

  lemma NoFillIsAveraged(o: OrderData)
    requires o.filledQuantity == 0 && o.avgFillPrice == 0
    ensures Averaged(o, []) && Priced([])
  {
  }

  lemma AveragedWithin(o: OrderData, lots: seq<Level>)
    requires Averaged(o, lots)
    ensures AverageWithin(o.avgFillPrice, lots)
  {
    AverageBounds(lots);
  }

  /** What a fill within the quantity writes, whatever becomes of the order's state. */
  lemma FillWrites(o: OrderData, price: Fixed, qty: Fixed)
    requires o.filledQuantity >= 0 && o.avgFillPrice >= 0 && price >= 0 && qty > 0
    requires o.filledQuantity + qty <= o.quantity && WithFill(o, price, qty).Done?
    ensures var p := WithFill(o, price, qty).value.0;
            && p.filledQuantity == o.filledQuantity + qty && p.quantity == o.quantity
            && p.avgFillPrice == NextAverage(o.avgFillPrice, o.filledQuantity, price, qty)
  {
    hide Mul, Div;
    MulNonneg(o.avgFillPrice, o.filledQuantity);
    MulNonneg(price, qty);
    var total: Fixed, cost: Fixed
      := o.filledQuantity + qty, o.avgFillPrice * o.filledQuantity / SCALE + price * qty / SCALE;
    DivNonneg(cost, total);
  }

  /** One more fill, whatever becomes of the order's state. */
  lemma FillIsAveraged(o: OrderData, lots: seq<Level>, price: Fixed, qty: Fixed)
    requires Averaged(o, lots) && price >= 0 && qty > 0 && o.filledQuantity + qty <= o.quantity
    requires WithFill(o, price, qty).Done?
    ensures Averaged(WithFill(o, price, qty).value.0, lots + [Level(price, qty)])
    ensures WithFill(o, price, qty).value.0.quantity == o.quantity && Priced(lots + [Level(price, qty)])
  {
    hide WithFill, NextAverage;
    OneMoreLot(lots, Level(price, qty));
    FillWrites(o, price, qty);
  }

  /** Fills one after the other, up to the first that fails. */
  function FillAll(o: OrderData, lots: seq<Level>): Checked<(OrderData, Status)> {
    if lots == [] then Done((o, Success))
    else
      var r :- FillAll(o, lots[..|lots| - 1]);
      if r.1 != Success then Done(r) else WithFill(r.0, lots[|lots| - 1].price, lots[|lots| - 1].qty)
  }

  /**
    The incremental average over any sequence of fills of an order that had none: it is at most
    the highest fill price, and falls short of the summed cost by less than the stated bound.
   */
  lemma {:induction false} FillsAreAveraged(o: OrderData, lots: seq<Level>)
    requires o.filledQuantity == 0 && o.avgFillPrice == 0 && NonnegPrices(lots)
    requires FillAll(o, lots).Done? && FillAll(o, lots).value.1 == Success
    ensures var p := FillAll(o, lots).value.0;
            Averaged(p, lots) && p.quantity == o.quantity && AverageWithin(p.avgFillPrice, lots)
  {
    hide WithFill, AverageWithin, Averaged, Priced;
    if lots == [] {
      NoFillIsAveraged(o);
    } else {
      var init, last := lots[..|lots| - 1], lots[|lots| - 1];
      FillsAreAveraged(o, init);
      FillStates(FillAll(o, init).value.0, last.price, last.qty);
      FillIsAveraged(FillAll(o, init).value.0, init, last.price, last.qty);
      assert init + [last] == lots;
    }
    AveragedWithin(FillAll(o, lots).value.0, lots);
  }

  /** The fills reported to the sink, as lots. */
  function LotsOf(fills: seq<FillRecord>): (lots: seq<Level>)
    ensures |lots| == |fills|
  {
    if fills == [] then []
    else LotsOf(fills[..|fills| - 1]) + [Level(fills[|fills| - 1].price, fills[|fills| - 1].qty)]
  }

  lemma OneMoreFill(fills: seq<FillRecord>, f: FillRecord)
    ensures LotsOf(fills + [f]) == LotsOf(fills) + [Level(f.price, f.qty)]
  {
    assert (fills + [f])[..|fills|] == fills;
  }

  lemma {:induction false} LotsOfBoth(a: seq<FillRecord>, b: seq<FillRecord>)
    ensures LotsOf(a + b) == LotsOf(a) + LotsOf(b)
  {
    if b == [] {
      assert a + b == a;
    } else {
      var init, last := b[..|b| - 1], b[|b| - 1];
      LotsOfBoth(a, init);
      assert a + b == (a + init) + [last];
      OneMoreFill(a + init, last);
    }
  }

  /** One level of the loop, on an order with fills behind it. */
  lemma LevelIsAveraged(o: OrderData, lots: seq<Level>, l: Level, t: Tally, bps: Fixed)
    requires Averaged(o, lots + LotsOf(t.fills)) && l.price >= 0
    requires FillLevel(o, l, t, bps).Done? && FillLevel(o, l, t, bps).value.status == Success
    ensures var r := FillLevel(o, l, t, bps).value; Averaged(r.order, lots + LotsOf(r.tally.fills))
  {
    hide AverageOf, QtyOf, LotsOf, WithFill;
    var take := if l.qty > t.remaining then t.remaining else l.qty;
    var r := FillLevel(o, l, t, bps).value;
    FillStates(o, l.price, take);
    FillIsAveraged(o, lots + LotsOf(t.fills), l.price, take);
    OneMoreFill(t.fills, r.tally.fills[|t.fills|]);
    LotsThen(lots, LotsOf(t.fills), Level(l.price, take));
  }

  lemma LotsThen(a: seq<Level>, b: seq<Level>, l: Level)
    ensures (a + b) + [l] == a + (b + [l])
  {
  }

  lemma {:induction false} LevelsAreAveraged(o: OrderData, lots: seq<Level>, s: seq<Level>, t: Tally, bps: Fixed)
    requires Averaged(o, lots + LotsOf(t.fills)) && NonnegPrices(s)
    requires FillLevels(o, s, t, bps).Done? && FillLevels(o, s, t, bps).value.status == Success
    ensures var r := FillLevels(o, s, t, bps).value; Averaged(r.order, lots + LotsOf(r.tally.fills))
    decreases |s|
  {
    if s != [] && t.remaining != 0 && !Beyond(o, s[0].price) {
      var r := FillLevel(o, s[0], t, bps).value;
      LevelIsAveraged(o, lots, s[0], t, bps);
      LevelsAreAveraged(r.order, lots, s[1..], r.tally, bps);
    }
  }

  predicate NonnegView(view: Option<View>) {
    view.Some? ==> NonnegPrices(view.value.bids) && NonnegPrices(view.value.asks)
  }

  /** The loop of a call against a ready view. */
  function LoopOf(o: OrderData, v: View, left: Fixed, bps: Fixed): Checked<FillRun> {
    FillLevels(o, SideLevels(o.side, v), Tally(left, 0, 0, 0, []), bps)
  }

  /** A call against a ready view takes its fills, its sums, and the order's quantity and average from the loop. */
  lemma CallIsLoop(o: OrderData, v: View, bps: Fixed, left: Fixed)
    requires v.state.ready && Sub(o.quantity, o.filledQuantity) == Done(left)
    ensures FillAgainst(o, Some(v), bps).Done? <==> LoopOf(o, v, left, bps).Done?
    ensures LoopOf(o, v, left, bps).Done? ==>
              var run, r := LoopOf(o, v, left, bps).value, FillAgainst(o, Some(v), bps).value;
              && r.fills == run.tally.fills && r.status == run.status
              && (r.status == Success ==>
                    && r.leg == Leg(run.tally.filled, run.order.avgFillPrice, run.tally.cost, run.tally.fee, false)
                    && r.order == run.order.(state := r.order.state) && (o.kind == Market ==> r.order == run.order))
  {
    if LoopOf(o, v, left, bps).Done? {
      KindStays(o, SideLevels(o.side, v), Tally(left, 0, 0, 0, []), bps);
    }
    hide FillLevels;
  }

  lemma {:induction false} KindStays(o: OrderData, s: seq<Level>, t: Tally, bps: Fixed)
    ensures FillLevels(o, s, t, bps).Done? ==> FillLevels(o, s, t, bps).value.order.kind == o.kind
    decreases |s|
  {
    if s != [] && t.remaining != 0 && !Beyond(o, s[0].price) && FillLevel(o, s[0], t, bps).Done? {
      var r := FillLevel(o, s[0], t, bps).value;
      KindStays(r.order, s[1..], r.tally, bps);
    }
  }

  /** One call on an order that can still be worked. */
  lemma CallIsAveraged(o: OrderData, lots: seq<Level>, view: Option<View>, bps: Fixed)
    requires Averaged(o, lots) && Workable(o) && NonnegView(view) && (view.Some? ==> GoodView(view.value))
    requires FillAgainst(o, view, bps).Done?
    ensures var r := FillAgainst(o, view, bps).value; Averaged(r.order, lots + LotsOf(r.fills))
  {
    hide FillAgainst, Averaged, Workable;
    if view.Some? && view.value.state.ready {
      ReadyCallIsAveraged(o, lots, view.value, bps);
    } else {
      IdleCallIsAveraged(o, lots, view, bps);
    }
  }

  lemma ReadyCallIsAveraged(o: OrderData, lots: seq<Level>, v: View, bps: Fixed)
    requires Averaged(o, lots) && Workable(o) && NonnegView(Some(v)) && GoodView(v) && v.state.ready
    requires FillAgainst(o, Some(v), bps).Done?
    ensures var r := FillAgainst(o, Some(v), bps).value; Averaged(r.order, lots + LotsOf(r.fills))
  {
    hide FillLevels, FillAgainst, AverageOf, QtyOf, DepthWithin, Priced;
    NoFillsYet(lots);
    CallIsLoop(o, v, bps, o.quantity - o.filledQuantity);
    LoopFills(o, SideLevels(o.side, v), bps);
    LevelsAreAveraged(o, lots, SideLevels(o.side, v), Tally(o.quantity - o.filledQuantity, 0, 0, 0, []), bps);
  }

  lemma IdleCallIsAveraged(o: OrderData, lots: seq<Level>, view: Option<View>, bps: Fixed)
    requires Averaged(o, lots) && (view.None? || !view.value.state.ready)
    ensures var r := FillAgainst(o, view, bps).value; Averaged(r.order, lots + LotsOf(r.fills))
  {
    NoFillsYet(lots);
    FillAgainstNotReady(o, view, bps);
  }

  lemma NoFillsYet(lots: seq<Level>)
    ensures lots + LotsOf([]) == lots
  {
  }

  /** The fills that Drive reports. */
  function DriveFills(o: OrderData, views: seq<Option<View>>, bps: Fixed): seq<FillRecord> {
    if views == [] then []
    else
      var init, view := views[..|views| - 1], views[|views| - 1];
      var p := Drive(o, init, bps);
      DriveFills(o, init, bps)
      + (if p.Done? && !Terminal(p.value.state) && FillAgainst(p.value, view, bps).Done?
         then FillAgainst(p.value, view, bps).value.fills else [])
  }

  /**
    Over the whole life of an order, whatever its type and however many calls it takes: its
    average is that of all its reported fills, with the bounds that go with it.
   */
  lemma {:induction false} LifeIsAveraged(o: OrderData, views: seq<Option<View>>, bps: Fixed)
    requires Submittable(o) && o.avgFillPrice == 0 && GoodViews(views)
    requires forall i :: 0 <= i < |views| ==> NonnegView(views[i])
    requires Drive(o, views, bps).Done?
    ensures var p, lots := Drive(o, views, bps).value, LotsOf(DriveFills(o, views, bps));
            Averaged(p, lots) && AverageWithin(p.avgFillPrice, lots)
  {
    if views != [] {
      var init, view := views[..|views| - 1], views[|views| - 1];
      LifeIsAveraged(o, init, bps);
      var p, before := Drive(o, init, bps).value, DriveFills(o, init, bps);
      if Terminal(p.state) {
        assert before + [] == before;
      } else {
        OrderLifecycle(o, init, bps);
        CallIsAveraged(p, LotsOf(before), view, bps);
        LotsOfBoth(before, FillAgainst(p, view, bps).value.fills);
      }
    }
    AverageBounds(LotsOf(DriveFills(o, views, bps)));
  }

  // The cost and the fees of a call.

  /** The sums of the loop are those of its fills; the fee is rounded toward zero once per fill. */
  predicate Tallied(t: Tally, bps: Fixed) {
    SummedUp(t) && FeesWithin(t.cost, t.fee, |t.fills|, bps)
  }

  /** The fee on a notional, rounded toward zero; a negative rate makes it a rebate. */
  function FeeOn(notional: int, bps: int): int {
    if bps < 0 then 0 - notional * Magnitude(bps) / 10_000 else notional * Magnitude(bps) / 10_000
  }

  /** A fee or rebate without its sign. */
  function Unsigned(fee: int, bps: int): int {
    if bps < 0 then 0 - fee else fee
  }

  /** `fee` is what `n` roundings leave of the exact fee or rebate, and on the same side of 0. */
  predicate FeesWithin(cost: int, fee: int, n: nat, bps: int) {
    Unsigned(fee, bps) >= 0 && FeeBand(cost, Unsigned(fee, bps), n, Magnitude(bps))
  }

  predicate SummedUp(t: Tally) {
    && PositiveLevels(LotsOf(t.fills)) && t.filled == QtyOf(LotsOf(t.fills))
    && 0 <= t.cost == CostOf(LotsOf(t.fills))
  }

  predicate FeeBand(cost: int, fee: int, n: nat, bps: int) {
    fee * 10_000 <= cost * bps <= fee * 10_000 + n * 9_999
  }

  /** The tally after one more fill, at cost `c`. */
  predicate TallyAfter(t: Tally, u: Tally, lot: Level, c: int, bps: int) {
    && u.cost == t.cost + c && u.fee == t.fee + FeeOn(c, bps)
    && u.filled == t.filled + lot.qty && u.remaining == t.remaining - lot.qty
    && |u.fills| == |t.fills| + 1 && u.fills[..|t.fills|] == t.fills
    && u.fills[|t.fills|].price == lot.price && u.fills[|t.fills|].qty == lot.qty
  }

  lemma SumsStep(t: Tally, u: Tally, lot: Level, c: nat, bps: int)
    requires SummedUp(t) && lot.qty > 0 && c == lot.price * lot.qty / SCALE && TallyAfter(t, u, lot, c, bps)
    ensures SummedUp(u)
  {
    hide QtyOf, CostOf, LotsOf;
    assert u.fills == t.fills + [u.fills[|t.fills|]];
    OneMoreFill(t.fills, u.fills[|t.fills|]);
    OneMoreLot(LotsOf(t.fills), lot);
  }

  lemma TallyStep(t: Tally, u: Tally, lot: Level, c: nat, bps: Fixed)
    requires Tallied(t, bps) && lot.qty > 0 && c == lot.price * lot.qty / SCALE
    requires TallyAfter(t, u, lot, c, bps)
    ensures Tallied(u, bps)
  {
    SumsStep(t, u, lot, c, bps);
    hide SummedUp, FeeBand;
    FeeStep(t.cost, Unsigned(t.fee, bps), |t.fills|, c, Magnitude(bps));
    NotionalNonneg(c, Magnitude(bps));
  }

  /** The fee after one more notional is still within its band, and within the one-shot fee. */
  lemma FeeStep(cost: nat, fee: nat, n: nat, notional: nat, bps: nat)
    requires FeeBand(cost, fee, n, bps)
    ensures FeeBand(cost + notional, fee + notional * bps / 10_000, n + 1, bps)
    ensures fee + notional * bps / 10_000 <= (cost + notional) * bps / 10_000
  {
    FloorBounds(notional * bps, 10_000);
    Distribute(bps, cost, notional);
    FloorAtLeast((cost + notional) * bps, 10_000, fee + notional * bps / 10_000);
  }

  lemma NotionalNonneg(price: nat, k: nat)
    ensures price * k / SCALE >= 0 && price * k / 10_000 >= 0
  {
    MulMonotone(0, price, k);
  }

  lemma FeeIsFeeOn(notional: Fixed, bps: Fixed)
    requires notional >= 0
    ensures MulBps(notional, bps)
            == if notional * Magnitude(bps) / 10_000 > MAX_INT64 then Panicked else Done(FeeOn(notional, bps))
    ensures notional * Magnitude(bps) / 10_000 >= 0
  {
    NotionalNonneg(notional, Magnitude(bps));
  }

  lemma SuccessfulLevel(o: OrderData, l: Level, t: Tally, bps: Fixed)
    requires l.price >= 0
    requires FillLevel(o, l, t, bps).Done? && FillLevel(o, l, t, bps).value.status == Success
    ensures var k := Min(l.qty, t.remaining); var c := l.price * k / SCALE;
            && k > 0 && c >= 0 && InRange(k)
            && TallyAfter(t, FillLevel(o, l, t, bps).value.tally, Level(l.price, k), c, bps)
  {
    hide WithFill;
    var k: Fixed := Min(l.qty, t.remaining);
    FillStates(o, l.price, k);
    MulNonneg(l.price, k);
    NotionalNonneg(l.price, k);
    FeeIsFeeOn(l.price * k / SCALE, bps);
  }

  lemma LevelIsTallied(o: OrderData, l: Level, t: Tally, bps: Fixed)
    requires Tallied(t, bps) && l.price >= 0
    requires FillLevel(o, l, t, bps).Done? && FillLevel(o, l, t, bps).value.status == Success
    ensures Tallied(FillLevel(o, l, t, bps).value.tally, bps)
  {
    hide FillLevel, Tallied, TallyAfter;
    SuccessfulLevel(o, l, t, bps);
    var k: Fixed := Min(l.qty, t.remaining);
    TallyStep(t, FillLevel(o, l, t, bps).value.tally, Level(l.price, k), l.price * k / SCALE, bps);
  }

  lemma {:induction false} LevelsAreTallied(o: OrderData, s: seq<Level>, t: Tally, bps: Fixed)
    requires Tallied(t, bps) && NonnegPrices(s)
    requires FillLevels(o, s, t, bps).Done? && FillLevels(o, s, t, bps).value.status == Success
    ensures Tallied(FillLevels(o, s, t, bps).value.tally, bps)
    decreases |s|
  {
    if s != [] && t.remaining != 0 && !Beyond(o, s[0].price) {
      var r := FillLevel(o, s[0], t, bps).value;
      LevelIsTallied(o, s[0], t, bps);
      LevelsAreTallied(r.order, s[1..], r.tally, bps);
    }
  }

  lemma FeeGap(cost: nat, fee: nat, n: nat, bps: nat)
    requires FeeBand(cost, fee, n, bps)
    ensures fee <= cost * bps / 10_000 <= fee + n
    ensures n > 0 ==> cost * bps / 10_000 < fee + n
  {
    FloorAtLeast(cost * bps, 10_000, fee);
    FloorAtMost(cost * bps, 10_000, fee + n);
    if n > 0 {
      FloorAtMost(cost * bps, 10_000, fee + n - 1);
    }
  }

  /**
    Any call that goes through, on any order and at any rate: its quantity and notional are those
    of its fills, and its fee falls short of the one-shot fee on that notional by less than the
    fills. At a negative rate the same holds of the rebate.
   */
  lemma LegFees(o: OrderData, v: View, bps: Fixed)
    requires v.state.ready && NonnegPrices(SideLevels(o.side, v))
    requires FillAgainst(o, Some(v), bps).Done? && FillAgainst(o, Some(v), bps).value.status == Success
    ensures var r := FillAgainst(o, Some(v), bps).value;
            var fee, oneShot := Unsigned(r.leg.fee, bps), Unsigned(FeeOn(r.leg.notional, bps), bps);
            && r.leg.filledQty == QtyOf(LotsOf(r.fills)) && 0 <= r.leg.notional == CostOf(LotsOf(r.fills))
            && 0 <= fee <= oneShot && (r.fills == [] ==> oneShot == 0)
            && (r.fills != [] ==> oneShot < fee + |r.fills|)
            && (MulBps(r.leg.notional, bps).Done? ==>
                  MulBps(r.leg.notional, bps).value == FeeOn(r.leg.notional, bps))
  {
    assert FillAgainst(o, Some(v), bps).Done? ==> Sub(o.quantity, o.filledQuantity).Done?;
    hide FillLevels, FillAgainst;
    var left := Sub(o.quantity, o.filledQuantity).value;
    CallIsLoop(o, v, bps, left);
    LevelsAreTallied(o, SideLevels(o.side, v), Tally(left, 0, 0, 0, []), bps);
    var r := FillAgainst(o, Some(v), bps).value;
    FeeGap(r.leg.notional, Unsigned(r.leg.fee, bps), |r.fills|, Magnitude(bps));
    FeeIsFeeOn(r.leg.notional, bps);
  }

  // When a call cannot overflow.

  /** The bounds under which one level's arithmetic cannot overflow. */
  predicate Affordable(cost: int, bps: Fixed) {
    0 <= cost <= MAX_INT64 && cost * Magnitude(bps) / 10_000 <= MAX_INT64
  }

  /** What holds during the loop over an order that had no fills before. */
  predicate Accurate(o: OrderData, t: Tally, bps: Fixed) {
    Averaged(o, LotsOf(t.fills)) && Tallied(t, bps)
  }

  lemma LevelFill(o: OrderData, price: Fixed, k: Fixed, cost: Fixed)
    requires Workable(o) && k > 0 && o.filledQuantity + k <= o.quantity && price >= 0
    requires 0 <= o.avgFillPrice && 0 <= cost && o.avgFillPrice * o.filledQuantity <= cost * SCALE
    requires cost + price * k / SCALE <= MAX_INT64
    ensures WithFill(o, price, k).Done? && WithFill(o, price, k).value.1 == Success
  {
    NextAverageUpper(o.avgFillPrice, o.filledQuantity, price, k, cost);
    NextAverageAtMost(o.avgFillPrice, o.filledQuantity, price, k, MAX_INT64);
    FillMeaning(o, price, k);
  }

  /** A level of a walk that fits in all fits by itself. */
  lemma LevelAffordable(o: OrderData, l: Level, t: Tally, bps: Fixed, total: int)
    requires Workable(o) && l.qty > 0 && l.price >= 0
    requires 0 < t.remaining == o.quantity - o.filledQuantity && Accurate(o, t, bps)
    requires Affordable(total, bps) && t.cost + l.price * Min(l.qty, t.remaining) / SCALE <= total
    ensures FillLevel(o, l, t, bps).Done? && FillLevel(o, l, t, bps).value.status == Success
  {
    hide WithFill, AverageOf, QtyOf, CostOf, LotsOf, FeeBand;
    var k: Fixed := Min(l.qty, t.remaining);
    MulNonneg(l.price, k);
    var c := l.price * k / SCALE;
    AverageLoses(LotsOf(t.fills));
    LevelFill(o, l.price, k, t.cost);
    var rate := Magnitude(bps);
    FeeStep(t.cost, Unsigned(t.fee, bps), |t.fills|, c, rate);
    MulMonotone(t.cost + c, total, rate);
    MulMonotone(c, total, rate);
    FloorMonotone((t.cost + c) * rate, total * rate, 10_000);
    FloorMonotone(c * rate, total * rate, 10_000);
    FeeIsFeeOn(c, bps);
  }

  lemma CrossingTail(o: OrderData, p: OrderData, s: seq<Level>)
    requires p == o.(filledQuantity := p.filledQuantity, avgFillPrice := p.avgFillPrice, state := p.state)
    requires s != [] && !Beyond(o, s[0].price) && Priced(s)
    ensures Crossing(o, s) == [s[0]] + Crossing(p, s[1..])
    ensures Priced(Crossing(o, s)) && Priced(Crossing(p, s[1..]))
  {
    CrossingStays(o, p, s[1..]);
    CrossingPositive(o, s);
    CrossingPositive(p, s[1..]);
  }

  lemma TruncCostStep(c: seq<Level>, l: Level, rest: seq<Level>, q: nat)
    requires c == [l] + rest && Priced(c) && Priced(rest) && q > 0
    ensures TruncCost(c, q) == l.price * Min(l.qty, q) / SCALE + TruncCost(rest, q - Min(l.qty, q))
  {
    assert c[1..] == rest;
  }

  /** What one level of the loop leaves behind, before going on with the rest. */
  lemma LevelHandsOver(o: OrderData, s: seq<Level>, t: Tally, bps: Fixed)
    requires Workable(o) && Priced(s) && Priced(Crossing(o, s))
    requires 0 < t.remaining == o.quantity - o.filledQuantity && Accurate(o, t, bps)
    requires s != [] && !Beyond(o, s[0].price) && FillLevel(o, s[0], t, bps).Done?
    ensures var r := FillLevel(o, s[0], t, bps).value;
            && r.status == Success && Accurate(r.order, r.tally, bps)
            && 0 <= r.tally.remaining == r.order.quantity - r.order.filledQuantity
            && (r.tally.remaining > 0 ==> Workable(r.order))
            && Priced(Crossing(r.order, s[1..]))
            && r.tally.cost + TruncCost(Crossing(r.order, s[1..]), r.tally.remaining)
               == t.cost + TruncCost(Crossing(o, s), t.remaining)
  {
    hide FillLevel, Crossing, TruncCost, AverageOf, QtyOf, CostOf, LotsOf;
    var r := FillLevel(o, s[0], t, bps).value;
    FillLevelProgress(o, s[0], t, bps);
    SuccessfulLevel(o, s[0], t, bps);
    LevelIsTallied(o, s[0], t, bps);
    NothingBefore(t.fills);
    NothingBefore(r.tally.fills);
    LevelIsAveraged(o, [], s[0], t, bps);
    CrossingTail(o, r.order, s);
    TruncCostStep(Crossing(o, s), s[0], Crossing(r.order, s[1..]), t.remaining);
  }

  lemma NothingBefore(fills: seq<FillRecord>)
    ensures [] + LotsOf(fills) == LotsOf(fills)
  {
  }

  lemma LoopEnds(o: OrderData, s: seq<Level>, t: Tally, bps: Fixed)
    requires s == [] || t.remaining == 0 || Beyond(o, s[0].price)
    ensures FillLevels(o, s, t, bps) == Done(FillRun(o, t, Success))
    ensures s == [] || Beyond(o, s[0].price) ==> Crossing(o, s) == []
  {
  }

  lemma LoopGoesOn(o: OrderData, s: seq<Level>, t: Tally, bps: Fixed)
    requires s != [] && t.remaining != 0 && !Beyond(o, s[0].price)
    ensures FillLevel(o, s[0], t, bps).Done? && FillLevel(o, s[0], t, bps).value.status == Success ==>
              var r := FillLevel(o, s[0], t, bps).value;
              FillLevels(o, s, t, bps) == FillLevels(r.order, s[1..], r.tally, bps)
  {
    hide FillLevel;
  }

  /** The loop over an order without fills adds up the walk's cost. */
  lemma {:induction false} FillLevelsAccurate(o: OrderData, s: seq<Level>, t: Tally, bps: Fixed)
    requires 0 <= t.remaining == o.quantity - o.filledQuantity && (t.remaining > 0 ==> Workable(o))
    requires Priced(s) && Priced(Crossing(o, s)) && Accurate(o, t, bps)
    requires FillLevels(o, s, t, bps).Done?
    ensures var r := FillLevels(o, s, t, bps).value;
            && Accurate(r.order, r.tally, bps)
            && r.tally.cost == t.cost + TruncCost(Crossing(o, s), t.remaining)
    decreases |s|
  {
    if s == [] || t.remaining == 0 || Beyond(o, s[0].price) {
      LoopEnds(o, s, t, bps);
    } else {
      LevelHandsOver(o, s, t, bps);
      var r := FillLevel(o, s[0], t, bps).value;
      FillLevelsAccurate(r.order, s[1..], r.tally, bps);
    }
  }

  /** When the whole walk fits, so does its first level. */
  lemma FirstLevelFits(o: OrderData, s: seq<Level>, t: Tally, bps: Fixed)
    requires Workable(o) && Priced(s) && Priced(Crossing(o, s)) && Accurate(o, t, bps)
    requires 0 < t.remaining == o.quantity - o.filledQuantity && s != [] && !Beyond(o, s[0].price)
    requires Affordable(t.cost + TruncCost(Crossing(o, s), t.remaining), bps)
    ensures FillLevel(o, s[0], t, bps).Done? && FillLevel(o, s[0], t, bps).value.status == Success
  {
    hide FillLevel, Crossing, TruncCost, Accurate, Affordable;
    CrossingTail(o, o, s);
    TruncCostStep(Crossing(o, s), s[0], Crossing(o, s[1..]), t.remaining);
    LevelAffordable(o, s[0], t, bps, t.cost + TruncCost(Crossing(o, s), t.remaining));
  }

  /** Where the loop over an order without fills stands, with a walk ahead that fits. */
  predicate Ahead(o: OrderData, s: seq<Level>, t: Tally, bps: Fixed) {
    && 0 <= t.remaining == o.quantity - o.filledQuantity && (t.remaining > 0 ==> Workable(o))
    && Priced(s) && Priced(Crossing(o, s)) && Accurate(o, t, bps)
    && Affordable(t.cost + TruncCost(Crossing(o, s), t.remaining), bps)
  }

  lemma AheadStep(o: OrderData, s: seq<Level>, t: Tally, bps: Fixed)
    requires Ahead(o, s, t, bps) && s != [] && t.remaining != 0 && !Beyond(o, s[0].price)
    ensures FillLevel(o, s[0], t, bps).Done? && FillLevel(o, s[0], t, bps).value.status == Success
    ensures var r := FillLevel(o, s[0], t, bps).value; Ahead(r.order, s[1..], r.tally, bps)
  {
    hide FillLevel, Crossing, TruncCost, Accurate, Affordable;
    FirstLevelFits(o, s, t, bps);
    LevelHandsOver(o, s, t, bps);
  }

  /** The loop goes through when the one-shot cost and fee fit. */
  lemma {:induction false} FillLevelsAffordable(o: OrderData, s: seq<Level>, t: Tally, bps: Fixed)
    requires Ahead(o, s, t, bps)
    ensures FillLevels(o, s, t, bps).Done?
    decreases |s|
  {
    if s == [] || t.remaining == 0 || Beyond(o, s[0].price) {
      LoopEnds(o, s, t, bps);
    } else {
      hide Ahead, FillLevel;
      AheadStep(o, s, t, bps);
      LoopGoesOn(o, s, t, bps);
      var r := FillLevel(o, s[0], t, bps).value;
      FillLevelsAffordable(r.order, s[1..], r.tally, bps);
    }
  }

  // A fresh market order.

  predicate FreshMarket(o: OrderData) {
    Submittable(o) && o.kind == Market && o.avgFillPrice == 0
  }

  lemma {:induction false} MarketCrossesAll(o: OrderData, s: seq<Level>)
    requires o.kind == Market
    ensures Crossing(o, s) == s
  {
    if s != [] {
      MarketCrossesAll(o, s[1..]);
    }
  }

  /** A leg that took the walk's quantity at the walk's cost, in fills whose average it reports. */
  predicate LegOf(leg: Leg, fills: seq<FillRecord>, s: seq<Level>, q: nat, bps: Fixed)
    requires Priced(s)
  {
    var lots := LotsOf(fills);
    && Priced(lots) && |lots| == Touched(s, q) && !leg.rejected
    && leg.filledQty == FilledBy(s, q) == QtyOf(lots) && leg.notional == TruncCost(s, q) == CostOf(lots)
    && leg.vwap == AverageOf(lots)
    && FeesWithin(leg.notional, leg.fee, |fills|, bps)
  }

  /**
    A fresh market order against a ready view fills min(quantity, depth) at the walk's cost,
    and cannot panic when the one-shot cost and fee fit.
   */
  lemma MarketOrderFill(o: OrderData, v: View, bps: Fixed)
    requires FreshMarket(o) && GoodView(v) && v.state.ready && Priced(SideLevels(o.side, v))
    ensures Affordable(TruncCost(SideLevels(o.side, v), o.quantity), bps) ==> FillAgainst(o, Some(v), bps).Done?
    ensures FillAgainst(o, Some(v), bps).Done? ==>
              var r := FillAgainst(o, Some(v), bps).value;
              && r.status == Success && LegOf(r.leg, r.fills, SideLevels(o.side, v), o.quantity, bps)
              && AverageWithin(r.leg.vwap, LotsOf(r.fills))
              && r.order.state == (if r.leg.filledQty == 0 then Pending
                                   else if r.leg.filledQty == o.quantity then Filled else PartiallyFilled)
  {
    hide FillAgainst, FillLevels, Crossing, TruncCost, AverageOf, QtyOf, CostOf, LotsOf, Affordable;
    var s, t := SideLevels(o.side, v), Tally(o.quantity, 0, 0, 0, []);
    StartsAccurate(o, t, bps);
    CallIsLoop(o, v, bps, o.quantity);
    MarketCrossesAll(o, s);
    FillLevelsProgress(o, s, t, bps);
    if Affordable(TruncCost(s, o.quantity), bps) {
      FillLevelsAffordable(o, s, t, bps);
    }
    if FillLevels(o, s, t, bps).Done? {
      FillLevelsAccurate(o, s, t, bps);
      AverageBounds(LotsOf(FillLevels(o, s, t, bps).value.tally.fills));
    }
  }

  lemma StartsAccurate(o: OrderData, t: Tally, bps: Fixed)
    requires o.filledQuantity == 0 && o.avgFillPrice == 0 && t.(remaining := 0) == Tally(0, 0, 0, 0, [])
    ensures Accurate(o, t, bps)
  {
  }

  /** The incremental average is at most the one-shot average of the same fills. */
  lemma AverageAtMostOneShot(leg: Leg, fills: seq<FillRecord>, s: seq<Level>, q: nat, bps: Fixed)
    requires Priced(s) && LegOf(leg, fills, s, q, bps) && leg.filledQty > 0
    ensures leg.vwap <= leg.notional * SCALE / leg.filledQty
  {
    AverageLoses(LotsOf(fills));
    FloorAtLeast(leg.notional * SCALE, leg.filledQty, leg.vwap);
  }

  /**
    The three walks agree: a market order, vwapOf, and Book.VWAP on the side the view was cut
    from, whenever the view holds enough.
   */
  lemma WalksAgree(o: OrderData, v: View, bps: Fixed, side: seq<Level>)
    requires FreshMarket(o) && GoodView(v) && v.state.ready
    requires Priced(side) && SideLevels(o.side, v) == Top(side, PUBLISH_DEPTH) && Priced(SideLevels(o.side, v))
    requires FillAgainst(o, Some(v), bps).Done? && VwapOf(SideLevels(o.side, v), o.quantity).Done?
    ensures var leg := FillAgainst(o, Some(v), bps).value.leg;
            var quote := VwapOf(SideLevels(o.side, v), o.quantity).value;
            && leg.filledQty == quote.filled && leg.notional == quote.cost
            && (quote.filled > 0 ==> leg.vwap <= quote.vwap)
            && (quote.ok ==> VwapOf(side, o.quantity) == Done(quote))
  {
    var s := SideLevels(o.side, v);
    MarketOrderFill(o, v, bps);
    VwapMeaning(s, o.quantity);
    var r := FillAgainst(o, Some(v), bps).value;
    if r.leg.filledQty > 0 {
      AverageAtMostOneShot(r.leg, r.fills, s, o.quantity, bps);
    }
    if VwapOf(s, o.quantity).value.ok {
      TopSuffices(side, PUBLISH_DEPTH, o.quantity);
      VwapMeaning(side, o.quantity);
    }
  }
}
