/** What a call of FillAgainstBook reports to the sink (internal/execution/execution.go). */
module FillReports {
  import opened Outcomes
  import opened Decimal
  import opened Domain
  import opened BookSpec
  import opened Walk
  import opened Orders
  import opened Execution
  import opened FillTheory
  import O = Opportunity

  /**
    One record for each level that a walk over `s` for `q` takes from, best first: the order's
    number, the level's price, the quantity taken, and the fee on that level alone.
   */
  predicate Reported(id: nat, fills: seq<FillRecord>, s: seq<Level>, q: nat, bps: int)
    requires PositiveLevels(s)
  {
    if s == [] || q == 0 then fills == []
    else
      var k := Take(s, q);
      && fills != [] && fills[0].order == id && fills[0].price == s[0].price && fills[0].qty == k
      && fills[0].fee == Quotient(Notional(s[0].price, k) * bps, 10_000)
      && Reported(id, fills[1..], s[1..], q - k, bps)
  }

  function FeesOf(fills: seq<FillRecord>): int {
    if fills == [] then 0 else fills[0].fee + FeesOf(fills[1..])
  }

  /** `u` is the tally `t` after a fill of `k` at a level. */
  predicate Noted(id: nat, l: Level, t: Tally, u: Tally, k: int, bps: int) {
    && u.remaining == t.remaining - k
    && |u.fills| == |t.fills| + 1 && u.fills[..|t.fills|] == t.fills
    && var f := u.fills[|t.fills|];
       (&& f.order == id && f.price == l.price && f.qty == k
        && f.fee == Quotient(Notional(l.price, k) * bps, 10_000) && u.fee == t.fee + f.fee)
  }

  predicate SameTerms(o: OrderData, p: OrderData) {
    p.id == o.id && p.kind == o.kind && p.side == o.side && p.price == o.price
  }

  lemma LevelReported(o: OrderData, l: Level, t: Tally, bps: Fixed)
    requires l.qty > 0 && t.remaining > 0
    requires FillLevel(o, l, t, bps).Done? && FillLevel(o, l, t, bps).value.status == Success
    ensures var r := FillLevel(o, l, t, bps).value;
            Noted(o.id, l, t, r.tally, Min(l.qty, t.remaining), bps) && SameTerms(o, r.order)
  {
    var k: Fixed := Min(l.qty, t.remaining);
    MulIsQuotient(l.price, k);
    hide Mul, Quotient;
    O.BpsIsQuotient(Notional(l.price, k), bps);
  }

  lemma ReportedThen(id: nat, l: Level, t: Tally, u: Tally, v: Tally, c: seq<Level>, bps: int)
    requires PositiveLevels(c) && c != [] && c[0] == l && t.remaining > 0
    requires Noted(id, l, t, u, Min(l.qty, t.remaining), bps)
    requires u.fills <= v.fills && Reported(id, v.fills[|u.fills|..], c[1..], u.remaining, bps)
    ensures t.fills <= v.fills && Reported(id, v.fills[|t.fills|..], c, t.remaining, bps)
    ensures FeesOf(v.fills[|t.fills|..]) == u.fee - t.fee + FeesOf(v.fills[|u.fills|..])
  {
    hide Quotient, Notional;
    var fills, rest := v.fills[|t.fills|..], v.fills[|u.fills|..];
    assert fills[0] == u.fills[|t.fills|] && fills[1..] == rest;
  }

  lemma {:induction false} LevelsReported(o: OrderData, s: seq<Level>, t: Tally, bps: Fixed)
    requires PositiveLevels(s) && PositiveLevels(Crossing(o, s)) && t.remaining >= 0
    requires FillLevels(o, s, t, bps).Done? && FillLevels(o, s, t, bps).value.status == Success
    ensures var u := FillLevels(o, s, t, bps).value.tally;
            && t.fills <= u.fills && Reported(o.id, u.fills[|t.fills|..], Crossing(o, s), t.remaining, bps)
            && u.fee == t.fee + FeesOf(u.fills[|t.fills|..])
    decreases |s|
  {
    hide FillLevel;
    var c := Crossing(o, s);
    if s != [] && t.remaining != 0 && !Beyond(o, s[0].price) {
      var r := FillLevel(o, s[0], t, bps).value;
      LevelReported(o, s[0], t, bps);
      CrossingStays(o, r.order, s[1..]);
      assert c[1..] == Crossing(r.order, s[1..]);
      LevelsReported(r.order, s[1..], r.tally, bps);
      hide FillLevels, Reported, FeesOf, Crossing;
      ReportedThen(o.id, s[0], t, r.tally, FillLevels(o, s, t, bps).value.tally, c, bps);
    }
  }

  /**
    Any call that goes through, on any order: the levels within the order's limit are reported as
    far as they are needed, each fill under the order's own number with its own fee, and the fee
    of the leg is the sum of those.
   */
  lemma FillsReported(o: OrderData, v: View, bps: Fixed)
    requires v.state.ready && GoodView(v) && 0 <= o.filledQuantity <= o.quantity
    requires FillAgainst(o, Some(v), bps).Done? && FillAgainst(o, Some(v), bps).value.status == Success
    ensures var r, c := FillAgainst(o, Some(v), bps).value, Crossing(o, SideLevels(o.side, v));
            && PositiveLevels(c)
            && Reported(o.id, r.fills, c, o.quantity - o.filledQuantity, bps) && r.leg.fee == FeesOf(r.fills)
  {
    assert Sub(o.quantity, o.filledQuantity).Done?;
    hide FillLevels, Reported, FeesOf;
    var s, t := SideLevels(o.side, v), Tally(Sub(o.quantity, o.filledQuantity).value, 0, 0, 0, []);
    CrossingPositive(o, s);
    LevelsReported(o, s, t, bps);
    var u := FillLevels(o, s, t, bps).value.tally;
    assert u.fills[0..] == u.fills;
  }
}
