/** The walk as the code performs it, with checked arithmetic (vwapOf and Book.VWAP). */
module Vwap {
  import opened Outcomes
  import opened Decimal
  import opened Domain
  import opened Walk

  datatype Quote = Quote(vwap: Fixed, filled: Fixed, cost: Fixed, ok: bool)

  const NoQuote := Quote(0, 0, 0, false)

  /** The loop's variables. */
  datatype WalkState = WalkState(remaining: Fixed, cost: Fixed, filled: Fixed)

  function Visit(t: WalkState, l: Level): Checked<WalkState> {
    var take := if l.qty > t.remaining then t.remaining else l.qty;
    var notional :- Mul(l.price, take);
    var cost :- Add(t.cost, notional);
    var filled :- Add(t.filled, take);
    var remaining :- Sub(t.remaining, take);
    Done(WalkState(remaining, cost, filled))
  }

  /** The loop: levels in order, until nothing remains to be filled. */
  function VisitAll(s: seq<Level>, t: WalkState): Checked<WalkState> {
    if s == [] then Done(t)
    else
      var u :- Visit(t, s[0]);
      if u.remaining == 0 then Done(u) else VisitAll(s[1..], u)
  }

  function Finish(t: WalkState): Checked<Quote> {
    if t.filled == 0 then Done(NoQuote)
    else
      var vwap :- Div(t.cost, t.filled);
      Done(Quote(vwap, t.filled, t.cost, t.remaining == 0))
  }

  /** vwapOf, for any quantity at all. */
  function VwapOf(s: seq<Level>, qty: Fixed): Checked<Quote> {
    var t :- VisitAll(s, WalkState(qty, 0, 0));
    Finish(t)
  }

  /** The loop of vwapOf (internal/opportunity/engine.go). */
  method ComputeVwap(levels: seq<Level>, qty: Fixed) returns (r: Checked<Quote>)
    ensures r == VwapOf(levels, qty)
  {
    var remaining: Fixed, cost: Fixed, filled: Fixed := qty, 0, 0;
    assert levels[0..] == levels;
    var i := 0;
    while i < |levels|
      invariant 0 <= i <= |levels|
      invariant VisitAll(levels[i..], WalkState(remaining, cost, filled)) == VisitAll(levels, WalkState(qty, 0, 0))
    {
      var l := levels[i];
      assert levels[i..][1..] == levels[i + 1..];
      var take := l.qty;
      if take > remaining {
        take := remaining;
      }
      var notional :- Mul(l.price, take);
      cost :- Add(cost, notional);
      filled :- Add(filled, take);
      remaining :- Sub(remaining, take);
      if remaining == 0 {
        assert VisitAll(levels, WalkState(qty, 0, 0)) == Done(WalkState(remaining, cost, filled));
        break;
      }
      i := i + 1;
    }
    assert VisitAll(levels, WalkState(qty, 0, 0)) == Done(WalkState(remaining, cost, filled));
    if filled == 0 {
      return Done(NoQuote);
    }
    var vwap :- Div(cost, filled);
    r := Done(Quote(vwap, filled, cost, remaining == 0));
  }

  // What the checked walk computes.

  /** A tally in which nothing is negative and the whole order fits. */
  predicate Proper(t: WalkState) {
    t.remaining >= 0 && t.cost >= 0 && t.filled >= 0 && t.filled + t.remaining <= MAX_INT64
  }

  lemma VisitMeaning(t: WalkState, l: Level)
    requires Proper(t) && l.qty > 0 && l.price >= 0
    ensures var k := Min(l.qty, t.remaining); var c := l.price * k / SCALE;
            && c >= 0
            && Visit(t, l) == if t.cost + c > MAX_INT64 then Panicked
                              else Done(WalkState(t.remaining - k, t.cost + c, t.filled + k))
  {
    var k := Min(l.qty, t.remaining);
    MulNonneg(l.price, k);
  }

  /** The loop adds the truncated cost and the fill of the walk, and panics only when that cost overflows. */
  lemma {:induction false} VisitAllMeaning(s: seq<Level>, t: WalkState)
    requires Priced(s) && Proper(t)
    ensures var q := t.remaining;
            VisitAll(s, t) == if t.cost + TruncCost(s, q) > MAX_INT64 then Panicked
                              else Done(WalkState(q - FilledBy(s, q), t.cost + TruncCost(s, q),
                                                  t.filled + FilledBy(s, q)))
  {
    if s != [] {
      VisitMeaning(t, s[0]);
      var u := Visit(t, s[0]);
      if u.Done? && u.value.remaining != 0 {
        VisitAllMeaning(s[1..], u.value);
      } else if u.Done? {
        assert TruncCost(s[1..], 0) == 0;
      }
    }
  }

  lemma AverageFits(s: seq<Level>, q: nat)
    requires Priced(s) && s != [] && q > 0
    ensures FilledBy(s, q) > 0 && TruncCost(s, q) * SCALE / FilledBy(s, q) <= MAX_INT64
  {
    assert TotalQty(s) > 0;
    TruncationBound(s, q);
    CostAtMost(s, q, MAX_INT64);
    FloorAtMost(TruncCost(s, q) * SCALE, FilledBy(s, q), MAX_INT64);
  }

  /**
    The quote for a positive quantity: min(quantity, depth) at the walk's truncated cost, and
    the average rounded down. It panics exactly when the cost exceeds MAX_INT64.
   */
  lemma VwapMeaning(s: seq<Level>, qty: Fixed)
    requires Priced(s) && qty > 0
    ensures VwapOf(s, qty).Panicked? <==> TruncCost(s, qty) > MAX_INT64
    ensures VwapOf(s, qty).Done? && s == [] ==> VwapOf(s, qty).value == NoQuote
    ensures VwapOf(s, qty).Done? && s != [] ==>
              var r := VwapOf(s, qty).value;
              && r.filled == FilledBy(s, qty) > 0 && r.cost == TruncCost(s, qty)
              && r.vwap == TruncCost(s, qty) * SCALE / FilledBy(s, qty)
              && r.ok == (qty <= TotalQty(s))
  {
    VisitAllMeaning(s, WalkState(qty, 0, 0));
    if s != [] && TruncCost(s, qty) <= MAX_INT64 {
      AverageFits(s, qty);
      DivNonneg(TruncCost(s, qty), FilledBy(s, qty));
    }
  }
}
