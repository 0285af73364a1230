/**
  The greedy depth walk on its own: what it takes, what it costs, and why it is optimal.

  Costs come in two forms: exact, as price*quantity in raw units (scale 1e16), and truncated,
  as the code computes them, rounding each level's product down to scale 1e8.
 */
module Walk {
  import opened Decimal
  import opened Domain
  import opened BookSpec

  predicate NonnegPrices(s: seq<Level>) {
    forall i :: 0 <= i < |s| ==> s[i].price >= 0
  }

  /** Levels as views hold them, with nonnegative prices. */
  predicate Priced(s: seq<Level>) {
    PositiveLevels(s) && NonnegPrices(s)
  }

  function Min(a: int, b: int): int {
    if a > b then b else a
  }

  /** What the walk takes from the first level when `q` is wanted. */
  function Take(s: seq<Level>, q: nat): (t: nat)
    requires s != [] && PositiveLevels(s)
    ensures t <= q && t <= s[0].qty && (q > 0 ==> t > 0)
  {
    Min(s[0].qty, q)
  }

  function TotalQty(s: seq<Level>): nat
    requires PositiveLevels(s)
  {
    if s == [] then 0 else s[0].qty + TotalQty(s[1..])
  }

  function FilledBy(s: seq<Level>, q: nat): nat
    requires PositiveLevels(s)
  {
    Min(q, TotalQty(s))
  }

  function ExactCost(s: seq<Level>, q: nat): int
    requires PositiveLevels(s)
  {
    if s == [] || q == 0 then 0 else s[0].price * Take(s, q) + ExactCost(s[1..], q - Take(s, q))
  }

  function TruncCost(s: seq<Level>, q: nat): nat
    requires Priced(s)
  {
    if s == [] || q == 0 then 0
    else
      MulNonneg(s[0].price, Take(s, q));
      s[0].price * Take(s, q) / SCALE + TruncCost(s[1..], q - Take(s, q))
  }

  /** How many levels the walk takes something from. */
  function Touched(s: seq<Level>, q: nat): (n: nat)
    requires PositiveLevels(s)
    ensures n <= |s| && (n > 0 <==> s != [] && q > 0)
  {
    if s == [] || q == 0 then 0 else 1 + Touched(s[1..], q - Take(s, q))
  }

  // Truncation.

  /** Each touched level loses less than one raw unit. */
  lemma {:induction false} TruncationBound(s: seq<Level>, q: nat)
    requires Priced(s)
    ensures TruncCost(s, q) * SCALE <= ExactCost(s, q) <= (TruncCost(s, q) + Touched(s, q)) * SCALE
    ensures q > 0 && s != [] ==> ExactCost(s, q) < (TruncCost(s, q) + Touched(s, q)) * SCALE
  {
    if s != [] && q > 0 {
      TruncationBound(s[1..], q - Take(s, q));
      FloorBounds(s[0].price * Take(s, q), SCALE);
    }
  }

  /** The walk never pays more than the highest price for what it takes. */
  lemma {:induction false} CostAtMost(s: seq<Level>, q: nat, top: nat)
    requires Priced(s) && forall i :: 0 <= i < |s| ==> s[i].price <= top
    ensures 0 <= ExactCost(s, q) <= top * FilledBy(s, q)
  {
    if s != [] && q > 0 {
      var t := Take(s, q);
      CostAtMost(s[1..], q - t, top);
      MulMonotone(s[0].price, top, t);
      MulMonotone(0, s[0].price, t);
      Distribute(top, t, FilledBy(s[1..], q - t));
    }
  }

  lemma Distribute(a: int, b: int, c: int)
    ensures a * (b + c) == a * b + a * c
  {
  }

  // Optimality.

  /** An allocation takes at most each level's quantity. */
  predicate Feasible(s: seq<Level>, alloc: seq<nat>) {
    |alloc| == |s| && forall i :: 0 <= i < |s| ==> alloc[i] <= s[i].qty
  }

  function Sum(alloc: seq<nat>): nat {
    if alloc == [] then 0 else alloc[0] + Sum(alloc[1..])
  }

  function AllocCost(s: seq<Level>, alloc: seq<nat>): int
    requires |alloc| == |s|
  {
    if s == [] then 0 else s[0].price * alloc[0] + AllocCost(s[1..], alloc[1..])
  }

  /** The walk's own allocation. */
  function Greedy(s: seq<Level>, q: nat): (alloc: seq<nat>)
    requires PositiveLevels(s)
    ensures |alloc| == |s|
  {
    if s == [] then [] else [Take(s, q)] + Greedy(s[1..], q - Take(s, q))
  }

  lemma {:induction false} GreedyAllocates(s: seq<Level>, q: nat)
    requires PositiveLevels(s)
    ensures Feasible(s, Greedy(s, q)) && Sum(Greedy(s, q)) == FilledBy(s, q)
    ensures AllocCost(s, Greedy(s, q)) == ExactCost(s, q)
  {
    if s != [] {
      var t := Take(s, q);
      GreedyAllocates(s[1..], q - t);
      assert Greedy(s, q)[1..] == Greedy(s[1..], q - t);
      if q == 0 {
        assert s[0].price * t == 0;
        CostOfNothing(s[1..]);
      }
    }
  }

  lemma CostOfNothing(s: seq<Level>)
    requires PositiveLevels(s)
    ensures ExactCost(s, 0) == 0
  {
  }

  /** A cost or price as a taker minds it: paying on asks, receiving on bids. */
  function Pain(side: Side, x: int): int {
    if side == Sell then x else -x
  }

  lemma {:induction false} SumOfFeasible(s: seq<Level>, alloc: seq<nat>)
    requires PositiveLevels(s) && Feasible(s, alloc)
    ensures Sum(alloc) <= TotalQty(s)
  {
    if s != [] {
      SumOfFeasible(s[1..], alloc[1..]);
    }
  }

  lemma PainStep(side: Side, s: seq<Level>, q: nat)
    requires PositiveLevels(s) && s != []
    ensures Pain(side, ExactCost(s, q))
            == Pain(side, s[0].price) * Take(s, q) + Pain(side, ExactCost(s[1..], q - Take(s, q)))
  {
    if q == 0 {
      CostOfNothing(s[1..]);
    }
    assert Pain(side, s[0].price * Take(s, q)) == Pain(side, s[0].price) * Take(s, q);
  }

  lemma PainStepAlloc(side: Side, s: seq<Level>, alloc: seq<nat>)
    requires |alloc| == |s| && s != []
    ensures Pain(side, AllocCost(s, alloc))
            == Pain(side, s[0].price) * alloc[0] + Pain(side, AllocCost(s[1..], alloc[1..]))
  {
    assert Pain(side, s[0].price * alloc[0]) == Pain(side, s[0].price) * alloc[0];
  }

  /**
    Taking `extra` more than the walk from levels no better than `low` costs at least
    `extra` times `low` more: the exchange argument, one level at a time.
   */
  lemma {:induction false} GreedyExchange(side: Side, s: seq<Level>, q: nat, alloc: seq<nat>, extra: nat, low: int)
    requires PositiveLevels(s) && Sorted(side, s) && Feasible(s, alloc)
    requires Sum(alloc) == q + extra
    requires forall i :: 0 <= i < |s| ==> low <= Pain(side, s[i].price)
    ensures Pain(side, ExactCost(s, q)) + low * extra <= Pain(side, AllocCost(s, alloc))
  {
    if s == [] {
      assert low * 0 == 0;
    } else {
      var t, a, p := Take(s, q), alloc[0], Pain(side, s[0].price);
      SumOfFeasible(s, alloc);
      SumOfFeasible(s[1..], alloc[1..]);
      GreedyExchange(side, s[1..], q - t, alloc[1..], extra + t - a, p);
      PainStep(side, s, q);
      PainStepAlloc(side, s, alloc);
      ExchangeStep(p, low, t, a, extra,
                   Pain(side, ExactCost(s[1..], q - t)), Pain(side, AllocCost(s[1..], alloc[1..])));
    }
  }

  lemma ExchangeStep(p: int, low: int, t: nat, a: nat, extra: nat, rest: int, restAlloc: int)
    requires low <= p && rest + p * (extra + t - a) <= restAlloc
    ensures p * t + rest + low * extra <= p * a + restAlloc
  {
    MulMonotone(low, p, extra);
    assert p * (extra + t - a) == p * extra + p * t - p * a;
  }

  /** Among all allocations of what the walk fills, it is cheapest on asks and dearest on bids. */
  lemma GreedyIsOptimal(side: Side, s: seq<Level>, q: nat, alloc: seq<nat>)
    requires PositiveLevels(s) && Sorted(side, s) && Feasible(s, alloc)
    requires Sum(alloc) == FilledBy(s, q)
    ensures if side == Sell then ExactCost(s, q) <= AllocCost(s, alloc) else ExactCost(s, q) >= AllocCost(s, alloc)
  {
    ExactCostOfFilled(s, q);
    if s != [] {
      var low := if side == Sell then MIN_INT64 else -MAX_INT64;
      assert low * 0 == 0;
      GreedyExchange(side, s, FilledBy(s, q), alloc, 0, low);
    }
  }

  /** Asking for more than there is changes nothing. */
  lemma {:induction false} ExactCostOfFilled(s: seq<Level>, q: nat)
    requires PositiveLevels(s)
    ensures ExactCost(s, FilledBy(s, q)) == ExactCost(s, q)
  {
    if s != [] && q > 0 {
      var t := Take(s, q);
      ExactCostOfFilled(s[1..], q - t);
      assert Take(s, FilledBy(s, q)) == t;
      assert FilledBy(s, q) - t == FilledBy(s[1..], q - t);
    }
  }

  /**
    The truncated cost the code reports is within the touched levels of the optimum: of the
    least that the quantity can cost on asks, and of the most that it can bring on bids.
   */
  lemma TruncatedCostIsNearOptimal(side: Side, s: seq<Level>, q: nat, alloc: seq<nat>)
    requires Priced(s) && Sorted(side, s) && Feasible(s, alloc)
    requires Sum(alloc) == FilledBy(s, q)
    ensures side == Sell ==> TruncCost(s, q) * SCALE <= AllocCost(s, alloc)
    ensures side == Buy ==> AllocCost(s, alloc) <= (TruncCost(s, q) + Touched(s, q)) * SCALE
    ensures TruncCost(s, q) * SCALE <= ExactCost(s, q) <= (TruncCost(s, q) + Touched(s, q)) * SCALE
  {
    TruncationBound(s, q);
    GreedyIsOptimal(side, s, q, alloc);
  }

  // The average price worsens with quantity.

  /** The price of the last unit when `q` units are taken. */
  function Marginal(s: seq<Level>, q: nat): Fixed
    requires PositiveLevels(s) && 0 < q <= TotalQty(s)
  {
    assert s != [];
    if q <= s[0].qty then s[0].price else Marginal(s[1..], q - s[0].qty)
  }

  lemma {:induction false} MarginalIsNoBetter(side: Side, s: seq<Level>, q: nat)
    requires PositiveLevels(s) && Sorted(side, s) && 0 < q <= TotalQty(s)
    ensures s != [] && Pain(side, s[0].price) <= Pain(side, Marginal(s, q))
  {
    if q > s[0].qty {
      MarginalIsNoBetter(side, s[1..], q - s[0].qty);
    }
  }

  /** No unit of the first `q` costs more than the marginal price. */
  lemma {:induction false} FirstUnitsAtMost(side: Side, s: seq<Level>, q: nat)
    requires PositiveLevels(s) && Sorted(side, s) && 0 < q <= TotalQty(s)
    ensures Pain(side, ExactCost(s, q)) <= Pain(side, Marginal(s, q)) * q
  {
    PainStep(side, s, q);
    var t, m := Take(s, q), Pain(side, Marginal(s, q));
    if q <= s[0].qty {
      CostOfNothing(s[1..]);
    } else {
      FirstUnitsAtMost(side, s[1..], q - t);
      MarginalIsNoBetter(side, s, q);
      FirstStep(Pain(side, s[0].price), m, t, q, Pain(side, ExactCost(s[1..], q - t)));
    }
  }

  lemma FirstStep(p: int, m: int, t: nat, q: nat, rest: int)
    requires p <= m && t <= q && rest <= m * (q - t)
    ensures p * t + rest <= m * q
  {
    MulMonotone(p, m, t);
    Distribute(m, t, q - t);
  }

  /** No unit after the first `q` costs less than the marginal price. */
  lemma {:induction false} LaterUnitsAtLeast(side: Side, s: seq<Level>, q: nat, r: nat)
    requires PositiveLevels(s) && Sorted(side, s) && 0 < q <= r <= TotalQty(s)
    ensures Pain(side, Marginal(s, q)) * (r - q) <= Pain(side, ExactCost(s, r)) - Pain(side, ExactCost(s, q))
  {
    PainStep(side, s, q);
    PainStep(side, s, r);
    var p, t, u := Pain(side, s[0].price), Take(s, q), Take(s, r);
    if q <= s[0].qty {
      CostOfNothing(s[1..]);
      CostAtLeast(side, s[1..], r - u, p);
      LaterStep(p, t, u, r, Pain(side, ExactCost(s[1..], r - u)));
    } else {
      LaterUnitsAtLeast(side, s[1..], q - t, r - t);
    }
  }

  lemma LaterStep(p: int, t: nat, u: nat, r: nat, rest: int)
    requires p * (r - u) <= rest
    ensures p * (r - t) <= p * u + rest - p * t
  {
    assert p * (r - t) == p * u - p * t + p * (r - u);
  }

  lemma {:induction false} CostAtLeast(side: Side, s: seq<Level>, q: nat, low: int)
    requires PositiveLevels(s) && q <= TotalQty(s)
    requires forall i :: 0 <= i < |s| ==> low <= Pain(side, s[i].price)
    ensures low * q <= Pain(side, ExactCost(s, q))
  {
    if s != [] {
      var t := Take(s, q);
      PainStep(side, s, q);
      CostAtLeast(side, s[1..], q - t, low);
      MulMonotone(low, Pain(side, s[0].price), t);
      Distribute(low, t, q - t);
    } else {
      assert low * 0 == 0;
    }
  }

  /** ExactCost(q)/q is monotone in q, in the direction that is worse for the taker. */
  lemma AverageWorsens(side: Side, s: seq<Level>, q: nat, r: nat)
    requires PositiveLevels(s) && Sorted(side, s) && 0 < q <= r <= TotalQty(s)
    ensures Pain(side, ExactCost(s, q)) * r <= Pain(side, ExactCost(s, r)) * q
  {
    FirstUnitsAtMost(side, s, q);
    LaterUnitsAtLeast(side, s, q, r);
    CrossMultiply(Pain(side, ExactCost(s, q)), Pain(side, ExactCost(s, r)), Pain(side, Marginal(s, q)), q, r);
  }

  lemma CrossMultiply(a: int, b: int, m: int, q: nat, r: nat)
    requires a <= m * q && m * (r - q) <= b - a && q <= r
    ensures a * r <= b * q
  {
    MulMonotone(a, m * q, r - q);
    MulMonotone(m * (r - q), b - a, q);
    assert m * q * (r - q) == m * (r - q) * q;
    assert a * (r - q) <= (b - a) * q;
    assert a * r == a * q + a * (r - q);
    assert b * q == a * q + (b - a) * q;
  }

  // Views cut the book off at a number of levels.

  lemma {:induction false} TotalQtyTop(s: seq<Level>, n: nat)
    requires PositiveLevels(s)
    ensures PositiveLevels(Top(s, n)) && TotalQty(Top(s, n)) <= TotalQty(s)
  {
    if n >= |s| {
      assert Top(s, n) == s;
    } else if n == 0 {
      assert Top(s, n) == [];
    } else {
      TotalQtyTop(s[1..], n - 1);
      assert Top(s, n)[1..] == Top(s[1..], n - 1);
    }
  }

  /** When the visible levels suffice, walking them is walking the whole side. */
  lemma {:induction false} TopSuffices(s: seq<Level>, n: nat, q: nat)
    requires Priced(s) && PositiveLevels(Top(s, n)) && q <= TotalQty(Top(s, n))
    ensures Priced(Top(s, n))
    ensures TruncCost(Top(s, n), q) == TruncCost(s, q) && q <= TotalQty(s)
  {
    if n >= |s| {
      assert Top(s, n) == s;
    } else if n == 0 {
      assert Top(s, n) == [];
    } else {
      TotalQtyTop(s, n);
      var top := Top(s, n);
      assert top[1..] == Top(s[1..], n - 1);
      if q > 0 {
        TopSuffices(s[1..], n - 1, q - Take(s, q));
      }
    }
  }
}
