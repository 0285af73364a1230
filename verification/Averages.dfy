/**
  An average kept one lot at a time, rounded down at every step. Fills of an order and buys of a
  position are averaged this way; here are the bounds on what the rounding loses.
 */
module Averages {
  import opened Decimal
  import opened Domain
  import opened BookSpec
  import opened Walk

  /** The average after one more lot, rounding as the code does. */
  function NextAverage(avg: nat, held: nat, price: nat, qty: nat): nat
    requires qty > 0
  {
    MulMonotone(0, avg, held);
    MulMonotone(0, price, qty);
    FloorAtLeast((avg * held / SCALE + price * qty / SCALE) * SCALE, held + qty, 0);
    (avg * held / SCALE + price * qty / SCALE) * SCALE / (held + qty)
  }

  function QtyOf(lots: seq<Level>): (q: int)
    ensures PositiveLevels(lots) ==> q >= 0 && (lots != [] ==> q > 0)
  {
    if lots == [] then 0 else QtyOf(lots[..|lots| - 1]) + lots[|lots| - 1].qty
  }

  /** The summed cost of the lots, each rounded down. */
  function CostOf(lots: seq<Level>): int {
    if lots == [] then 0
    else CostOf(lots[..|lots| - 1]) + lots[|lots| - 1].price * lots[|lots| - 1].qty / SCALE
  }

  /** The quantities held after each lot, summed. */
  function RunningQty(lots: seq<Level>): int {
    if lots == [] then 0 else RunningQty(lots[..|lots| - 1]) + QtyOf(lots)
  }

  function AverageOf(lots: seq<Level>): nat
    requires Priced(lots)
  {
    if lots == [] then 0
    else
      var init, last := lots[..|lots| - 1], lots[|lots| - 1];
      NextAverage(AverageOf(init), QtyOf(init), last.price, last.qty)
  }

  function HighestPrice(lots: seq<Level>): (top: int)
    requires lots != []
    ensures exists i :: 0 <= i < |lots| && lots[i].price == top
    ensures forall i :: 0 <= i < |lots| ==> lots[i].price <= top
  {
    var init, last := lots[..|lots| - 1], lots[|lots| - 1];
    if init == [] then last.price
    else
      var top := HighestPrice(init);
      assert exists i :: 0 <= i < |lots| && lots[i].price == top by {
        var i :| 0 <= i < |init| && init[i].price == top;
        assert lots[i].price == top;
      }
      if last.price > top then last.price else top
  }

  // One more lot.

  lemma NextAverageAtMost(avg: nat, held: nat, price: nat, qty: nat, top: nat)
    requires qty > 0 && avg <= top && price <= top
    ensures NextAverage(avg, held, price, qty) <= top
  {
    MulMonotone(avg, top, held);
    MulMonotone(price, top, qty);
    FloorBounds(avg * held, SCALE);
    FloorBounds(price * qty, SCALE);
    Distribute(top, held, qty);
    FloorAtMost((avg * held / SCALE + price * qty / SCALE) * SCALE, held + qty, top);
  }

  /** The average never overstates the summed cost. */
  lemma NextAverageUpper(avg: nat, held: nat, price: nat, qty: nat, cost: int)
    requires qty > 0 && avg * held <= cost * SCALE
    ensures 0 <= avg * held / SCALE <= cost
    ensures NextAverage(avg, held, price, qty) * (held + qty) <= (cost + price * qty / SCALE) * SCALE
  {
    FloorBounds(avg * held, SCALE);
    MulMonotone(0, avg, held);
    FloorBounds((avg * held / SCALE + price * qty / SCALE) * SCALE, held + qty);
  }

  /** One more lot loses less than held+qty raw units, and less than one more where something was held. */
  lemma NextAverageLower(avg: nat, held: nat, price: nat, qty: nat, cost: int)
    requires qty > 0
    ensures var loss := cost * SCALE - avg * held;
            (cost + price * qty / SCALE) * SCALE - NextAverage(avg, held, price, qty) * (held + qty)
            <= loss + (if held > 0 then SCALE - 1 else 0) + held + qty - 1
  {
    var v, c := avg * held / SCALE, price * qty / SCALE;
    FloorBounds(avg * held, SCALE);
    FloorBounds((v + c) * SCALE, held + qty);
    if held == 0 {
      assert avg * held == 0;
    }
  }

  // All lots.

  lemma {:induction false} AverageAtMost(lots: seq<Level>, top: nat)
    requires Priced(lots) && forall i :: 0 <= i < |lots| ==> lots[i].price <= top
    ensures AverageOf(lots) <= top
  {
    if lots != [] {
      var init, last := lots[..|lots| - 1], lots[|lots| - 1];
      AverageAtMost(init, top);
      NextAverageAtMost(AverageOf(init), QtyOf(init), last.price, last.qty, top);
    }
  }

  /** The running average of n lots, and the most it can fall short of their summed cost. */
  lemma {:induction false} AverageLoses(lots: seq<Level>)
    requires Priced(lots)
    ensures 0 <= AverageOf(lots) * QtyOf(lots) <= CostOf(lots) * SCALE
    ensures lots != [] ==>
              CostOf(lots) * SCALE - AverageOf(lots) * QtyOf(lots)
              <= (|lots| - 1) * (SCALE - 1) + RunningQty(lots) - |lots|
  {
    hide NextAverage;
    if lots != [] {
      var init, last := lots[..|lots| - 1], lots[|lots| - 1];
      AverageLoses(init);
      NextAverageUpper(AverageOf(init), QtyOf(init), last.price, last.qty, CostOf(init));
      NextAverageLower(AverageOf(init), QtyOf(init), last.price, last.qty, CostOf(init));
      MulMonotone(0, AverageOf(lots), QtyOf(lots));
    }
  }

  lemma {:induction false} RunningQtyAtMost(lots: seq<Level>)
    requires PositiveLevels(lots)
    ensures RunningQty(lots) <= |lots| * QtyOf(lots)
  {
    if lots != [] {
      var init := lots[..|lots| - 1];
      RunningQtyAtMost(init);
      MulMonotone(QtyOf(init), QtyOf(lots), |init|);
      assert |lots| * QtyOf(lots) == |init| * QtyOf(lots) + QtyOf(lots);
    }
  }

  /**
    What is known of an average: it is at most the highest price, its value never exceeds the
    summed cost, and it falls short of that by less than (n-1) raw units plus the running
    quantities over 1e8. Stated in units of 1e-16.
   */
  predicate AverageWithin(avg: int, lots: seq<Level>) {
    lots != [] ==>
      && 0 <= avg <= HighestPrice(lots)
      && avg * QtyOf(lots) <= CostOf(lots) * SCALE
      && CostOf(lots) * SCALE - avg * QtyOf(lots) < (|lots| - 1) * SCALE + RunningQty(lots)
      && RunningQty(lots) <= |lots| * QtyOf(lots)
  }

  lemma AverageBounds(lots: seq<Level>)
    requires Priced(lots)
    ensures AverageWithin(AverageOf(lots), lots)
  {
    if lots != [] {
      AverageAtMost(lots, HighestPrice(lots));
      AverageLoses(lots);
      RunningQtyAtMost(lots);
      assert (|lots| - 1) * (SCALE - 1) == (|lots| - 1) * SCALE - (|lots| - 1);
    }
  }

  lemma OneMoreLot(lots: seq<Level>, l: Level)
    ensures QtyOf(lots + [l]) == QtyOf(lots) + l.qty
    ensures CostOf(lots + [l]) == CostOf(lots) + l.price * l.qty / SCALE
    ensures Priced(lots) && l.price >= 0 && l.qty > 0 ==>
              && Priced(lots + [l])
              && AverageOf(lots + [l]) == NextAverage(AverageOf(lots), QtyOf(lots), l.price, l.qty)
  {
    assert (lots + [l])[..|lots|] == lots;
  }
}
