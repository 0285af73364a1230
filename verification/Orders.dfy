/** Simulated orders: the state machine and the recording of fills (internal/execution/execution.go). */
module Orders {
  import opened Outcomes
  import opened Decimal
  import opened Domain
  import opened Averages

  datatype OrderType = Market | IOCLimit

  datatype OrderState =
    Pending | Accepted | PartiallyFilled | Filled | CancelPending | Cancelled | Rejected | Expired

  predicate CanTransition(from: OrderState, to: OrderState) {
    match from
    case Pending => to in {Accepted, Rejected, Cancelled, Expired}
    case Accepted => to in {PartiallyFilled, Filled, CancelPending, Cancelled, Expired}
    case PartiallyFilled => to in {PartiallyFilled, Filled, CancelPending, Cancelled, Expired}
    case CancelPending => to in {Cancelled, PartiallyFilled, Filled}
    case Filled => false
    case Cancelled => false
    case Rejected => false
    case Expired => false
  }

  /** The table read the other way: where each state can be entered from. */
  lemma Predecessors(from: OrderState, to: OrderState)
    ensures CanTransition(from, to)
            <==> match to
                 case Pending => false
                 case Accepted => from == Pending
                 case PartiallyFilled => from in {Accepted, PartiallyFilled, CancelPending}
                 case Filled => from in {Accepted, PartiallyFilled, CancelPending}
                 case CancelPending => from in {Accepted, PartiallyFilled}
                 case Cancelled => !Terminal(from)
                 case Rejected => from == Pending
                 case Expired => !Terminal(from) && from != CancelPending
    ensures Terminal(from) <==> !exists s :: CanTransition(from, s)
  {
    if !Terminal(from) {
      assert CanTransition(from, Cancelled);
    }
  }

  predicate Terminal(s: OrderState) {
    s in {Filled, Cancelled, Rejected, Expired}
  }

  /** Go's error results; Success is the nil error. */
  datatype Status =
    | Success
    | FillNotPositive
    | Overfill
    | IllegalTransition(from: OrderState, to: OrderState)
    | BookNotReady

  /** The engine's ids are "opp-<n>-buy" and "opp-<n>-sell"; other callers use names of their own. */
  datatype ClientOrderID = ForOpportunity(n: nat, side: Side) | Named(name: string)

  datatype OrderData = OrderData(
    id: nat,
    clientOrderID: ClientOrderID,
    venue: Venue,
    symbol: string,
    side: Side,
    kind: OrderType,
    price: Fixed,
    quantity: Fixed,
    filledQuantity: Fixed,
    avgFillPrice: Fixed,
    state: OrderState)

  function Transitioned(o: OrderData, to: OrderState): (OrderData, Status) {
    if CanTransition(o.state, to) then (o.(state := to), Success) else (o, IllegalTransition(o.state, to))
  }

  /** Fill: quantity and average are written before the transition is tried. */
  function WithFill(o: OrderData, price: Fixed, qty: Fixed): Checked<(OrderData, Status)> {
    if qty <= 0 then Done((o, FillNotPositive))
    else
      var total :- Add(o.filledQuantity, qty);
      if total > o.quantity then Done((o, Overfill))
      else
        var held :- Mul(o.avgFillPrice, o.filledQuantity);
        var added :- Mul(price, qty);
        var newCost :- Add(held, added);
        var avg :- Div(newCost, total);
        var o1 := o.(filledQuantity := total, avgFillPrice := avg);
        var (o2, status) := if o.state == Pending then Transitioned(o1, Accepted) else (o1, Success);
        if status != Success then Done((o2, status))
        else Done(Transitioned(o2, if total == o.quantity then Filled else PartiallyFilled))
  }

  class Order {
    const id: nat
    const clientOrderID: ClientOrderID
    const venue: Venue
    const symbol: string
    const side: Side
    const kind: OrderType
    const price: Fixed
    const quantity: Fixed
    var filledQuantity: Fixed
    var avgFillPrice: Fixed
    var state: OrderState

    ghost function Value(): OrderData
      reads this
    {
      OrderData(id, clientOrderID, venue, symbol, side, kind, price, quantity, filledQuantity, avgFillPrice, state)
    }

    constructor (o: OrderData)
      ensures Value() == o
    {
      id, clientOrderID, venue, symbol, side := o.id, o.clientOrderID, o.venue, o.symbol, o.side;
      kind, price, quantity := o.kind, o.price, o.quantity;
      filledQuantity, avgFillPrice, state := o.filledQuantity, o.avgFillPrice, o.state;
    }

    method Transition(to: OrderState) returns (status: Status)
      modifies this
      ensures (Value(), status) == Transitioned(old(Value()), to)
    {
      if !CanTransition(state, to) {
        return IllegalTransition(state, to);
      }
      state := to;
      return Success;
    }

    method Fill(fillPrice: Fixed, qty: Fixed) returns (r: Checked<Status>)
      modifies this
      ensures match WithFill(old(Value()), fillPrice, qty)
              case Panicked => r.Panicked?
              case Done((o, status)) => r == Done(status) && Value() == o
    {
      if qty <= 0 {
        return Done(FillNotPositive);
      }
      var total :- Add(filledQuantity, qty);
      if total > quantity {
        return Done(Overfill);
      }
      var held :- Mul(avgFillPrice, filledQuantity);
      var added :- Mul(fillPrice, qty);
      var newCost :- Add(held, added);
      var avg :- Div(newCost, total);
      filledQuantity := total;
      avgFillPrice := avg;
      if state == Pending {
        var accepted := Transition(Accepted);
        if accepted != Success {
          return Done(accepted);
        }
      }
      var status: Status;
      if total == quantity {
        status := Transition(Filled);
      } else {
        status := Transition(PartiallyFilled);
      }
      r := Done(status);
    }
  }

  // What a fill does.

  /** The state a fill asks for. */
  function Wanted(o: OrderData, total: Fixed): OrderState {
    if total == o.quantity then Filled else PartiallyFilled
  }

  /** The order once a fill is written: a terminal state stays. */
  function AfterFill(o: OrderData, avg: Fixed, total: Fixed): OrderData {
    o.(filledQuantity := total, avgFillPrice := avg, state := if Terminal(o.state) then o.state else Wanted(o, total))
  }

  /**
    A fill that neither overfills nor overflows is written at the new average whatever the state;
    it goes through unless the order is terminal.
   */
  lemma FillMeaning(o: OrderData, price: Fixed, qty: Fixed)
    requires o.filledQuantity >= 0 && o.avgFillPrice >= 0 && price >= 0 && qty > 0
    requires o.filledQuantity + qty <= o.quantity
    requires o.avgFillPrice * o.filledQuantity / SCALE + price * qty / SCALE <= MAX_INT64
    requires NextAverage(o.avgFillPrice, o.filledQuantity, price, qty) <= MAX_INT64
    ensures var total := o.filledQuantity + qty;
            WithFill(o, price, qty)
            == Done((AfterFill(o, NextAverage(o.avgFillPrice, o.filledQuantity, price, qty), total),
                     if Terminal(o.state) then IllegalTransition(o.state, Wanted(o, total)) else Success))
  {
    MulNonneg(o.avgFillPrice, o.filledQuantity);
    MulNonneg(price, qty);
    DivNonneg(o.avgFillPrice * o.filledQuantity / SCALE + price * qty / SCALE, o.filledQuantity + qty);
  }

  /**
    What a fill of any order can do to its state: none, or into PartiallyFilled or Filled.
    A terminal state is never left.
   */
  lemma FillStates(o: OrderData, price: Fixed, qty: Fixed)
    ensures match WithFill(o, price, qty)
            case Panicked => true
            case Done((p, status)) =>
              && (Terminal(o.state) ==> p.state == o.state && status != Success)
              && (!Terminal(o.state) && status == Success ==>
                    p.state == if p.filledQuantity == o.quantity then Filled else PartiallyFilled)
              && (status == Success ==> p.filledQuantity == o.filledQuantity + qty <= o.quantity && qty > 0)
  {
  }

  /** "A failed fill changes nothing" holds exactly when the guards of Fill refuse it. */
  lemma FailedFillChangesNothingIff(o: OrderData, price: Fixed, qty: Fixed)
    requires WithFill(o, price, qty).Done? && WithFill(o, price, qty).value.1 != Success
    ensures WithFill(o, price, qty).value.0 == o <==> qty <= 0 || o.filledQuantity + qty > o.quantity
    ensures qty > 0 && o.filledQuantity + qty <= o.quantity ==> Terminal(o.state)
  {
  }

  /** The concrete case: filling a cancelled order fails, and still counts the fill. */
  lemma CancelledOrderStillCounts()
    ensures exists o: OrderData, price: Fixed, qty: Fixed ::
              && o.state == Cancelled && o.filledQuantity == 0
              && WithFill(o, price, qty).Done?
              && WithFill(o, price, qty).value.1 == IllegalTransition(Cancelled, PartiallyFilled)
              && WithFill(o, price, qty).value.0.filledQuantity == qty > 0
  {
    var o := OrderData(1, Named("c"), Binance, "BTC-USDT", Buy, IOCLimit, SCALE, 2 * SCALE, 0, 0, Cancelled);
    var price: Fixed, qty: Fixed := SCALE, SCALE;
    assert Mul(0, 0) == Done(0) && Mul(SCALE, SCALE) == Done(SCALE) && Div(SCALE, SCALE) == Done(SCALE);
    assert WithFill(o, price, qty)
           == Done((o.(filledQuantity := SCALE, avgFillPrice := SCALE), IllegalTransition(Cancelled, PartiallyFilled)));
  }
}
