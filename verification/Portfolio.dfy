/** Per-venue balances and positions (internal/portfolio/portfolio.go). */
module Portfolio {
  import opened Outcomes
  import opened Decimal
  import opened Domain
  import opened Sums
  import opened CheckedSums
  import DecimalText

  /** A balance is keyed by venue and asset, a position by venue and symbol. */
  type Key = (Venue, string)

  datatype PositionData = PositionData(qty: Fixed, avgCost: Fixed)

  datatype LedgerState = LedgerState(balances: map<Key, Fixed>, positions: map<Key, PositionData>, realized: Fixed)

  function Available(l: LedgerState, k: Key): Fixed {
    if k in l.balances then l.balances[k] else 0
  }

  function PositionAt(l: LedgerState, k: Key): PositionData {
    if k in l.positions then l.positions[k] else PositionData(0, 0)
  }

  /** The asset names of a symbol: before and after the first dash, quoted in USDT without one. */
  function BaseOf(symbol: string): string {
    symbol[..DecimalText.IndexOf(symbol, '-')]
  }

  function QuoteOf(symbol: string): string {
    var i := DecimalText.IndexOf(symbol, '-');
    if i < |symbol| then symbol[i + 1..] else "USDT"
  }

  /** A symbol is a base and a quote joined by a dash; the base has no dash of its own. */
  lemma JoinedAssets(base: string, quote: string)
    requires '-' !in base
    ensures BaseOf(base + "-" + quote) == base && QuoteOf(base + "-" + quote) == quote
  {
    var s := base + "-" + quote;
    assert s[..|base|] == base && s[|base|] == '-' && s[|base| + 1..] == quote;
    DecimalText.IndexOfFirst(s, '-', |base|);
  }

  /** Or it has no dash, and is quoted in USDT. */
  lemma BareAssets(symbol: string)
    requires '-' !in symbol
    ensures BaseOf(symbol) == symbol && QuoteOf(symbol) == "USDT"
  {
    DecimalText.IndexOfAbsent(symbol, '-');
  }

  /** There is no third kind of symbol. */
  lemma SymbolKinds(symbol: string)
    ensures '-' !in symbol || ('-' !in BaseOf(symbol) && symbol == BaseOf(symbol) + "-" + QuoteOf(symbol))
  {
    var i := DecimalText.IndexOf(symbol, '-');
    if i < |symbol| {
      assert symbol == symbol[..i] + "-" + symbol[i + 1..];
    } else {
      assert symbol[..i] == symbol;
    }
  }

  /** Every branch moves the quantity by `qty`; they differ in what happens to the average cost. */
  function Bought(p: PositionData, px: Fixed, qty: Fixed): Checked<PositionData> {
    var newQty :- Add(p.qty, qty);
    if p.qty < 0 then Done(if newQty <= 0 then p.(qty := newQty) else PositionData(newQty, px))
    else if newQty == 0 then Done(p.(qty := 0))
    else
      var held :- Mul(p.avgCost, p.qty);
      var added :- Mul(px, qty);
      var total :- Add(held, added);
      var avg :- Div(total, newQty);
      Done(PositionData(newQty, avg))
  }

  function Sold(p: PositionData, px: Fixed, qty: Fixed): Checked<PositionData> {
    var negative :- MulInt(qty, -1);
    Bought(p, px, negative)
  }

  /**
    What happens to the average cost where it is not averaged: a short that stays one keeps it, a
    short that turns long takes the price, and a position closed from above keeps it.
   */
  lemma KeptAverages(p: PositionData, px: Fixed, qty: Fixed)
    requires Bought(p, px, qty).Done?
    ensures p.qty < 0 && p.qty + qty <= 0 ==> Bought(p, px, qty).value == PositionData(p.qty + qty, p.avgCost)
    ensures p.qty < 0 && p.qty + qty > 0 ==> Bought(p, px, qty).value == PositionData(p.qty + qty, px)
    ensures p.qty >= 0 && p.qty + qty == 0 ==> Bought(p, px, qty).value == PositionData(0, p.avgCost)
  {
  }

  /** The second half of a settlement: credit what came in, and move the position. */
  function Received(l: LedgerState, into: Key, amount: Fixed, position: Key, px: Fixed, qty: Fixed, sale: bool):
    Checked<LedgerState> {
    var more :- Add(Available(l, into), amount);
    var held := PositionAt(l, position);
    var moved :- if sale then Sold(held, px, qty) else Bought(held, px, qty);
    Done(WithBalance(l, into, more).(positions := l.positions[position := moved]))
  }

  /** The first half: pay `amount` out of a balance, or refuse, leaving at most an empty entry. */
  function Paid(l: LedgerState, from: Key, amount: Fixed): Checked<(LedgerState, bool)> {
    var have := Available(l, from);
    if have < amount then Done((WithBalance(l, from, have), false))
    else
      var left :- Sub(have, amount);
      Done((WithBalance(l, from, left), true))
  }

  /** A buy pays price*qty + fee in quote. */
  function BuyApplied(l: LedgerState, v: Venue, symbol: string, base: string, quote: string,
                      px: Fixed, qty: Fixed, fee: Fixed): Checked<(LedgerState, bool)> {
    var notional :- Mul(px, qty);
    var cost :- Add(notional, fee);
    var (paid, ok) :- Paid(l, (v, quote), cost);
    if !ok then Done((paid, false))
    else
      var after :- Received(paid, (v, base), qty, (v, symbol), px, qty, false);
      Done((after, true))
  }

  /** A sell pays the base and receives price*qty - fee. */
  function SellApplied(l: LedgerState, v: Venue, symbol: string, base: string, quote: string,
                       px: Fixed, qty: Fixed, fee: Fixed): Checked<(LedgerState, bool)> {
    var (paid, ok) :- Paid(l, (v, base), qty);
    if !ok then Done((paid, false))
    else
      var notional :- Mul(px, qty);
      var proceeds :- Sub(notional, fee);
      var after :- Received(paid, (v, quote), proceeds, (v, symbol), px, qty, true);
      Done((after, true))
  }

  function RealizedAdded(l: LedgerState, pnl: Fixed): Checked<LedgerState> {
    var r :- Add(l.realized, pnl);
    Done(l.(realized := r))
  }

  function WithBalance(l: LedgerState, k: Key, available: Fixed): LedgerState {
    l.(balances := l.balances[k := available])
  }

  class Balance {
    const key: Key
    var available: Fixed

    constructor (key: Key)
      ensures this.key == key && available == 0
    {
      this.key, available := key, 0;
    }
  }

  class Position {
    const key: Key
    var qty: Fixed
    var avgCost: Fixed

    ghost function Value(): PositionData
      reads this
    {
      PositionData(qty, avgCost)
    }

    constructor (key: Key)
      ensures this.key == key && Value() == PositionData(0, 0)
    {
      this.key, qty, avgCost := key, 0, 0;
    }

    method AddBuy(px: Fixed, amount: Fixed) returns (r: Checked<()>)
      modifies this
      ensures match Bought(old(Value()), px, amount)
              case Panicked => r.Panicked?
              case Done(p) => r.Done? && Value() == p
    {
      var newQty :- Add(qty, amount);
      if qty < 0 {
        if newQty < 0 || newQty == 0 {
          qty := newQty;
          return Done(());
        }
        qty, avgCost := newQty, px;
        return Done(());
      }
      if newQty == 0 {
        qty := 0;
        return Done(());
      }
      var held :- Mul(avgCost, qty);
      var added :- Mul(px, amount);
      var total :- Add(held, added);
      avgCost :- Div(total, newQty);
      qty := newQty;
      r := Done(());
    }

    method AddSell(px: Fixed, amount: Fixed) returns (r: Checked<()>)
      modifies this
      ensures match Sold(old(Value()), px, amount)
              case Panicked => r.Panicked?
              case Done(p) => r.Done? && Value() == p
    {
      var negative :- MulInt(amount, -1);
      r := AddBuy(px, negative);
    }
  }

  class Ledger {
    var balances: map<Key, Balance>
    var positions: map<Key, Position>
    var realized: Fixed
    // The ledger as a value, and its entries.
    ghost var value: LedgerState
    ghost var repr: set<object>

    /** Each entry is an object of its own, under the key it carries, and the value is what they hold. */
    ghost predicate Valid()
      reads this, repr
    {
      && this !in repr && value.realized == realized
      && value.balances.Keys == balances.Keys && value.positions.Keys == positions.Keys
      && (forall k :: k in balances ==>
            balances[k] in repr && balances[k].key == k && balances[k].available == value.balances[k])
      && (forall k :: k in positions ==>
            positions[k] in repr && positions[k].key == k && positions[k].Value() == value.positions[k])
    }

    constructor ()
      ensures Valid() && value == LedgerState(map[], map[], 0) && repr == {}
    {
      balances, positions, realized := map[], map[], 0;
      value, repr := LedgerState(map[], map[], 0), {};
    }

    method AvailableAt(v: Venue, asset: string) returns (x: Fixed)
      requires Valid()
      ensures x == Available(value, (v, asset))
    {
      if (v, asset) in balances {
        return balances[(v, asset)].available;
      }
      x := 0;
    }

    method BalanceEntry(k: Key) returns (b: Balance)
      requires Valid()
      modifies this`balances, this`value, this`repr
      ensures Valid() && k in balances && b == balances[k] && fresh(repr - old(repr))
      ensures value == WithBalance(old(value), k, Available(old(value), k))
      ensures b.available == Available(old(value), k)
    {
      if k !in balances {
        var n := new Balance(k);
        balances, repr := balances[k := n], repr + {n};
      }
      b := balances[k];
      value := WithBalance(value, k, b.available);
    }

    method PositionEntry(k: Key) returns (p: Position)
      requires Valid()
      modifies this`positions, this`value, this`repr
      ensures Valid() && k in positions && p == positions[k] && fresh(repr - old(repr))
      ensures value == old(value).(positions := old(value).positions[k := PositionAt(old(value), k)])
      ensures p.Value() == PositionAt(old(value), k)
    {
      if k !in positions {
        var n := new Position(k);
        positions, repr := positions[k := n], repr + {n};
      }
      p := positions[k];
      value := value.(positions := value.positions[k := p.Value()]);
    }

    method SetAvailable(k: Key, x: Fixed)
      requires Valid() && k in balances
      modifies this`value, balances[k]
      ensures Valid() && value == WithBalance(old(value), k, x)
    {
      balances[k].available := x;
      value := WithBalance(value, k, x);
    }

    method SetBalance(v: Venue, asset: string, available: Fixed)
      requires Valid()
      modifies this, repr
      ensures Valid() && fresh(repr - old(repr))
      ensures value == WithBalance(old(value), (v, asset), available)
    {
      var b := BalanceEntry((v, asset));
      SetAvailable((v, asset), available);
    }

    method Credit(v: Venue, asset: string, amount: Fixed) returns (r: Checked<()>)
      requires Valid()
      modifies this, repr
      ensures r.Done? ==> Valid() && fresh(repr - old(repr))
      ensures match Add(Available(old(value), (v, asset)), amount)
              case Panicked => r.Panicked?
              case Done(x) => r.Done? && value == WithBalance(old(value), (v, asset), x)
    {
      hide Add;
      var b := BalanceEntry((v, asset));
      var x :- Add(b.available, amount);
      SetAvailable((v, asset), x);
      r := Done(());
    }

    method MovePosition(k: Key, px: Fixed, amount: Fixed, sale: bool) returns (r: Checked<()>)
      requires Valid() && k in positions
      modifies this`value, positions[k]
      ensures r.Done? ==> Valid()
      ensures match (if sale then Sold(old(value).positions[k], px, amount)
                     else Bought(old(value).positions[k], px, amount))
              case Panicked => r.Panicked?
              case Done(p) => r.Done? && value == old(value).(positions := old(value).positions[k := p])
    {
      var p := positions[k];
      if sale {
        r := p.AddSell(px, amount);
      } else {
        r := p.AddBuy(px, amount);
      }
      value := value.(positions := value.positions[k := p.Value()]);
    }

    /** The position half of a settlement. */
    method Settle(k: Key, px: Fixed, amount: Fixed, sale: bool) returns (r: Checked<()>)
      requires Valid()
      modifies this, repr
      ensures r.Done? ==> Valid() && fresh(repr - old(repr))
      ensures match (if sale then Sold(PositionAt(old(value), k), px, amount)
                     else Bought(PositionAt(old(value), k), px, amount))
              case Panicked => r.Panicked?
              case Done(p) => r.Done? && value == old(value).(positions := old(value).positions[k := p])
    {
      var p := PositionEntry(k);
      r := MovePosition(k, px, amount, sale);
    }

    method Pay(from: Key, amount: Fixed) returns (r: Checked<bool>)
      requires Valid()
      modifies this, repr
      ensures r.Done? ==> Valid() && fresh(repr - old(repr))
      ensures match Paid(old(value), from, amount)
              case Panicked => r.Panicked?
              case Done((l, ok)) => r == Done(ok) && value == l
    {
      hide Sub;
      var b := BalanceEntry(from);
      if b.available < amount {
        return Done(false);
      }
      var left :- Sub(b.available, amount);
      SetAvailable(from, left);
      r := Done(true);
    }

    method Receive(into: Key, amount: Fixed, position: Key, px: Fixed, qty: Fixed, sale: bool) returns (r: Checked<()>)
      requires Valid()
      modifies this, repr
      ensures r.Done? ==> Valid() && fresh(repr - old(repr))
      ensures match Received(old(value), into, amount, position, px, qty, sale)
              case Panicked => r.Panicked?
              case Done(l) => r.Done? && value == l
    {
      var _ :- Credit(into.0, into.1, amount);
      r := Settle(position, px, qty, sale);
    }

    method ApplyBuy(v: Venue, symbol: string, base: string, quote: string, px: Fixed, qty: Fixed, fee: Fixed)
      returns (r: Checked<bool>)
      requires Valid()
      modifies this, repr
      ensures r.Done? ==> Valid() && fresh(repr - old(repr))
      ensures match BuyApplied(old(value), v, symbol, base, quote, px, qty, fee)
              case Panicked => r.Panicked?
              case Done((l, ok)) => r == Done(ok) && value == l
    {
      var notional :- Mul(px, qty);
      var cost :- Add(notional, fee);
      var paid :- Pay((v, quote), cost);
      if !paid {
        return Done(false);
      }
      var _ :- Receive((v, base), qty, (v, symbol), px, qty, false);
      r := Done(true);
    }

    method ApplySell(v: Venue, symbol: string, base: string, quote: string, px: Fixed, qty: Fixed, fee: Fixed)
      returns (r: Checked<bool>)
      requires Valid()
      modifies this, repr
      ensures r.Done? ==> Valid() && fresh(repr - old(repr))
      ensures match SellApplied(old(value), v, symbol, base, quote, px, qty, fee)
              case Panicked => r.Panicked?
              case Done((l, ok)) => r == Done(ok) && value == l
    {
      var paid :- Pay((v, base), qty);
      if !paid {
        return Done(false);
      }
      var notional :- Mul(px, qty);
      var proceeds :- Sub(notional, fee);
      var _ :- Receive((v, quote), proceeds, (v, symbol), px, qty, true);
      r := Done(true);
    }

    method AddRealized(pnl: Fixed) returns (r: Checked<()>)
      requires Valid()
      modifies this`realized, this`value
      ensures match RealizedAdded(old(value), pnl)
              case Panicked => r.Panicked?
              case Done(l) => r.Done? && value == l && Valid()
    {
      realized :- Add(realized, pnl);
      value := value.(realized := realized);
      r := Done(());
    }

    /** Ranges over the positions in some order, and adds up those of one venue. */
    method VenueExposure(v: Venue) returns (r: Checked<Fixed>)
      requires Valid()
      ensures CanSumTo(VenueExposures(value, v), r)
    {
      ghost var m := VenueExposures(value, v);
      ghost var order: seq<Key> := [];
      var total: Fixed, rest := 0, positions.Keys;
      while rest != {}
        invariant rest <= positions.Keys && Visited(m, order, rest) && SumInOrder(m, order) == Done(total)
      {
        var k :| k in rest;
        rest := rest - {k};
        if k.0 == v {
          var next := Add(total, Abs(positions[k].qty));
          NextKey(m, order, k);
          order := order + [k];
          if next.Panicked? {
            PanicIsFinal(m, order, Unvisited(m, order));
            return Panicked;
          }
          total := next.value;
        }
      }
      r := Done(total);
    }

    method TotalExposure() returns (r: Checked<Fixed>)
      requires Valid()
      ensures CanSumTo(Exposures(value), r)
    {
      ghost var m := Exposures(value);
      ghost var order: seq<Key> := [];
      var total: Fixed, rest := 0, positions.Keys;
      while rest != {}
        invariant rest <= positions.Keys && Visited(m, order, rest) && SumInOrder(m, order) == Done(total)
      {
        var k :| k in rest;
        rest := rest - {k};
        var next := Add(total, Abs(positions[k].qty));
        NextKey(m, order, k);
        order := order + [k];
        if next.Panicked? {
          PanicIsFinal(m, order, Unvisited(m, order));
          return Panicked;
        }
        total := next.value;
      }
      r := Done(total);
    }
  }

  /** The keys of `m` taken so far are `order`; those still to come are in `rest`. */
  predicate Visited(m: map<Key, Fixed>, order: seq<Key>, rest: set<Key>) {
    Among(order, m) && Once(order) && forall k :: k in m ==> (k in order <==> k !in rest)
  }

  ghost function Unvisited(m: map<Key, Fixed>, order: seq<Key>): set<Key> {
    set k | k in m && k !in order
  }

  // Exposure.

  /** No position is the one quantity whose absolute value does not exist. */
  predicate NoMinPosition(l: LedgerState) {
    forall k :: k in l.positions ==> l.positions[k].qty != MIN_INT64
  }

  function Exposures(l: LedgerState): map<Key, Fixed> {
    map k | k in l.positions :: Abs(l.positions[k].qty)
  }

  function VenueExposures(l: LedgerState, v: Venue): map<Key, Fixed> {
    map k | k in l.positions && k.0 == v :: Abs(l.positions[k].qty)
  }

  /**
    What an exposure can come to: the true sum of the absolute quantities as Go forms them, or a
    panic if that does not fit; and a panic all the same, in some order, exactly where the order
    of the positions matters.
   */
  lemma ExposureOutcomes(l: LedgerState, v: Venue, r: Checked<Fixed>)
    ensures CanSumTo(Exposures(l), r)
            <==> r == Fit(MapSum(Exposures(l))) || (r.Panicked? && OrderMatters(Exposures(l)))
    ensures CanSumTo(VenueExposures(l, v), r)
            <==> r == Fit(MapSum(VenueExposures(l, v))) || (r.Panicked? && OrderMatters(VenueExposures(l, v)))
  {
    hide CanSumTo, OrderMatters, MapSum;
    SumOutcomes(Exposures(l), r);
    SumOutcomes(VenueExposures(l, v), r);
  }

  /** Without MIN_INT64 the order of the positions does not matter. */
  lemma ExposureIsSum(l: LedgerState, v: Venue, r: Checked<Fixed>)
    requires NoMinPosition(l)
    ensures CanSumTo(Exposures(l), r) ==> r == Fit(MapSum(Exposures(l)))
    ensures CanSumTo(VenueExposures(l, v), r) ==> r == Fit(MapSum(VenueExposures(l, v)))
  {
    hide CanSumTo, MapSum;
    ExposureOutcomes(l, v, r);
  }

  /** The order can decide between a sum and a panic: here MIN_INT64, 5 and MAX_INT64 in two orders. */
  lemma OrderDecides()
    ensures exists l: LedgerState :: CanSumTo(Exposures(l), Done(4)) && CanSumTo(Exposures(l), Panicked)
  {
    var a, b, c := (Binance, "a"), (Binance, "b"), (Binance, "c");
    var positions
      := map[a := PositionData(MIN_INT64, 0), b := PositionData(5, 0), c := PositionData(MAX_INT64, 0)];
    var l := LedgerState(map[], positions, 0);
    var m := Exposures(l);
    assert m == map[a := MIN_INT64, b := 5, c := MAX_INT64];
    InThisOrder(m, a, b, c);
    InThisOrder(m, b, c, a);
  }

  lemma InThisOrder(m: map<Key, Fixed>, a: Key, b: Key, c: Key)
    requires a in m && b in m && c in m && m.Keys == {a, b, c} && a != b && a != c && b != c
    ensures CanSumTo(m, match Add(m[a], m[b]) case Panicked => Panicked case Done(x) => Add(x, m[c]))
  {
    var ks := [a, b, c];
    assert SumInOrder(m, [a]) == Done(m[a]) by {
      assert [a][..0] == [];
    }
    NextKey(m, [a], b);
    assert [a] + [b] == [a, b] && ks[..2] == [a, b];
    assert a in ks && b in ks && c in ks;
    assert Lists(ks, m);
  }
}
