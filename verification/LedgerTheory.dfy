/** Conservation laws of the ledger, per settlement and over whole runs. */
module LedgerTheory {
  import opened Outcomes
  import opened Decimal
  import opened Domain
  import opened Walk
  import opened Averages
  import opened Sums
  import opened Portfolio

  /** What is held of some assets, over all venues. */
  ghost function TotalIn(l: LedgerState, assets: set<string>): int {
    MapSum(HoldingsIn(l, assets))
  }

  function HoldingsIn(l: LedgerState, assets: set<string>): map<Key, int> {
    map k | k in l.balances && k.1 in assets :: l.balances[k]
  }

  lemma TotalAfterUpdate(l: LedgerState, k: Key, x: Fixed, assets: set<string>)
    ensures TotalIn(WithBalance(l, k, x), assets)
            == TotalIn(l, assets) + (if k.1 in assets then x - Available(l, k) else 0)
  {
    var m, n := HoldingsIn(l, assets), HoldingsIn(WithBalance(l, k, x), assets);
    if k.1 in assets {
      assert n == m[k := x];
      SumUpdate(m, k, x);
    } else {
      assert n == m;
    }
  }

  lemma TotalIgnoresPositions(l: LedgerState, l': LedgerState, assets: set<string>)
    requires l'.balances == l.balances
    ensures TotalIn(l', assets) == TotalIn(l, assets)
  {
    assert HoldingsIn(l', assets) == HoldingsIn(l, assets);
  }

  // Each settlement.

  /** Every branch of addBuy moves the quantity by exactly what was settled. */
  lemma PositionMoves(p: PositionData, px: Fixed, qty: Fixed)
    ensures Bought(p, px, qty).Done? ==> Bought(p, px, qty).value.qty == p.qty + qty
    ensures Sold(p, px, qty).Done? ==> Sold(p, px, qty).value.qty == p.qty + Negate(qty)
  {
  }

  /** One buy of a long position, or of none, averages it with what was held. */
  lemma BuyBuiltAverage(p: PositionData, px: Fixed, qty: Fixed)
    requires p.qty >= 0 && p.avgCost >= 0 && px >= 0 && qty > 0 && Bought(p, px, qty).Done?
    ensures Bought(p, px, qty).value == PositionData(p.qty + qty, NextAverage(p.avgCost, p.qty, px, qty))
  {
    MulNonneg(p.avgCost, p.qty);
    MulNonneg(px, qty);
    DivNonneg(p.avgCost * p.qty / SCALE + px * qty / SCALE, p.qty + qty);
  }

  /**
    When the stored average is the truncated average of what was held and what came in: exactly
    when the new quantity is positive, or that average is 0. A trade that takes a position short
    stores its average with the sign turned.
   */
  lemma StoredAverageIff(p: PositionData, px: Fixed, qty: Fixed)
    requires p.qty >= 0 && p.qty + qty != 0 && Bought(p, px, qty).Done?
    ensures var total := Quotient(p.avgCost * p.qty, SCALE) + Quotient(px * qty, SCALE);
            var average := Quotient(total * SCALE, p.qty + qty);
            Bought(p, px, qty).value.avgCost == average <==> p.qty + qty > 0 || average == 0
  {
    hide Div, Mul, Quotient;
    MulIsQuotient(p.avgCost, p.qty);
    MulIsQuotient(px, qty);
    var total: Fixed := Quotient(p.avgCost * p.qty, SCALE) + Quotient(px * qty, SCALE);
    DivExactIff(total, p.qty + qty);
    DivMagnitude(total, p.qty + qty);
  }

  lemma DivMagnitude(f: Fixed, o: Fixed)
    requires o != 0
    ensures Div(f, o).Done? ==> Magnitude(Quotient(f * SCALE, o)) <= MAX_INT64 && Fit(Quotient(f * SCALE, o)).Done?
  {
    MagnitudeScaled(f);
    FloorAtLeast(Magnitude(f) * SCALE, Magnitude(o), 0);
  }

  /**
    A short opened from nothing stores minus the average price, because mulDiv ignores the sign
    of the negative quantity it divides by.
   */
  lemma ShortStoresNegativeAverage(p: PositionData, px: Fixed, qty: Fixed)
    requires p.qty == 0 && px >= 0 && qty > 0 && Sold(p, px, qty).Done?
    ensures Sold(p, px, qty).value == PositionData(0 - qty, 0 - px * qty / SCALE * SCALE / qty)
  {
    hide MulInt, Mul, Div;
    NegatedOperands(px, qty, p.avgCost);
    var notional := px * qty / SCALE;
    MulNonneg(px, qty);
    if notional <= MAX_INT64 {
      NegatedQuotient(notional, qty);
    }
  }

  lemma NegatedOperands(px: Fixed, qty: Fixed, avg: Fixed)
    requires px >= 0 && qty > 0
    ensures MulInt(qty, -1) == Done(0 - qty) && Mul(avg, 0) == Done(0)
    ensures Mul(px, 0 - qty) == if px * qty / SCALE > MAX_INT64 then Panicked else Done(0 - px * qty / SCALE)
  {
    assert Magnitude(px) == px && Magnitude(0 - qty) == qty;
    MulNonneg(px, qty);
  }

  lemma NegatedQuotient(x: Fixed, qty: Fixed)
    requires x >= 0 && qty > 0
    ensures Div(0 - x, 0 - qty).Done? ==> Div(0 - x, 0 - qty).value == 0 - x * SCALE / qty
  {
    assert Magnitude(0 - x) == x && Magnitude(SCALE) == SCALE && Magnitude(0 - qty) == qty;
    FloorAtLeast(x * SCALE, qty, 0);
  }

  /** Go's minus on an amount: MIN_INT64 is its own. */
  function Minus(x: int): int {
    if x == MIN_INT64 then x else -x
  }

  lemma PaidEffect(l: LedgerState, from: Key, amount: Fixed)
    requires Paid(l, from, amount).Done?
    ensures var (l', ok) := Paid(l, from, amount).value;
            && (ok <==> Available(l, from) >= amount)
            && l'.positions == l.positions && l'.realized == l.realized
            && (forall k :: Available(l', k) == Available(l, k) + (if ok && k == from then Minus(amount) else 0))
  {
  }

  lemma PaidTotal(l: LedgerState, from: Key, amount: Fixed, assets: set<string>)
    requires Paid(l, from, amount).Done?
    ensures var (l', ok) := Paid(l, from, amount).value;
            TotalIn(l', assets) == TotalIn(l, assets) + (if ok && from.1 in assets then Minus(amount) else 0)
  {
    var have := Available(l, from);
    TotalAfterUpdate(l, from, if have < amount then have else have + Minus(amount), assets);
  }

  lemma ReceivedEffect(l: LedgerState, into: Key, amount: Fixed, position: Key, px: Fixed, qty: Fixed, sale: bool)
    requires Received(l, into, amount, position, px, qty, sale).Done?
    ensures var l' := Received(l, into, amount, position, px, qty, sale).value;
            && l'.realized == l.realized
            && (forall k :: Available(l', k) == Available(l, k) + (if k == into then amount else 0))
            && position in l'.positions && l'.positions == l.positions[position := l'.positions[position]]
            && l'.positions[position].qty == PositionAt(l, position).qty + (if sale then Minus(qty) else qty)
  {
    PositionMoves(PositionAt(l, position), px, qty);
  }

  lemma ReceivedTotal(l: LedgerState, into: Key, amount: Fixed, position: Key, px: Fixed, qty: Fixed, sale: bool,
                      assets: set<string>)
    requires Received(l, into, amount, position, px, qty, sale).Done?
    ensures TotalIn(Received(l, into, amount, position, px, qty, sale).value, assets)
            == TotalIn(l, assets) + (if into.1 in assets then amount else 0)
  {
    var more: Fixed := Available(l, into) + amount;
    TotalAfterUpdate(l, into, more, assets);
    TotalIgnoresPositions(WithBalance(l, into, more), Received(l, into, amount, position, px, qty, sale).value, assets);
  }

  /** What a buy costs. */
  function BuyCost(px: Fixed, qty: Fixed, fee: Fixed): int {
    Notional(px, qty) + fee
  }

  /** What a sale brings. */
  function Proceeds(px: Fixed, qty: Fixed, fee: Fixed): int {
    Notional(px, qty) + Minus(fee)
  }

  /** `l'` is `l` with `a` added to one balance, `b` added to another, and a position moved. */
  ghost predicate Exchanged(l: LedgerState, l': LedgerState, one: Key, a: int, other: Key, b: int,
                            position: Key, moved: int) {
    && l'.realized == l.realized
    && (forall k :: Available(l', k) == Available(l, k) + (if k == one then a else 0) + (if k == other then b else 0))
    && position in l'.positions && l'.positions == l.positions[position := l'.positions[position]]
    && l'.positions[position].qty == PositionAt(l, position).qty + moved
  }

  /** A refusal changes no amount. */
  ghost predicate Untouched(l: LedgerState, l': LedgerState) {
    && l'.realized == l.realized && l'.positions == l.positions
    && (forall k :: Available(l', k) == Available(l, k))
  }

  /**
    Whatever the amounts, a buy settles exactly when the quote balance covers price*qty + fee, and
    then moves just that: out of the quote, `qty` into the base and into the position.
   */
  lemma BuyEffect(l: LedgerState, v: Venue, symbol: string, base: string, quote: string,
                  px: Fixed, qty: Fixed, fee: Fixed)
    requires BuyApplied(l, v, symbol, base, quote, px, qty, fee).Done?
    ensures var (l', ok) := BuyApplied(l, v, symbol, base, quote, px, qty, fee).value;
            var cost := BuyCost(px, qty, fee);
            && (ok <==> Available(l, (v, quote)) >= cost)
            && (if ok then Exchanged(l, l', (v, quote), Minus(cost), (v, base), qty, (v, symbol), qty)
                else Untouched(l, l'))
  {
    hide Paid, Received, Mul, Available, Notional;
    MulIsQuotient(px, qty);
    var cost: Fixed := BuyCost(px, qty, fee);
    PaidEffect(l, (v, quote), cost);
    var (paid, ok) := Paid(l, (v, quote), cost).value;
    if ok {
      ReceivedEffect(paid, (v, base), qty, (v, symbol), px, qty, false);
    }
  }

  lemma BuyTotal(l: LedgerState, v: Venue, symbol: string, base: string, quote: string,
                 px: Fixed, qty: Fixed, fee: Fixed, assets: set<string>)
    requires BuyApplied(l, v, symbol, base, quote, px, qty, fee).Done?
    ensures var (l', ok) := BuyApplied(l, v, symbol, base, quote, px, qty, fee).value;
            TotalIn(l', assets) == TotalIn(l, assets)
            + (if !ok then 0
               else (if base in assets then qty else 0) + (if quote in assets then Minus(BuyCost(px, qty, fee)) else 0))
  {
    hide TotalIn, Paid, Received, Mul, Notional;
    MulIsQuotient(px, qty);
    var cost: Fixed := BuyCost(px, qty, fee);
    PaidTotal(l, (v, quote), cost, assets);
    var (paid, ok) := Paid(l, (v, quote), cost).value;
    if ok {
      ReceivedTotal(paid, (v, base), qty, (v, symbol), px, qty, false, assets);
    }
  }

  /** A sale settles exactly when the base balance covers the quantity. */
  lemma SellEffect(l: LedgerState, v: Venue, symbol: string, base: string, quote: string,
                   px: Fixed, qty: Fixed, fee: Fixed)
    requires SellApplied(l, v, symbol, base, quote, px, qty, fee).Done?
    ensures var (l', ok) := SellApplied(l, v, symbol, base, quote, px, qty, fee).value;
            var got := Proceeds(px, qty, fee);
            && (ok <==> Available(l, (v, base)) >= qty)
            && (if ok then Exchanged(l, l', (v, base), Minus(qty), (v, quote), got, (v, symbol), Minus(qty))
                else Untouched(l, l'))
  {
    hide Paid, Received, Mul, Available, Notional;
    PaidEffect(l, (v, base), qty);
    MulIsQuotient(px, qty);
    var (paid, ok) := Paid(l, (v, base), qty).value;
    if ok {
      var proceeds: Fixed := Proceeds(px, qty, fee);
      ReceivedEffect(paid, (v, quote), proceeds, (v, symbol), px, qty, true);
    }
  }

  lemma SellTotal(l: LedgerState, v: Venue, symbol: string, base: string, quote: string,
                  px: Fixed, qty: Fixed, fee: Fixed, assets: set<string>)
    requires SellApplied(l, v, symbol, base, quote, px, qty, fee).Done?
    ensures var (l', ok) := SellApplied(l, v, symbol, base, quote, px, qty, fee).value;
            TotalIn(l', assets) == TotalIn(l, assets)
            + (if !ok then 0
               else (if quote in assets then Proceeds(px, qty, fee) else 0)
                    + (if base in assets then Minus(qty) else 0))
  {
    hide TotalIn, Paid, Received, Mul, Notional;
    PaidTotal(l, (v, base), qty, assets);
    MulIsQuotient(px, qty);
    var (paid, ok) := Paid(l, (v, base), qty).value;
    if ok {
      var proceeds: Fixed := Proceeds(px, qty, fee);
      ReceivedTotal(paid, (v, quote), proceeds, (v, symbol), px, qty, true, assets);
    }
  }

  // Runs of settlements.

  /** A settlement of a symbol, whose base and quote are those of its name. */
  datatype Settlement = Settlement(sale: bool, venue: Venue, symbol: string, px: Fixed, qty: Fixed, fee: Fixed)

  function Settled(l: LedgerState, s: Settlement): Checked<(LedgerState, bool)> {
    if s.sale then SellApplied(l, s.venue, s.symbol, BaseOf(s.symbol), QuoteOf(s.symbol), s.px, s.qty, s.fee)
    else BuyApplied(l, s.venue, s.symbol, BaseOf(s.symbol), QuoteOf(s.symbol), s.px, s.qty, s.fee)
  }

  function SettleAll(l: LedgerState, ss: seq<Settlement>): Checked<LedgerState> {
    if ss == [] then Done(l)
    else
      var m :- SettleAll(l, ss[..|ss| - 1]);
      var r :- Settled(m, ss[|ss| - 1]);
      Done(r.0)
  }

  /** The signed sum of what was settled for one position, refusals counting nothing. */
  function NetSettled(l: LedgerState, ss: seq<Settlement>, k: Key): int {
    if ss == [] then 0
    else
      var init, s := ss[..|ss| - 1], ss[|ss| - 1];
      NetSettled(l, init, k)
      + (if WasSettled(SettleAll(l, init), s) && k == (s.venue, s.symbol) then SignedQty(s) else 0)
  }

  /** What went into a balance as the quote of what was settled. */
  function NetQuoted(l: LedgerState, ss: seq<Settlement>, k: Key): int {
    if ss == [] then 0
    else
      var init, s := ss[..|ss| - 1], ss[|ss| - 1];
      NetQuoted(l, init, k)
      + (if WasSettled(SettleAll(l, init), s) && k == (s.venue, QuoteOf(s.symbol)) then QuoteFlow(s) else 0)
  }

  predicate WasSettled(before: Checked<LedgerState>, s: Settlement) {
    before.Done? && Settled(before.value, s).Done? && Settled(before.value, s).value.1
  }

  /** A sale counts as -qty, with Go's minus: a sale of MIN_INT64 adds MIN_INT64 to balance and position alike. */
  function SignedQty(s: Settlement): int {
    if s.sale then Minus(s.qty) else s.qty
  }

  function QuoteFlow(s: Settlement): int {
    if s.sale then Proceeds(s.px, s.qty, s.fee) else Minus(BuyCost(s.px, s.qty, s.fee))
  }

  /** The balance `k` is never the quote of a settlement. */
  predicate NeverQuote(ss: seq<Settlement>, k: Key) {
    forall i :: 0 <= i < |ss| ==> k != (ss[i].venue, QuoteOf(ss[i].symbol))
  }

  lemma {:induction false} NothingQuoted(l: LedgerState, ss: seq<Settlement>, k: Key)
    requires NeverQuote(ss, k)
    ensures NetQuoted(l, ss, k) == 0
  {
    if ss != [] {
      NothingQuoted(l, ss[..|ss| - 1], k);
    }
  }

  function PositionsWhere(l: LedgerState, f: Key -> bool): map<Key, int> {
    map k | k in l.positions && f(k) :: l.positions[k].qty
  }

  lemma PositionsWhereMoves(l: LedgerState, k: Key, p: PositionData, f: Key -> bool)
    ensures MapSum(PositionsWhere(l.(positions := l.positions[k := p]), f))
            == MapSum(PositionsWhere(l, f)) + (if f(k) then p.qty - PositionAt(l, k).qty else 0)
  {
    var m, n := PositionsWhere(l, f), PositionsWhere(l.(positions := l.positions[k := p]), f);
    if f(k) {
      assert n == m[k := p.qty];
      SumUpdate(m, k, p.qty);
    } else {
      assert n == m;
    }
  }

  /** The positions of a venue in symbols with one base. */
  function OfBase(v: Venue, base: string): Key -> bool {
    (k: Key) => k.0 == v && BaseOf(k.1) == base
  }

  ghost function NetPosition(l: LedgerState, v: Venue, base: string): int {
    MapSum(PositionsWhere(l, OfBase(v, base)))
  }

  lemma SamePositions(l: LedgerState, l': LedgerState, f: Key -> bool)
    requires l.positions == l'.positions
    ensures PositionsWhere(l, f) == PositionsWhere(l', f)
  {
  }

  lemma SettledEffect(l: LedgerState, s: Settlement)
    requires Settled(l, s).Done?
    ensures var (l', ok) := Settled(l, s).value;
            var base, quote, at := (s.venue, BaseOf(s.symbol)), (s.venue, QuoteOf(s.symbol)), (s.venue, s.symbol);
            if ok then Exchanged(l, l', quote, QuoteFlow(s), base, SignedQty(s), at, SignedQty(s)) else Untouched(l, l')
  {
    hide BuyApplied, SellApplied, Notional, BaseOf, QuoteOf;
    if s.sale {
      SellEffect(l, s.venue, s.symbol, BaseOf(s.symbol), QuoteOf(s.symbol), s.px, s.qty, s.fee);
    } else {
      BuyEffect(l, s.venue, s.symbol, BaseOf(s.symbol), QuoteOf(s.symbol), s.px, s.qty, s.fee);
    }
  }

  /** What a settlement does to the positions. */
  lemma SettledPosition(l: LedgerState, s: Settlement)
    requires Settled(l, s).Done?
    ensures var (l', ok) := Settled(l, s).value; var at := (s.venue, s.symbol);
            var p := PositionAt(l, at);
            var moved := if s.sale then Sold(p, s.px, s.qty) else Bought(p, s.px, s.qty);
            if ok then moved.Done? && l'.positions == l.positions[at := moved.value] else l'.positions == l.positions
  {
  }

  /** A settlement moves a balance by what it does to the positions in that base, and by its quote flow. */
  lemma SettlementMoves(l: LedgerState, s: Settlement, v: Venue, asset: string)
    requires Settled(l, s).Done?
    ensures var (l', ok) := Settled(l, s).value;
            Available(l', (v, asset)) - Available(l, (v, asset))
            == NetPosition(l', v, asset) - NetPosition(l, v, asset)
               + (if ok && (v, asset) == (s.venue, QuoteOf(s.symbol)) then QuoteFlow(s) else 0)
  {
    hide Settled, Bought, Sold, PositionsWhere, QuoteFlow, SignedQty, BaseOf, QuoteOf;
    var (l', ok) := Settled(l, s).value;
    var k := (s.venue, s.symbol);
    SettledEffect(l, s);
    if ok {
      PositionsWhereMoves(l, k, l'.positions[k], OfBase(v, asset));
      SamePositions(l', l.(positions := l.positions[k := l'.positions[k]]), OfBase(v, asset));
    } else {
      SamePositions(l', l, OfBase(v, asset));
    }
  }

  lemma NextNetSettled(l: LedgerState, s: Settlement, k: Key)
    requires Settled(l, s).Done?
    ensures var (l', ok) := Settled(l, s).value;
            PositionAt(l', k).qty
            == PositionAt(l, k).qty + (if ok && k == (s.venue, s.symbol) then SignedQty(s) else 0)
  {
    hide Settled, QuoteFlow, SignedQty;
    SettledEffect(l, s);
  }

  /** A ledger with seeded balances and no position yet. */
  predicate Seeded(l: LedgerState) {
    l.positions == map[]
  }

  /**
    From seeding on, over any settlements of any symbols at any amounts, refused ones included:
    each position is the signed sum of what was settled, and each balance has moved by the
    positions that have its asset as their base and by what it paid and received as a quote.
   */
  lemma {:induction false} LedgerInvariant(l0: LedgerState, ss: seq<Settlement>)
    requires Seeded(l0) && SettleAll(l0, ss).Done?
    ensures forall k :: PositionAt(SettleAll(l0, ss).value, k).qty == NetSettled(l0, ss, k)
    ensures forall v: Venue, asset: string ::
              Available(SettleAll(l0, ss).value, (v, asset)) - Available(l0, (v, asset))
              == NetPosition(SettleAll(l0, ss).value, v, asset) + NetQuoted(l0, ss, (v, asset))
  {
    if ss == [] {
      assert forall v: Venue, asset: string :: PositionsWhere(l0, OfBase(v, asset)) == map[];
    } else {
      hide Settled, PositionAt, NetPosition, QuoteFlow, SignedQty, QuoteOf, Available;
      var init, s := ss[..|ss| - 1], ss[|ss| - 1];
      LedgerInvariant(l0, init);
      var l := SettleAll(l0, init).value;
      forall k
        ensures PositionAt(SettleAll(l0, ss).value, k).qty == NetSettled(l0, ss, k)
      {
        NextNetSettled(l, s, k);
      }
      forall v: Venue, asset: string
        ensures Available(SettleAll(l0, ss).value, (v, asset)) - Available(l0, (v, asset))
                == NetPosition(SettleAll(l0, ss).value, v, asset) + NetQuoted(l0, ss, (v, asset))
      {
        SettlementMoves(l, s, v, asset);
      }
    }
  }

  /** So a balance that is no quote, whatever else is one, has moved by the positions in its asset alone. */
  lemma BaseBalances(l0: LedgerState, ss: seq<Settlement>, v: Venue, asset: string)
    requires Seeded(l0) && SettleAll(l0, ss).Done? && NeverQuote(ss, (v, asset))
    ensures Available(SettleAll(l0, ss).value, (v, asset)) - Available(l0, (v, asset))
            == NetPosition(SettleAll(l0, ss).value, v, asset)
  {
    hide SettleAll, NetPosition, Available, NeverQuote;
    LedgerInvariant(l0, ss);
    NothingQuoted(l0, ss, (v, asset));
  }

  // The average cost of positions built by buys.

  /** What was bought for one position: the settled buys of it, in order. */
  function BoughtLots(l: LedgerState, ss: seq<Settlement>, k: Key): seq<Level> {
    if ss == [] then []
    else
      var init := ss[..|ss| - 1];
      BoughtLots(l, init, k) + LotOf(SettleAll(l, init), ss[|ss| - 1], k)
  }

  /** Position `k` is only ever bought, positive quantities at nonnegative prices. */
  predicate OnlyBought(ss: seq<Settlement>, k: Key) {
    forall i :: 0 <= i < |ss| && k == (ss[i].venue, ss[i].symbol) ==> !ss[i].sale && ss[i].px >= 0 && ss[i].qty > 0
  }

  /** The position holds the lots, at their running average. */
  predicate BuiltBy(p: PositionData, lots: seq<Level>) {
    Priced(lots) && p.qty == QtyOf(lots) && (lots != [] ==> p.avgCost == AverageOf(lots))
  }

  lemma OneMoreBuy(p: PositionData, lots: seq<Level>, px: Fixed, qty: Fixed)
    requires BuiltBy(p, lots) && px >= 0 && qty > 0 && Bought(p, px, qty).Done?
    ensures BuiltBy(Bought(p, px, qty).value, lots + [Level(px, qty)])
  {
    OneMoreLot(lots, Level(px, qty));
    if lots == [] {
      FirstBuy(p, px, qty);
    } else {
      BuyBuiltAverage(p, px, qty);
    }
  }

  /** Whatever average an empty position was left with plays no part. */
  lemma FirstBuy(p: PositionData, px: Fixed, qty: Fixed)
    requires p.qty == 0 && px >= 0 && qty > 0 && Bought(p, px, qty).Done?
    ensures Bought(p, px, qty).value == PositionData(qty, NextAverage(0, 0, px, qty))
  {
    assert Mul(p.avgCost, 0) == Done(0) == Mul(0, 0);
    BuyBuiltAverage(PositionData(0, 0), px, qty);
  }

  /** The lot a settlement adds to position `k`, if it adds one. */
  function LotOf(before: Checked<LedgerState>, s: Settlement, k: Key): seq<Level> {
    var settled := before.Done? && Settled(before.value, s).Done? && Settled(before.value, s).value.1;
    if settled && !s.sale && k == (s.venue, s.symbol) then [Level(s.px, s.qty)] else []
  }

  lemma SettlementKeepsAverage(l: LedgerState, s: Settlement, lots: seq<Level>, k: Key)
    requires BuiltBy(PositionAt(l, k), lots) && Settled(l, s).Done?
    requires k == (s.venue, s.symbol) ==> !s.sale && s.px >= 0 && s.qty > 0
    ensures BuiltBy(PositionAt(Settled(l, s).value.0, k), lots + LotOf(Done(l), s, k))
  {
    hide Settled, BuiltBy, Sold, Bought;
    SettledPosition(l, s);
    if k == (s.venue, s.symbol) && Settled(l, s).value.1 {
      OneMoreBuy(PositionAt(l, k), lots, s.px, s.qty);
    } else {
      assert lots + [] == lots;
    }
  }

  /**
    A position that was empty and is never sold: over any settlements its quantity is the sum of
    its settled buys and its average cost is their running average. So the average is at most the
    highest price paid, and avgCost*qty falls short of what was paid by a bounded amount.
   */
  lemma {:induction false} BuysAreAveraged(l: LedgerState, ss: seq<Settlement>, k: Key)
    requires PositionAt(l, k).qty == 0 && OnlyBought(ss, k) && SettleAll(l, ss).Done?
    ensures var p, lots := PositionAt(SettleAll(l, ss).value, k), BoughtLots(l, ss, k);
            BuiltBy(p, lots) && (lots != [] ==> AverageWithin(p.avgCost, lots))
  {
    if ss == [] {
      assert BoughtLots(l, ss, k) == [];
    } else {
      hide Settled, LotOf, PositionAt;
      var init, s := ss[..|ss| - 1], ss[|ss| - 1];
      BuysAreAveraged(l, init, k);
      SettlementKeepsAverage(SettleAll(l, init).value, s, BoughtLots(l, init, k), k);
    }
    AverageBounds(BoughtLots(l, ss, k));
  }

  // Exposure.

  function WithoutVenue(l: LedgerState, v: Venue): LedgerState {
    l.(positions := map k | k in l.positions && k.0 != v :: l.positions[k])
  }

  lemma SplitOffVenue(l: LedgerState, v: Venue)
    ensures MapSum(Exposures(l)) == MapSum(VenueExposures(l, v)) + MapSum(Exposures(WithoutVenue(l, v)))
  {
    var m: map<Key, int>, part := Exposures(l), VenueExposures(l, v).Keys;
    var at: map<Key, int>, others: map<Key, int> := VenueExposures(l, v), Exposures(WithoutVenue(l, v));
    SumSplit(m, part);
    hide MapSum;
    assert (map k | k in m && k in part :: m[k]) == at;
    assert (map k | k in m && k !in part :: m[k]) == others;
  }

  lemma SplitOffByVenue(l: LedgerState, v: Venue, venues: set<Venue>)
    requires v in venues
    ensures MapSum(ByVenue(l, venues))
            == MapSum(VenueExposures(l, v)) + MapSum(ByVenue(WithoutVenue(l, v), venues - {v}))
  {
    SumTake(ByVenue(l, venues), v);
    forall w | w in venues - {v}
      ensures VenueExposures(WithoutVenue(l, v), w) == VenueExposures(l, w)
    {
    }
    assert ByVenue(l, venues) - {v} == ByVenue(WithoutVenue(l, v), venues - {v});
  }

  /** The sum over all positions is the sum, over the venues that have any, of each venue's. */
  lemma {:induction false} TotalIsSumOfVenues(l: LedgerState, venues: set<Venue>)
    requires forall k :: k in l.positions ==> k.0 in venues
    ensures MapSum(Exposures(l)) == MapSum(ByVenue(l, venues))
    decreases venues
  {
    if venues == {} {
      assert Exposures(l) == map[] && ByVenue(l, venues) == map[];
    } else {
      var v :| v in venues;
      TotalIsSumOfVenues(WithoutVenue(l, v), venues - {v});
      SplitOffVenue(l, v);
      SplitOffByVenue(l, v, venues);
    }
  }

  ghost function ByVenue(l: LedgerState, venues: set<Venue>): map<Venue, int> {
    map v | v in venues :: MapSum(VenueExposures(l, v))
  }
}
