/**
  What an order book is: two price-to-quantity maps folded from snapshots and deltas, listed
  best price first (internal/book/book.go).
 */
module BookSpec {
  import opened Outcomes
  import opened Decimal
  import opened Domain

  // Folding levels into a side.

  /** A delta level: zero removes the price, a positive quantity replaces it, a negative one is ignored. */
  function PutDelta(m: Depth, l: Level): Depth {
    if l.qty == 0 then m - {l.price} else if l.qty > 0 then m[l.price := l.qty] else m
  }

  function FoldDelta(m: Depth, levels: seq<Level>): Depth {
    if levels == [] then m else PutDelta(FoldDelta(m, levels[..|levels| - 1]), levels[|levels| - 1])
  }

  /** A snapshot level: only a positive quantity is recorded. */
  function PutSnapshot(m: Depth, l: Level): Depth {
    if l.qty > 0 then m[l.price := l.qty] else m
  }

  function FoldSnapshot(levels: seq<Level>): Depth {
    if levels == [] then map[] else PutSnapshot(FoldSnapshot(levels[..|levels| - 1]), levels[|levels| - 1])
  }

  predicate Positive(m: Depth) {
    forall p :: p in m ==> m[p] > 0
  }

  /** The quantity at a price, 0 where there is no level. */
  function QtyAt(m: Depth, p: Fixed): Fixed {
    if p in m then m[p] else 0
  }

  /** The quantity of the last level a delta gives for `p`, if it gives one. */
  function LastFor(levels: seq<Level>, p: Fixed): Option<Fixed> {
    if levels == [] then None
    else
      var l := levels[|levels| - 1];
      if l.price == p && l.qty >= 0 then Some(l.qty) else LastFor(levels[..|levels| - 1], p)
  }

  lemma {:induction false} FoldDeltaPositive(m: Depth, levels: seq<Level>)
    requires Positive(m)
    ensures Positive(FoldDelta(m, levels))
  {
    if levels != [] {
      FoldDeltaPositive(m, levels[..|levels| - 1]);
    }
  }

  lemma {:induction false} FoldSnapshotPositive(levels: seq<Level>)
    ensures Positive(FoldSnapshot(levels))
  {
    if levels != [] {
      FoldSnapshotPositive(levels[..|levels| - 1]);
    }
  }

  /** A delta sets exactly the prices it mentions, each to its last mention. */
  lemma {:induction false} FoldDeltaAt(m: Depth, levels: seq<Level>, p: Fixed)
    ensures QtyAt(FoldDelta(m, levels), p)
            == match LastFor(levels, p) case None => QtyAt(m, p) case Some(q) => q
  {
    if levels != [] {
      FoldDeltaAt(m, levels[..|levels| - 1], p);
    }
  }

  /** `after` is `before` with each price a delta mentions set to its last mention. */
  predicate Folded(before: Depth, levels: seq<Level>, after: Depth) {
    forall p: Fixed :: QtyAt(after, p) == match LastFor(levels, p) case None => QtyAt(before, p) case Some(q) => q
  }

  lemma FoldedByDelta(before: Depth, levels: seq<Level>)
    ensures Folded(before, levels, FoldDelta(before, levels))
  {
    hide FoldDelta, LastFor, QtyAt;
    forall p: Fixed
      ensures QtyAt(FoldDelta(before, levels), p)
              == match LastFor(levels, p) case None => QtyAt(before, p) case Some(q) => q
    {
      FoldDeltaAt(before, levels, p);
    }
  }

  /** The quantity of the last level a snapshot gives for `p` that has any, or 0. */
  function LastPositive(levels: seq<Level>, p: Fixed): Fixed {
    if levels == [] then 0
    else
      var l := levels[|levels| - 1];
      if l.price == p && l.qty > 0 then l.qty else LastPositive(levels[..|levels| - 1], p)
  }

  /** A snapshot sets each price to the last positive quantity it gives for it, and has no other price. */
  lemma {:induction false} FoldSnapshotAt(levels: seq<Level>, p: Fixed)
    ensures QtyAt(FoldSnapshot(levels), p) == LastPositive(levels, p)
  {
    if levels != [] {
      FoldSnapshotAt(levels[..|levels| - 1], p);
    }
  }

  /** A side is what a snapshot of it says, price by price. */
  predicate Shows(side: Depth, levels: seq<Level>) {
    Positive(side) && forall p: Fixed :: QtyAt(side, p) == LastPositive(levels, p)
  }

  lemma ShownIsFold(side: Depth, levels: seq<Level>)
    ensures Shows(side, levels) <==> side == FoldSnapshot(levels)
  {
    hide FoldSnapshot, LastPositive, QtyAt;
    FoldSnapshotPositive(levels);
    forall p: Fixed
      ensures QtyAt(FoldSnapshot(levels), p) == LastPositive(levels, p)
    {
      FoldSnapshotAt(levels, p);
    }
    if Shows(side, levels) {
      SameQuantities(side, FoldSnapshot(levels));
    }
  }

  lemma SameQuantities(a: Depth, b: Depth)
    requires Positive(a) && Positive(b)
    requires forall p :: QtyAt(a, p) == QtyAt(b, p)
    ensures a == b
  {
    forall p: Fixed
      ensures p in a <==> p in b
      ensures p in a && p in b ==> a[p] == b[p]
    {
      assert QtyAt(a, p) == QtyAt(b, p);
    }
  }

  // Listing a side best price first.

  predicate Sorted(side: Side, s: seq<Level>) {
    forall i, j :: 0 <= i < j < |s| ==> Better(side, s[i].price, s[j].price)
  }

  /** `s` holds exactly the levels of `m`. */
  predicate Holds(s: seq<Level>, m: Depth) {
    && (forall i :: 0 <= i < |s| ==> s[i].price in m && m[s[i].price] == s[i].qty)
    && (forall p :: p in m ==> Level(p, m[p]) in s)
  }

  /** A sorted list of the levels of `m` is determined by `m`, whatever order built it. */
  lemma {:induction false} ListingUnique(side: Side, s: seq<Level>, t: seq<Level>, m: Depth)
    requires Sorted(side, s) && Holds(s, m)
    requires Sorted(side, t) && Holds(t, m)
    ensures s == t
    decreases |s|
  {
    if s == [] || t == [] {
      NothingHeld(s, t, m);
    } else {
      hide Sorted, Holds, Better;
      SameFirst(side, s, t, m);
      TailHolds(side, s, m);
      TailHolds(side, t, m);
      ListingUnique(side, s[1..], t[1..], m - {s[0].price});
      assert s == [s[0]] + s[1..] && t == [t[0]] + t[1..];
    }
  }

  lemma NothingHeld(s: seq<Level>, t: seq<Level>, m: Depth)
    requires Holds(s, m) && Holds(t, m) && (s == [] || t == [])
    ensures s == [] && t == []
  {
    EmptyHolds(s, m);
    EmptyHolds(t, m);
  }

  lemma EmptyHolds(s: seq<Level>, m: Depth)
    requires Holds(s, m)
    ensures s == [] <==> m == map[]
  {
    if s == [] {
      assert m.Keys == {};
    } else {
      assert s[0].price in m;
    }
  }

  /** The best level is the same. */
  lemma SameFirst(side: Side, s: seq<Level>, t: seq<Level>, m: Depth)
    requires Sorted(side, s) && Holds(s, m) && s != []
    requires Sorted(side, t) && Holds(t, m) && t != []
    ensures s[0] == t[0] && s[0].price in m
  {
    hide Sorted;
    assert Level(s[0].price, m[s[0].price]) in t;
    assert Level(t[0].price, m[t[0].price]) in s;
    FirstIsBest(side, s, t[0]);
    FirstIsBest(side, t, s[0]);
  }

  lemma FirstIsBest(side: Side, s: seq<Level>, l: Level)
    requires Sorted(side, s) && l in s
    ensures !Better(side, l.price, s[0].price)
  {
  }

  lemma TailHolds(side: Side, s: seq<Level>, m: Depth)
    requires s != [] && Sorted(side, s) && Holds(s, m)
    ensures Sorted(side, s[1..]) && Holds(s[1..], m - {s[0].price})
  {
    var m' := m - {s[0].price};
    forall p | p in m'
      ensures Level(p, m'[p]) in s[1..]
    {
      var i :| 0 <= i < |s| && s[i] == Level(p, m[p]);
      assert s[1..][i - 1] == s[i];
    }
  }

  /** Inserting a level with a new price into a sorted list. */
  function Insert(side: Side, l: Level, s: seq<Level>): seq<Level> {
    if s == [] || Better(side, l.price, s[0].price) then [l] + s else [s[0]] + Insert(side, l, s[1..])
  }

  predicate Distinct(s: seq<Level>) {
    forall i, j :: 0 <= i < j < |s| ==> s[i].price != s[j].price
  }

  lemma {:induction false} InsertElements(side: Side, l: Level, s: seq<Level>)
    ensures |Insert(side, l, s)| == |s| + 1
    ensures forall x :: x in Insert(side, l, s) <==> x == l || x in s
  {
    if s != [] && !Better(side, l.price, s[0].price) {
      InsertElements(side, l, s[1..]);
      assert s == [s[0]] + s[1..];
    }
  }

  lemma {:induction false} InsertSorted(side: Side, l: Level, s: seq<Level>)
    requires Sorted(side, s) && forall i :: 0 <= i < |s| ==> s[i].price != l.price
    ensures Sorted(side, Insert(side, l, s))
  {
    if s != [] && !Better(side, l.price, s[0].price) {
      InsertSorted(side, l, s[1..]);
      InsertElements(side, l, s[1..]);
      var r := Insert(side, l, s[1..]);
      forall j | 0 <= j < |r|
        ensures Better(side, s[0].price, r[j].price)
      {
        assert r[j] in r;
      }
    }
  }

  /** The library sort, by its effect. */
  function Sort(side: Side, s: seq<Level>): seq<Level> {
    if s == [] then [] else Insert(side, s[|s| - 1], Sort(side, s[..|s| - 1]))
  }

  lemma {:induction false} SortIsListing(side: Side, s: seq<Level>)
    requires Distinct(s)
    ensures |Sort(side, s)| == |s|
    ensures forall x :: x in Sort(side, s) <==> x in s
    ensures Sorted(side, Sort(side, s))
  {
    if s != [] {
      var init, last := s[..|s| - 1], s[|s| - 1];
      SortIsListing(side, init);
      InsertElements(side, last, Sort(side, init));
      assert s == init + [last];
      var t := Sort(side, init);
      forall i | 0 <= i < |t|
        ensures t[i].price != last.price
      {
        assert t[i] in init;
      }
      InsertSorted(side, last, t);
    }
  }

  /** Every map has a listing: its keys in any order, sorted. */
  lemma ListingExists(side: Side, m: Depth)
    ensures exists s :: Sorted(side, s) && Holds(s, m)
  {
    var s := SomeOrder(m);
    SortIsListing(side, s);
    HoldsSorted(side, s, m);
  }

  lemma HoldsSorted(side: Side, s: seq<Level>, m: Depth)
    requires Distinct(s) && Holds(s, m)
    ensures Sorted(side, Sort(side, s)) && Holds(Sort(side, s), m)
  {
    SortIsListing(side, s);
    var t := Sort(side, s);
    forall i | 0 <= i < |t|
      ensures t[i].price in m && m[t[i].price] == t[i].qty
    {
      assert t[i] in s;
    }
  }

  /** The levels of a map in some unspecified order, as ranging over it gives them. */
  ghost function SomeOrder(m: Depth): (s: seq<Level>)
    ensures Distinct(s) && Holds(s, m)
  {
    if m == map[] then []
    else
      var p :| p in m;
      var rest := SomeOrder(m - {p});
      assert forall x: Fixed :: x in m && x != p ==> x in m - {p};
      rest + [Level(p, m[p])]
  }

  /** The one listing of `m`, best price first. */
  ghost function Listing(side: Side, m: Depth): (s: seq<Level>)
    ensures Sorted(side, s) && Holds(s, m)
  {
    ListingExists(side, m);
    var s :| Sorted(side, s) && Holds(s, m);
    s
  }

  lemma ListingOf(side: Side, s: seq<Level>, m: Depth)
    requires Sorted(side, s) && Holds(s, m)
    ensures s == Listing(side, m)
  {
    ListingUnique(side, s, Listing(side, m), m);
  }

  // The book as a value.

  datatype State = State(ready: bool, stale: bool, sequence: int, lastUpdatedAt: int, version: nat)

  datatype BookValue = BookValue(bids: Depth, asks: Depth, state: State)

  const PUBLISH_DEPTH := 512

  /** What readers receive: copies of the best levels and the state. */
  datatype View = View(bids: seq<Level>, asks: seq<Level>, state: State)

  const EmptyBook := BookValue(map[], map[], State(false, false, 0, 0, 0))

  predicate WellFormed(b: BookValue) {
    Positive(b.bids) && Positive(b.asks)
  }

  function LoadSnapshot(b: BookValue, s: BookSnapshot): BookValue {
    BookValue(FoldSnapshot(s.bids), FoldSnapshot(s.asks),
         State(true, false, s.sequence, s.receiveTime, b.state.version + 1))
  }

  function ApplyDelta(b: BookValue, d: BookDelta): BookValue {
    BookValue(FoldDelta(b.bids, d.bids), FoldDelta(b.asks, d.asks),
         b.state.(sequence := d.sequence, lastUpdatedAt := d.receiveTime, version := b.state.version + 1))
  }

  function Invalidate(b: BookValue): BookValue {
    b.(state := b.state.(ready := false, version := b.state.version + 1))
  }

  function MarkStale(b: BookValue, stale: bool): BookValue {
    if b.state.stale != stale then b.(state := b.state.(stale := stale, version := b.state.version + 1)) else b
  }

  /** The best levels, up to `limit` of them. */
  function Top(s: seq<Level>, limit: nat): (top: seq<Level>)
    ensures top <= s && |top| == if |s| < limit then |s| else limit
  {
    if limit > |s| then s else s[..limit]
  }

  ghost function ViewOf(b: BookValue, depth: nat): View {
    View(Top(Listing(Buy, b.bids), depth), Top(Listing(Sell, b.asks), depth), b.state)
  }

  // What the consumers of views rely on.

  predicate PositiveLevels(s: seq<Level>) {
    forall i :: 0 <= i < |s| ==> s[i].qty > 0
  }

  predicate GoodView(v: View) {
    Sorted(Buy, v.bids) && Sorted(Sell, v.asks) && PositiveLevels(v.bids) && PositiveLevels(v.asks)
  }

  lemma ViewOfIsGood(b: BookValue, depth: nat)
    requires WellFormed(b)
    ensures GoodView(ViewOf(b, depth))
  {
    var bids, asks := Listing(Buy, b.bids), Listing(Sell, b.asks);
    assert PositiveLevels(bids) && PositiveLevels(asks);
  }

  /** Every mutation keeps all quantities positive. */
  lemma MutationsKeepWellFormed(b: BookValue, s: BookSnapshot, d: BookDelta, stale: bool)
    requires WellFormed(b)
    ensures WellFormed(LoadSnapshot(b, s)) && WellFormed(ApplyDelta(b, d))
    ensures WellFormed(Invalidate(b)) && WellFormed(MarkStale(b, stale))
  {
    FoldSnapshotPositive(s.bids);
    FoldSnapshotPositive(s.asks);
    FoldDeltaPositive(b.bids, d.bids);
    FoldDeltaPositive(b.asks, d.asks);
  }
}
