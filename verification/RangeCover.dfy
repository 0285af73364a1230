/** When Binance's ranges determine the book: the exact condition over a whole run. */
module RangeCover {
  import opened Outcomes
  import opened Decimal
  import opened Domain
  import opened BookSpec
  import opened Sequence
  import opened Reconstruction

  /** The last snapshot, and the ranges applied since. */
  datatype Since = Since(snapshot: BookSnapshot, ranges: seq<BookDelta>) {
    function Init(): Since
      requires ranges != []
    {
      Since(snapshot, ranges[..|ranges| - 1])
    }

    function Last(): BookDelta
      requires ranges != []
    {
      ranges[|ranges| - 1]
    }

    /** The sequence number of the local book. */
    function End(): int {
      if ranges == [] then snapshot.sequence else Last().sequence
    }

    /** The local book. */
    function Rebuilt(): Sides
      decreases |ranges|
    {
      if ranges == [] then Sides(FoldSnapshot(snapshot.bids), FoldSnapshot(snapshot.asks))
      else Patch(Init().Rebuilt(), Last())
    }

    predicate Advances()
      decreases |ranges|
    {
      ranges != [] ==> Init().End() < Last().sequence && Init().Advances()
    }

    /** Where the local quantity at a price was last set. */
    function LastSet(side: Side, p: Fixed): int
      decreases |ranges|
    {
      if ranges == [] then snapshot.sequence
      else if LastFor(LevelsOf(Last(), side), p).Some? then Last().sequence
      else Init().LastSet(side, p)
    }

    /** Some range covers the change that led to `x`. */
    predicate Reaches(x: int) {
      exists i :: 0 <= i < |ranges| && ranges[i].prevSequence <= x <= ranges[i].sequence
    }

    predicate NeverSets(side: Side, p: Fixed) {
      forall i :: 0 <= i < |ranges| ==> LastFor(LevelsOf(ranges[i], side), p).None?
    }
  }

  function LevelsOf(d: BookDelta, side: Side): seq<Level> {
    if side == Buy then d.bids else d.asks
  }

  function QtyIn(s: Sides, side: Side, p: Fixed): Fixed {
    QtyAt(if side == Buy then s.bids else s.asks, p)
  }

  // What a run leaves behind.

  function Noted(f: Feed, since: Option<Since>, ev: MarketEvent): Option<Since> {
    match ev
    case SnapshotEvent(s) => Some(Since(s, []))
    case DeltaEvent(d) =>
      if since.Some? && f.tracker.Check(d).1 == Apply then Some(Since(since.value.snapshot, since.value.ranges + [d]))
      else since
    case TradeEvent => since
  }

  function SinceLast(evs: seq<MarketEvent>): Option<Since> {
    if evs == [] then None
    else
      var init := evs[..|evs| - 1];
      Noted(Deliver(NewFeed(Ranged), init), SinceLast(init), evs[|evs| - 1])
  }

  ghost predicate HoldsSince(f: Feed, since: Option<Since>) {
    && f.tracker.rule == Ranged
    && (since.Some? ==>
          && f.tracker.ready && since.value.Advances() && since.value.End() <= f.tracker.lastSeq
          && SidesOf(f.book) == since.value.Rebuilt() && f.book.state.sequence == since.value.End())
  }

  lemma NotedHolds(f: Feed, since: Option<Since>, ev: MarketEvent)
    requires HoldsSince(f, since)
    ensures HoldsSince(ApplyEvent(f, ev), Noted(f, since, ev))
  {
    hide Since.Advances, Since.End, Since.Rebuilt, FoldDelta, FoldSnapshot;
    match ev
    case SnapshotEvent(s) =>
      NewSince(s);
    case DeltaEvent(d) =>
      if since.Some? && f.tracker.Check(d).1 == Apply {
        OneMoreRange(since.value, d);
      }
    case TradeEvent =>
  }

  lemma NewSince(s: BookSnapshot)
    ensures var w := Since(s, []);
            w.Advances() && w.End() == s.sequence && w.Rebuilt() == Sides(FoldSnapshot(s.bids), FoldSnapshot(s.asks))
  {
  }

  /** One more range: what the three functions of the messages say of it. */
  lemma OneMoreRange(w: Since, d: BookDelta)
    ensures var v := Since(w.snapshot, w.ranges + [d]);
            && (v.Advances() <==> w.End() < d.sequence && w.Advances())
            && v.End() == d.sequence && v.Rebuilt() == Patch(w.Rebuilt(), d)
  {
    var v := Since(w.snapshot, w.ranges + [d]);
    assert v.ranges[..|v.ranges| - 1] == w.ranges;
    assert v.Init() == w && v.Last() == d;
  }

  /** The local book after any run is the last snapshot patched with the ranges applied since. */
  lemma {:induction false} DeliveredIsRebuilt(evs: seq<MarketEvent>)
    ensures HoldsSince(Deliver(NewFeed(Ranged), evs), SinceLast(evs))
    ensures Loaded(evs) <==> SinceLast(evs).Some?
  {
    if evs != [] {
      DeliveredIsRebuilt(evs[..|evs| - 1]);
      NotedHolds(Deliver(NewFeed(Ranged), evs[..|evs| - 1]), SinceLast(evs[..|evs| - 1]), evs[|evs| - 1]);
    }
  }

  // Histories that agree with what was received.

  /** The snapshot and the ranges are the history's own. */
  ghost predicate Fits(h: VenueHistory, w: Since) {
    ValidHistory(h) && GenuineSnapshot(h, w.snapshot)
    && forall i :: 0 <= i < |w.ranges| ==> GenuineRange(h, w.ranges[i])
  }

  lemma {:induction false} GenuineFits(h: VenueHistory, evs: seq<MarketEvent>)
    requires ValidHistory(h)
    requires forall i :: 0 <= i < |evs| ==> Genuine(h, Ranged, evs[i])
    ensures SinceLast(evs).Some? ==> Fits(h, SinceLast(evs).value)
  {
    hide ValidHistory, GenuineRange, GenuineSnapshot, Deliver;
    if evs != [] {
      GenuineFits(h, evs[..|evs| - 1]);
      assert Genuine(h, Ranged, evs[|evs| - 1]);
    }
  }

  /** What a genuine range says of one price at one point. */
  ghost predicate Tells(h: VenueHistory, d: BookDelta, side: Side, p: Fixed, k: int) {
    match LastFor(LevelsOf(d, side), p)
    case Some(q) => q == QtyIn(h.book(d.sequence), side, p)
    case None => d.prevSequence - 1 <= k <= d.sequence ==>
                   QtyIn(h.book(k), side, p) == QtyIn(h.book(d.sequence), side, p)
  }

  /** Covers, one price and one point at a time. */
  ghost predicate CoversAt(side: int -> Depth, levels: seq<Level>, from: int, u: int, p: Fixed, k: int) {
    match LastFor(levels, p)
    case Some(q) => q == QtyAt(side(u), p)
    case None => from <= k <= u ==> QtyAt(side(k), p) == QtyAt(side(u), p)
  }

  lemma CoversIff(side: int -> Depth, levels: seq<Level>, from: int, u: int)
    ensures Covers(side, levels, from, u) <==> forall p, k :: CoversAt(side, levels, from, u, p, k)
  {
    hide LastFor, QtyAt;
    if forall p, k :: CoversAt(side, levels, from, u, p, k) {
      forall p: Fixed
        ensures match LastFor(levels, p)
                case Some(q) => q == QtyAt(side(u), p)
                case None => forall k :: from <= k <= u ==> QtyAt(side(k), p) == QtyAt(side(u), p)
      {
        assert CoversAt(side, levels, from, u, p, u);
        if LastFor(levels, p).None? {
          forall k | from <= k <= u
            ensures QtyAt(side(k), p) == QtyAt(side(u), p)
          {
            assert CoversAt(side, levels, from, u, p, k);
          }
        }
      }
    }
  }

  lemma GenuineTells(h: VenueHistory, d: BookDelta, side: Side, p: Fixed, k: int)
    requires GenuineRange(h, d)
    ensures Tells(h, d, side, p, k)
  {
    hide LastFor, QtyAt, Covers;
    var bids, asks := n => h.book(n).bids, n => h.book(n).asks;
    CoversIff(bids, d.bids, d.prevSequence - 1, d.sequence);
    CoversIff(asks, d.asks, d.prevSequence - 1, d.sequence);
    assert CoversAt(bids, d.bids, d.prevSequence - 1, d.sequence, p, k);
    assert CoversAt(asks, d.asks, d.prevSequence - 1, d.sequence, p, k);
  }

  lemma TellsGenuine(h: VenueHistory, d: BookDelta)
    requires d.prevSequence <= d.sequence && h.points(d.sequence)
    requires forall side, p, k :: Tells(h, d, side, p, k)
    ensures GenuineRange(h, d)
  {
    hide LastFor, QtyAt, Covers;
    var bids, asks, from := n => h.book(n).bids, n => h.book(n).asks, d.prevSequence - 1;
    forall p, k
      ensures CoversAt(bids, d.bids, from, d.sequence, p, k)
    {
      assert Tells(h, d, Buy, p, k);
    }
    forall p, k
      ensures CoversAt(asks, d.asks, from, d.sequence, p, k)
    {
      assert Tells(h, d, Sell, p, k);
    }
    CoversIff(bids, d.bids, from, d.sequence);
    CoversIff(asks, d.asks, from, d.sequence);
  }

  // If the ranges reach far enough, the book is true.

  lemma {:induction false} LastSetIsLast(w: Since, side: Side, p: Fixed)
    requires w.Advances()
    ensures w.snapshot.sequence <= w.LastSet(side, p) <= w.End()
    ensures forall i :: 0 <= i < |w.ranges| ==> w.ranges[i].sequence <= w.End()
    ensures forall i :: 0 <= i < |w.ranges| && w.ranges[i].sequence > w.LastSet(side, p) ==>
                          LastFor(LevelsOf(w.ranges[i], side), p).None?
    decreases |w.ranges|
  {
    hide LastFor;
    if w.ranges != [] {
      LastSetIsLast(w.Init(), side, p);
    }
  }

  /** The local quantity is the venue's where it was last set. */
  lemma {:induction false} RebuiltQty(h: VenueHistory, w: Since, side: Side, p: Fixed)
    requires Fits(h, w)
    ensures QtyIn(w.Rebuilt(), side, p) == QtyIn(h.book(w.LastSet(side, p)), side, p)
    decreases |w.ranges|
  {
    hide ValidHistory, FoldDelta, LastFor, QtyAt;
    if w.ranges == [] {
      GenuineSnapshotIff(h, w.snapshot);
    } else {
      RebuiltQty(h, w.Init(), side, p);
      var before, d := w.Init().Rebuilt(), w.Last();
      FoldDeltaAt(if side == Buy then before.bids else before.asks, LevelsOf(d, side), p);
      GenuineTells(h, d, side, p, d.sequence);
    }
  }

  /** Every change after the point where the price was last set is covered by some range. */
  predicate ReachesFrom(w: Since, from: int) {
    forall x :: from < x <= w.End() ==> w.Reaches(x)
  }

  lemma {:induction false} Unmoved(h: VenueHistory, w: Since, side: Side, p: Fixed, x: int)
    requires Fits(h, w) && w.Advances() && ReachesFrom(w, w.LastSet(side, p)) && w.LastSet(side, p) <= x <= w.End()
    ensures QtyIn(h.book(x), side, p) == QtyIn(h.book(w.LastSet(side, p)), side, p)
    decreases x - w.LastSet(side, p)
  {
    hide ValidHistory, GenuineSnapshot, LastFor, QtyAt, Since.LastSet, Since.Advances;
    if x > w.LastSet(side, p) {
      Unmoved(h, w, side, p, x - 1);
      assert w.Reaches(x);
      var i :| 0 <= i < |w.ranges| && w.ranges[i].prevSequence <= x <= w.ranges[i].sequence;
      LastSetIsLast(w, side, p);
      GenuineTells(h, w.ranges[i], side, p, x - 1);
      GenuineTells(h, w.ranges[i], side, p, x);
    }
  }

  lemma {:induction false} RebuiltPositive(w: Since)
    ensures PositiveSides(w.Rebuilt())
    decreases |w.ranges|
  {
    if w.ranges == [] {
      FoldSnapshotPositive(w.snapshot.bids);
      FoldSnapshotPositive(w.snapshot.asks);
    } else {
      RebuiltPositive(w.Init());
      FoldDeltaPositive(w.Init().Rebuilt().bids, w.Last().bids);
      FoldDeltaPositive(w.Init().Rebuilt().asks, w.Last().asks);
    }
  }

  lemma SameSides(a: Sides, b: Sides)
    requires PositiveSides(a) && PositiveSides(b)
    requires forall side, p :: QtyIn(a, side, p) == QtyIn(b, side, p)
    ensures a == b
  {
    forall p: Fixed
      ensures QtyAt(a.bids, p) == QtyAt(b.bids, p) && QtyAt(a.asks, p) == QtyAt(b.asks, p)
    {
      assert QtyIn(a, Buy, p) == QtyIn(b, Buy, p) && QtyIn(a, Sell, p) == QtyIn(b, Sell, p);
    }
    SameQuantities(a.bids, b.bids);
    SameQuantities(a.asks, b.asks);
  }

  lemma ReachedIsTrue(h: VenueHistory, w: Since)
    requires Fits(h, w) && w.Advances() && forall side, p :: ReachesFrom(w, w.LastSet(side, p))
    ensures w.Rebuilt() == h.book(w.End())
  {
    hide FoldDelta, LastFor, QtyAt, PositiveSides, Since.LastSet, Since.Advances, Since.Rebuilt, Since.End, QtyIn;
    forall side, p
      ensures QtyIn(w.Rebuilt(), side, p) == QtyIn(h.book(w.End()), side, p)
    {
      LastSetIsLast(w, side, p);
      RebuiltQty(h, w, side, p);
      Unmoved(h, w, side, p, w.End());
    }
    RebuiltPositive(w);
    SameSides(w.Rebuilt(), h.book(w.End()));
  }

  // If some change is not reached, another history agrees with all that was received.

  function SetQty(m: Depth, p: Fixed, q: Fixed): Depth {
    if q == 0 then m - {p} else m[p := q]
  }

  function SetIn(s: Sides, side: Side, p: Fixed, q: Fixed): Sides {
    if side == Buy then s.(bids := SetQty(s.bids, p, q)) else s.(asks := SetQty(s.asks, p, q))
  }

  lemma SetInQty(s: Sides, side: Side, p: Fixed, q: Fixed, side': Side, p': Fixed)
    ensures QtyIn(SetIn(s, side, p, q), side', p') == if side' == side && p' == p then q else QtyIn(s, side', p')
    ensures q >= 0 && PositiveSides(s) ==> PositiveSides(SetIn(s, side, p, q))
  {
  }

  /** `h` with the quantity `q` at a price from `x` on. */
  ghost function ChangedFrom(h: VenueHistory, x: int, side: Side, p: Fixed, q: Fixed): VenueHistory {
    VenueHistory(h.points, k => if k < x then h.book(k) else SetIn(h.book(k), side, p, q))
  }

  lemma ChangeGoesUnnoticed(h: VenueHistory, w: Since, x: int, side: Side, p: Fixed, q: Fixed)
    requires Fits(h, w) && w.Advances() && q >= 0
    requires w.LastSet(side, p) < x <= w.End() && !w.Reaches(x)
    ensures Fits(ChangedFrom(h, x, side, p, q), w)
  {
    hide FoldDelta, FoldSnapshot, LastFor, QtyIn, SetIn, PositiveSides, GenuineRange, Tells, Since.Advances, Since.End;
    var g := ChangedFrom(h, x, side, p, q);
    LastSetIsLast(w, side, p);
    forall k
      ensures PositiveSides(g.book(k))
    {
      SetInQty(h.book(k), side, p, q, side, p);
    }
    forall i | 0 <= i < |w.ranges|
      ensures GenuineRange(g, w.ranges[i])
    {
      assert !(w.ranges[i].prevSequence <= x <= w.ranges[i].sequence);
      RangeMisses(h, w.ranges[i], x, side, p, q);
    }
  }

  /** A range that does not cover the change is as genuine after it, unless it comes later and sets the price. */
  lemma RangeMisses(h: VenueHistory, d: BookDelta, x: int, side: Side, p: Fixed, q: Fixed)
    requires GenuineRange(h, d) && !(d.prevSequence <= x <= d.sequence)
    requires d.sequence >= x ==> LastFor(LevelsOf(d, side), p).None?
    ensures GenuineRange(ChangedFrom(h, x, side, p, q), d)
  {
    hide Covers, LastFor, QtyIn, SetIn;
    var g := ChangedFrom(h, x, side, p, q);
    forall side', p', k
      ensures Tells(g, d, side', p', k)
    {
      GenuineTells(h, d, side', p', k);
      SetInQty(h.book(k), side, p, q, side', p');
      SetInQty(h.book(d.sequence), side, p, q, side', p');
    }
    TellsGenuine(g, d);
  }

  lemma UnreachedIsUnsafe(h: VenueHistory, w: Since, x: int, side: Side, p: Fixed)
    requires Fits(h, w) && w.Advances() && w.LastSet(side, p) < x <= w.End() && !w.Reaches(x)
    ensures exists g :: Fits(g, w) && w.Rebuilt() != g.book(w.End())
  {
    hide Fits, QtyIn, SetIn, Since.Advances, Since.End, Since.Rebuilt, Since.LastSet, Since.Reaches;
    var q: Fixed := if QtyIn(w.Rebuilt(), side, p) == 0 then 1 else 0;
    var g := ChangedFrom(h, x, side, p, q);
    ChangeGoesUnnoticed(h, w, x, side, p, q);
    SetInQty(h.book(w.End()), side, p, q, side, p);
    assert QtyIn(g.book(w.End()), side, p) == q;
  }

  // The exact condition.

  ghost predicate TrueInEvery(w: Since) {
    forall h :: Fits(h, w) ==> w.Rebuilt() == h.book(w.End())
  }

  /**
    The rebuilt book is the venue's in every history that agrees with what was received exactly
    when, for each price, the ranges cover every change since the price was last set.
   */
  lemma RangesDecide(h: VenueHistory, w: Since)
    requires Fits(h, w) && w.Advances()
    ensures TrueInEvery(w) <==> forall side, p :: ReachesFrom(w, w.LastSet(side, p))
  {
    hide Fits, Since.Advances, Since.End, Since.Rebuilt, Since.LastSet, Since.Reaches;
    if forall side, p :: ReachesFrom(w, w.LastSet(side, p)) {
      forall g | Fits(g, w)
        ensures w.Rebuilt() == g.book(w.End())
      {
        ReachedIsTrue(g, w);
      }
    }
    if side: Side, p: Fixed :| !ReachesFrom(w, w.LastSet(side, p)) {
      var x :| w.LastSet(side, p) < x <= w.End() && !w.Reaches(x);
      UnreachedIsUnsafe(h, w, x, side, p);
    }
  }

  lemma {:induction false} NeverSetSince(w: Since, side: Side, p: Fixed)
    requires w.NeverSets(side, p)
    ensures w.LastSet(side, p) == w.snapshot.sequence
    decreases |w.ranges|
  {
    if w.ranges != [] {
      NeverSetSince(w.Init(), side, p);
    }
  }

  /**
    Binance reconstruction, exactly: after any run of genuine messages with a snapshot in it,
    the local book is the venue's in every history that agrees with the last snapshot and the
    ranges applied since, if and only if, for each price, those ranges cover every change
    after the point where it was last set.
   */
  lemma RunIsTrueIff(h: VenueHistory, evs: seq<MarketEvent>)
    requires ValidHistory(h) && Loaded(evs)
    requires forall i :: 0 <= i < |evs| ==> Genuine(h, Ranged, evs[i])
    ensures SinceLast(evs).Some?
    ensures var w, b := SinceLast(evs).value, Deliver(NewFeed(Ranged), evs).book;
            && b.state.sequence == w.End()
            && ((forall g :: Fits(g, w) ==> SidesOf(b) == g.book(b.state.sequence))
                <==> forall side, p :: ReachesFrom(w, w.LastSet(side, p)))
  {
    hide Deliver, SinceLast, Loaded, Genuine, ValidHistory, Fits;
    hide Since.Advances, Since.End, Since.Rebuilt, Since.LastSet, Since.Reaches;
    DeliveredIsRebuilt(evs);
    GenuineFits(h, evs);
    RangesDecide(h, SinceLast(evs).value);
  }

  /** If the ranges leave some price alone, they have to cover every change after the snapshot. */
  lemma UntouchedPriceDecides(w: Since, side: Side, p: Fixed)
    requires w.Advances() && w.NeverSets(side, p)
    ensures (forall side', p' :: ReachesFrom(w, w.LastSet(side', p'))) <==> ReachesFrom(w, w.snapshot.sequence)
  {
    hide Since.Advances, Since.End, Since.LastSet, Since.Reaches, Since.NeverSets;
    NeverSetSince(w, side, p);
    forall side', p' | ReachesFrom(w, w.snapshot.sequence)
      ensures ReachesFrom(w, w.LastSet(side', p'))
    {
      LastSetIsLast(w, side', p');
    }
  }
}
