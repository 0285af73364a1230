/**
  Rebuilding a venue's book from whatever part of its feed arrives.

  A venue history gives the true book at every sequence number. A feed is any sequence of
  genuine messages of that history: lost, repeated and reordered at will. The theorems say
  which book the local one is.
 */
module Reconstruction {
  import opened Decimal
  import opened Domain
  import opened BookSpec
  import opened Sequence

  datatype Sides = Sides(bids: Depth, asks: Depth)

  /** `points` tells the sequence numbers the venue used; `book(n)` is its true book at `n`. */
  datatype VenueHistory = VenueHistory(points: int -> bool, book: int -> Sides)

  predicate PositiveSides(s: Sides) {
    Positive(s.bids) && Positive(s.asks)
  }

  ghost predicate ValidHistory(h: VenueHistory) {
    forall n :: PositiveSides(h.book(n))
  }

  function SidesOf(b: BookValue): Sides {
    Sides(b.bids, b.asks)
  }

  function Patch(s: Sides, d: BookDelta): Sides {
    Sides(FoldDelta(s.bids, d.bids), FoldDelta(s.asks, d.asks))
  }

  // Genuine messages.

  predicate GenuineSnapshot(h: VenueHistory, s: BookSnapshot) {
    && h.points(s.sequence)
    && Shows(h.book(s.sequence).bids, s.bids) && Shows(h.book(s.sequence).asks, s.asks)
  }

  /** So loading it gives the true book. */
  lemma GenuineSnapshotIff(h: VenueHistory, s: BookSnapshot)
    ensures GenuineSnapshot(h, s)
            <==> h.points(s.sequence) && Sides(FoldSnapshot(s.bids), FoldSnapshot(s.asks)) == h.book(s.sequence)
  {
    hide FoldSnapshot, Shows;
    ShownIsFold(h.book(s.sequence).bids, s.bids);
    ShownIsFold(h.book(s.sequence).asks, s.asks);
  }

  /**
    `d` carries the history from the point `p` to the next one. Its PrevSequence need not
    name `p` (Bybit always sends u-1), but if it names a point at all, it names `p`.
   */
  ghost predicate Links(h: VenueHistory, p: int, d: BookDelta) {
    && h.points(p) && h.points(d.sequence) && p < d.sequence
    && (forall n :: p < n < d.sequence ==> !h.points(n))
    && (h.points(d.prevSequence) ==> d.prevSequence == p)
    && Patch(h.book(p), d) == h.book(d.sequence)
  }

  ghost predicate GenuineLink(h: VenueHistory, d: BookDelta) {
    exists p :: Links(h, p, d)
  }

  /** Levels give each price its quantity at `u`, or leave out a price that never moved in from..u. */
  ghost predicate Covers(side: int -> Depth, levels: seq<Level>, from: int, u: int) {
    forall p: Fixed ::
      match LastFor(levels, p)
      case Some(q) => q == QtyAt(side(u), p)
      case None => forall k :: from <= k <= u ==> QtyAt(side(k), p) == QtyAt(side(u), p)
  }

  /** A range delta [U, u] with absolute quantities: it covers every change after U-1 up to u. */
  ghost predicate GenuineRange(h: VenueHistory, d: BookDelta) {
    && d.prevSequence <= d.sequence
    && h.points(d.sequence)
    && Covers(n => h.book(n).bids, d.bids, d.prevSequence - 1, d.sequence)
    && Covers(n => h.book(n).asks, d.asks, d.prevSequence - 1, d.sequence)
  }

  ghost predicate Genuine(h: VenueHistory, rule: Rule, ev: MarketEvent) {
    match ev
    case SnapshotEvent(s) => GenuineSnapshot(h, s)
    case DeltaEvent(d) => if rule == Chained then GenuineLink(h, d) else GenuineRange(h, d)
    case TradeEvent => true
  }

  lemma CoversPatch(side: int -> Depth, levels: seq<Level>, from: int, u: int, k: int)
    requires Covers(side, levels, from, u) && from <= k <= u
    requires Positive(side(k)) && Positive(side(u))
    ensures FoldDelta(side(k), levels) == side(u)
  {
    FoldDeltaPositive(side(k), levels);
    forall p: Fixed
      ensures QtyAt(FoldDelta(side(k), levels), p) == QtyAt(side(u), p)
    {
      FoldDeltaAt(side(k), levels, p);
    }
    SameQuantities(FoldDelta(side(k), levels), side(u));
  }

  /** A genuine range delta takes the true book at any k with U-1 <= k <= u to the true book at u. */
  lemma RangeLands(h: VenueHistory, d: BookDelta, k: int)
    requires ValidHistory(h) && GenuineRange(h, d) && d.prevSequence - 1 <= k <= d.sequence
    ensures Patch(h.book(k), d) == h.book(d.sequence)
  {
    assert PositiveSides(h.book(k)) && PositiveSides(h.book(d.sequence));
    CoversPatch(n => h.book(n).bids, d.bids, d.prevSequence - 1, d.sequence, k);
    CoversPatch(n => h.book(n).asks, d.asks, d.prevSequence - 1, d.sequence, k);
  }

  // One locked apply: tracker and book together (Pipeline.apply).

  datatype Feed = Feed(tracker: Tracker, book: BookValue)

  function NewFeed(rule: Rule): Feed {
    Feed(Tracker(rule, false, 0), EmptyBook)
  }

  /** The books a mutation list goes through, in order; each is published. */
  function Mutations(f: Feed, ev: MarketEvent): seq<BookValue> {
    match ev
    case SnapshotEvent(s) =>
      ThenRemark(LoadSnapshot(f.book, s))
    case DeltaEvent(d) =>
      (match f.tracker.Check(d).1
       case Apply => ThenRemark(ApplyDelta(f.book, d))
       case Duplicate => []
       case Stale => []
       case Gap => [Invalidate(f.book)]
       case NeedSnapshot => [Invalidate(f.book)])
    case TradeEvent => []
  }

  /** A changed book, then MarkStale(false), which is a further mutation only if it was stale. */
  function ThenRemark(b: BookValue): seq<BookValue> {
    if b.state.stale then [b, MarkStale(b, false)] else [b]
  }

  function ApplyEvent(f: Feed, ev: MarketEvent): Feed {
    var t := match ev
             case SnapshotEvent(s) => f.tracker.OnSnapshot(s.sequence)
             case DeltaEvent(d) => f.tracker.Check(d).0
             case TradeEvent => f.tracker;
    var ms := Mutations(f, ev);
    Feed(t, if ms == [] then f.book else ms[|ms| - 1])
  }

  function Deliver(f: Feed, evs: seq<MarketEvent>): Feed {
    if evs == [] then f else ApplyEvent(Deliver(f, evs[..|evs| - 1]), evs[|evs| - 1])
  }

  /** The local book is the venue's book at the tracker's sequence number. */
  ghost predicate InSync(h: VenueHistory, f: Feed) {
    && h.points(f.tracker.lastSeq)
    && f.book.state.sequence == f.tracker.lastSeq
    && SidesOf(f.book) == h.book(f.tracker.lastSeq)
  }

  // OKX, Bybit and synthetic feeds: the tracker's readiness is the truth.

  ghost predicate ChainedInv(h: VenueHistory, f: Feed) {
    && f.tracker.rule == Chained && WellFormed(f.book)
    && (f.tracker.ready ==> InSync(h, f))
    && (f.book.state.ready ==> f.tracker.ready)
  }

  /** An accepted delta starts from the point the tracker is at, also in the +1 branch. */
  lemma AcceptedLinkStartsAtLast(h: VenueHistory, t: Tracker, d: BookDelta, p: int)
    requires t.rule == Chained && t.ready && h.points(t.lastSeq)
    requires Links(h, p, d) && t.Check(d).1 == Apply
    ensures p == t.lastSeq
  {
  }

  lemma ChainedStep(h: VenueHistory, f: Feed, ev: MarketEvent)
    requires ChainedInv(h, f) && Genuine(h, Chained, ev)
    ensures ChainedInv(h, ApplyEvent(f, ev))
    ensures forall i :: 0 <= i < |Mutations(f, ev)| ==> FaithfulBook(h, Mutations(f, ev)[i])
  {
    match ev
    case SnapshotEvent(s) =>
      GenuineSnapshotIff(h, s);
      MutationsKeepWellFormed(f.book, s, BookDelta([], [], 0, 0, 0), false);
    case DeltaEvent(d) =>
      MutationsKeepWellFormed(f.book, BookSnapshot([], [], 0, 0), d, false);
      var p :| Links(h, p, d);
      if f.tracker.Check(d).1 == Apply {
        AcceptedLinkStartsAtLast(h, f.tracker, d, p);
      }
    case TradeEvent =>
  }

  /** A ready book shows the true book at its own sequence number. */
  ghost predicate FaithfulBook(h: VenueHistory, b: BookValue) {
    WellFormed(b) && (b.state.ready ==> h.points(b.state.sequence) && SidesOf(b) == h.book(b.state.sequence))
  }

  /**
    OKX/Bybit reconstruction: whatever genuine messages arrive, in whatever order and however
    often, a ready tracker means that the book is the venue's at lastSeq.
   */
  lemma {:induction false} ChainedReconstruction(h: VenueHistory, evs: seq<MarketEvent>)
    requires forall i :: 0 <= i < |evs| ==> Genuine(h, Chained, evs[i])
    ensures ChainedInv(h, Deliver(NewFeed(Chained), evs))
  {
    if evs != [] {
      ChainedReconstruction(h, evs[..|evs| - 1]);
      ChainedStep(h, Deliver(NewFeed(Chained), evs[..|evs| - 1]), evs[|evs| - 1]);
    }
  }

  // Binance feeds: the book and the tracker can part.

  /**
    Whether the book is still a true one, given that it was: a snapshot makes it so, and an
    applied delta keeps it so if its range reaches back to the book's own sequence number.
   */
  function StillTrue(f: Feed, ok: bool, ev: MarketEvent): bool {
    match ev
    case SnapshotEvent(_) => true
    case DeltaEvent(d) => ok && (f.tracker.Check(d).1 == Apply ==> d.prevSequence <= f.book.state.sequence + 1)
    case TradeEvent => ok
  }

  function TrueAfter(f: Feed, ok: bool, evs: seq<MarketEvent>): bool {
    if evs == [] then ok
    else StillTrue(Deliver(f, evs[..|evs| - 1]), TrueAfter(f, ok, evs[..|evs| - 1]), evs[|evs| - 1])
  }

  /** `ok`: the book was loaded by a snapshot and is the true one at its own sequence number. */
  ghost predicate RangedInv(h: VenueHistory, f: Feed, ok: bool) {
    && f.tracker.rule == Ranged && WellFormed(f.book)
    && (f.book.state.ready ==> f.tracker.ready)
    && (f.tracker.ready ==> f.book.state.sequence <= f.tracker.lastSeq)
    && (ok ==> f.tracker.ready && h.points(f.book.state.sequence) && SidesOf(f.book) == h.book(f.book.state.sequence))
  }

  lemma RangedStep(h: VenueHistory, f: Feed, ok: bool, ev: MarketEvent)
    requires ValidHistory(h) && RangedInv(h, f, ok) && Genuine(h, Ranged, ev)
    ensures RangedInv(h, ApplyEvent(f, ev), StillTrue(f, ok, ev))
  {
    match ev
    case SnapshotEvent(s) =>
      GenuineSnapshotIff(h, s);
      MutationsKeepWellFormed(f.book, s, BookDelta([], [], 0, 0, 0), false);
    case DeltaEvent(d) =>
      MutationsKeepWellFormed(f.book, BookSnapshot([], [], 0, 0), d, false);
      if StillTrue(f, ok, ev) && f.tracker.Check(d).1 == Apply {
        RangeLands(h, d, f.book.state.sequence);
      }
    case TradeEvent =>
  }

  /** Binance reconstruction in general: rewinding snapshots included. */
  lemma {:induction false} RangedReconstruction(h: VenueHistory, evs: seq<MarketEvent>)
    requires ValidHistory(h)
    requires forall i :: 0 <= i < |evs| ==> Genuine(h, Ranged, evs[i])
    ensures RangedInv(h, Deliver(NewFeed(Ranged), evs), TrueAfter(NewFeed(Ranged), false, evs))
  {
    if evs != [] {
      RangedReconstruction(h, evs[..|evs| - 1]);
      RangedStep(h, Deliver(NewFeed(Ranged), evs[..|evs| - 1]),
                 TrueAfter(NewFeed(Ranged), false, evs[..|evs| - 1]), evs[|evs| - 1]);
    }
  }

  /** The snapshot rule is met at this step: a snapshot is not older than the tracker. */
  predicate Forward(f: Feed, ev: MarketEvent) {
    ev.SnapshotEvent? ==> ev.snapshot.sequence >= f.tracker.lastSeq
  }

  predicate ForwardRun(f: Feed, evs: seq<MarketEvent>) {
    evs != [] ==>
      ForwardRun(f, evs[..|evs| - 1]) && Forward(Deliver(f, evs[..|evs| - 1]), evs[|evs| - 1])
  }

  /** Some delivered message was a snapshot. */
  predicate Loaded(evs: seq<MarketEvent>) {
    evs != [] && (evs[|evs| - 1].SnapshotEvent? || Loaded(evs[..|evs| - 1]))
  }

  /** A snapshot leaves tracker and book at the same sequence number exactly when it is not older. */
  lemma SnapshotAlignsIff(f: Feed, s: BookSnapshot)
    requires f.tracker.rule == Ranged
    ensures var g := ApplyEvent(f, SnapshotEvent(s));
            g.book.state.sequence == g.tracker.lastSeq <==> s.sequence >= f.tracker.lastSeq
  {
  }

  /** Without older snapshots: ready means loaded, and loaded means in sync with the tracker. */
  ghost predicate ForwardInv(h: VenueHistory, f: Feed) {
    && f.tracker.rule == Ranged && WellFormed(f.book)
    && (f.tracker.ready ==> f.book.state.sequence == f.tracker.lastSeq)
    && (f.book.state.ready ==> f.tracker.ready && InSync(h, f))
  }

  /** Once loaded, the book stays in sync through gaps, which only make it not ready. */
  lemma ForwardStep(h: VenueHistory, f: Feed, ev: MarketEvent)
    requires ValidHistory(h) && ForwardInv(h, f) && Genuine(h, Ranged, ev) && Forward(f, ev)
    ensures ForwardInv(h, ApplyEvent(f, ev))
    ensures forall i :: 0 <= i < |Mutations(f, ev)| ==> FaithfulBook(h, Mutations(f, ev)[i])
    ensures InSync(h, f) && f.tracker.ready ==> InSync(h, ApplyEvent(f, ev))
    ensures ev.SnapshotEvent? ==> InSync(h, ApplyEvent(f, ev))
  {
    match ev
    case SnapshotEvent(s) =>
      GenuineSnapshotIff(h, s);
      MutationsKeepWellFormed(f.book, s, BookDelta([], [], 0, 0, 0), false);
    case DeltaEvent(d) =>
      MutationsKeepWellFormed(f.book, BookSnapshot([], [], 0, 0), d, false);
      if f.tracker.Check(d).1 == Apply && f.tracker.ready && InSync(h, f) {
        RangeLands(h, d, f.book.state.sequence);
      }
    case TradeEvent =>
  }

  /**
    Binance reconstruction: with no older snapshots, once a snapshot has arrived the book is
    the venue's at lastSeq; before that, bare deltas never make it ready.
   */
  lemma {:induction false} ForwardReconstruction(h: VenueHistory, evs: seq<MarketEvent>)
    requires ValidHistory(h)
    requires forall i :: 0 <= i < |evs| ==> Genuine(h, Ranged, evs[i])
    requires ForwardRun(NewFeed(Ranged), evs)
    ensures var f := Deliver(NewFeed(Ranged), evs);
            ForwardInv(h, f) && (if Loaded(evs) then f.tracker.ready && InSync(h, f) else !f.book.state.ready)
  {
    if evs != [] {
      ForwardReconstruction(h, evs[..|evs| - 1]);
      ForwardStep(h, Deliver(NewFeed(Ranged), evs[..|evs| - 1]), evs[|evs| - 1]);
    }
  }

  // What an older snapshot does.

  /**
    The tracker accepts [U, u] because U <= lastSeq + 1. Such a delta is safe for a true book
    at sequence `b`, whatever the history, exactly when U <= b + 1.
   */
  ghost predicate SafeFrom(b: int, first: int, u: int) {
    forall h: VenueHistory, d: BookDelta ::
      ValidHistory(h) && GenuineRange(h, d) && d.prevSequence == first && d.sequence == u
      ==> Patch(h.book(b), d) == h.book(u)
  }

  lemma SafeFromIff(b: int, first: int, u: int)
    requires b < u && first <= u
    ensures SafeFrom(b, first, u) <==> first <= b + 1
  {
    if first <= b + 1 {
      forall h: VenueHistory, d: BookDelta
        | ValidHistory(h) && GenuineRange(h, d) && d.prevSequence == first && d.sequence == u
        ensures Patch(h.book(b), d) == h.book(u)
      {
        RangeLands(h, d, b);
      }
    } else {
      var h, d := MissedLevel(b), BookDelta([], [], u, first, 0);
      assert h.book(b) == Sides(map[], map[]) && h.book(u) == Sides(map[SCALE := SCALE], map[]);
      assert Covers(n => h.book(n).bids, [], first - 1, u) && Covers(n => h.book(n).asks, [], first - 1, u);
      assert GenuineRange(h, d);
      assert SCALE in h.book(u).bids && SCALE !in Patch(h.book(b), d).bids;
    }
  }

  /** A history in which one bid appears right after sequence `b`. */
  ghost function MissedLevel(b: int): (h: VenueHistory)
    ensures ValidHistory(h)
  {
    VenueHistory(n => true, n => Sides(if n > b then map[SCALE := SCALE] else map[], map[]))
  }

  /**
    The whole story in three messages: snapshot 20, then the older snapshot 10, then the
    delta [21, 30]. The book ends ready, at the tracker's sequence, and is not the venue's.
   */
  lemma OlderSnapshotCounterexample()
    ensures exists h: VenueHistory, evs: seq<MarketEvent> ::
              && ValidHistory(h)
              && (forall i :: 0 <= i < |evs| ==> Genuine(h, Ranged, evs[i]))
              && var f := Deliver(NewFeed(Ranged), evs);
                 && f.book.state.ready && f.tracker.ready
                 && f.book.state.sequence == f.tracker.lastSeq
                 && SidesOf(f.book) != h.book(f.tracker.lastSeq)
  {
    var h := MissedLevel(10);
    var bid := Level(SCALE, SCALE);
    var s20 := SnapshotEvent(BookSnapshot([bid], [], 20, 0));
    var s10 := SnapshotEvent(BookSnapshot([], [], 10, 0));
    var d30 := DeltaEvent(BookDelta([], [], 30, 21, 0));
    var evs := [s20, s10, d30];
    var f1, f2 := ApplyEvent(NewFeed(Ranged), s20), ApplyEvent(ApplyEvent(NewFeed(Ranged), s20), s10);
    var f3 := ApplyEvent(f2, d30);
    assert Deliver(NewFeed(Ranged), evs) == f3 by {
      assert evs[..2] == [s20, s10] && evs[..2][..1] == [s20] && [s20][..0] == [];
      assert Deliver(NewFeed(Ranged), [s20]) == f1;
      assert Deliver(NewFeed(Ranged), [s20, s10]) == f2;
    }
    assert f3.book.state.ready && f3.book.state.sequence == f3.tracker.lastSeq == 30;
    assert SCALE in h.book(30).bids && SCALE !in f3.book.bids;
    forall i | 0 <= i < |evs|
      ensures Genuine(h, Ranged, evs[i])
    {
      assert [bid][..0] == [];
      assert FoldSnapshot([bid]) == map[SCALE := SCALE];
      GenuineSnapshotIff(h, s20.snapshot);
      GenuineSnapshotIff(h, s10.snapshot);
      assert Covers(n => h.book(n).bids, [], 20, 30) && Covers(n => h.book(n).asks, [], 20, 30);
    }
  }
}
