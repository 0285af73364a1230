/**
  What trackers must not refuse: the verdicts in full, and feeds that arrive whole and in order
  (internal/book/seq.go).
 */
module WholeFeeds {
  import opened Domain
  import opened BookSpec
  import opened Sequence
  import opened Reconstruction

  /** `d` goes on from `last`: by the next number or by name, or by a range that reaches back to it. */
  predicate GoesOn(rule: Rule, last: int, d: BookDelta) {
    && d.sequence > last
    && match rule
       case Chained => d.sequence == last + 1 || d.prevSequence == last
       case Ranged => d.prevSequence <= last + 1
  }

  /** All verdicts of a tracker that is ready. */
  lemma ReadyVerdicts(t: Tracker, d: BookDelta)
    requires t.ready
    ensures var (t', v) := t.Check(d);
            && (v == Duplicate <==> d.sequence <= t.lastSeq)
            && (v == Apply <==> GoesOn(t.rule, t.lastSeq, d))
            && (v == Gap <==> d.sequence > t.lastSeq && !GoesOn(t.rule, t.lastSeq, d))
            && t' == if v == Apply then t.(lastSeq := d.sequence) else t
  {
  }

  /** Without a snapshot a chained tracker asks for one; a ranged one anchors at the delta and lets it through. */
  lemma AnchorVerdicts(t: Tracker, d: BookDelta)
    requires !t.ready
    ensures t.Check(d) == match t.rule
                          case Chained => (t, NeedSnapshot)
                          case Ranged => (Tracker(Ranged, true, d.sequence), Apply)
  {
  }

  /** What the verdicts do to the book: only applying one changes its sides. */
  lemma VerdictEffects(f: Feed, d: BookDelta)
    ensures var g, v := ApplyEvent(f, DeltaEvent(d)), f.tracker.Check(d).1;
            match v
            case Apply => && SidesOf(g.book) == Patch(SidesOf(f.book), d) && g.book.state.ready == f.book.state.ready
                          && !g.book.state.stale
                          && g.book.state.sequence == d.sequence && g.book.state.lastUpdatedAt == d.receiveTime
            case Duplicate => g == f && Mutations(f, DeltaEvent(d)) == []
            case Stale => true
            case Gap => g.book == Invalidate(f.book) && !g.book.state.ready && g.tracker == f.tracker
            case NeedSnapshot => g.book == Invalidate(f.book) && !g.book.state.ready && g.tracker == f.tracker
  {
  }

  /** A genuine link from the tracker's point, by the next number or by name, is applied. */
  lemma RequiredLinkIsApplied(h: VenueHistory, t: Tracker, d: BookDelta)
    requires t.rule == Chained && t.ready && Links(h, t.lastSeq, d)
    requires d.sequence == t.lastSeq + 1 || d.prevSequence == t.lastSeq
    ensures t.Check(d) == (t.(lastSeq := d.sequence), Apply)
  {
    ReadyVerdicts(t, d);
  }

  lemma OldDeltaChangesNothing(f: Feed, d: BookDelta)
    requires f.tracker.ready && d.sequence <= f.tracker.lastSeq
    ensures ApplyEvent(f, DeltaEvent(d)) == f && Mutations(f, DeltaEvent(d)) == []
  {
    ReadyVerdicts(f.tracker, d);
  }

  // Feeds that arrive whole.

  function EndOf(from: int, ds: seq<BookDelta>): int {
    if ds == [] then from else ds[|ds| - 1].sequence
  }

  /** Each delta goes on from the one before it, and the first from `from`. */
  predicate InOrder(rule: Rule, from: int, ds: seq<BookDelta>) {
    ds != [] ==>
      && InOrder(rule, from, ds[..|ds| - 1])
      && GoesOn(rule, EndOf(from, ds[..|ds| - 1]), ds[|ds| - 1])
  }

  /** A snapshot and the deltas after it. */
  function FeedOf(s: BookSnapshot, ds: seq<BookDelta>): seq<MarketEvent> {
    if ds == [] then [SnapshotEvent(s)] else FeedOf(s, ds[..|ds| - 1]) + [DeltaEvent(ds[|ds| - 1])]
  }

  function PatchedBy(s: Sides, ds: seq<BookDelta>): Sides {
    if ds == [] then s else Patch(PatchedBy(s, ds[..|ds| - 1]), ds[|ds| - 1])
  }

  /** The feed has followed the deltas: ready, fresh, at their end, and patched with each of them. */
  ghost predicate Followed(f: Feed, s: BookSnapshot, ds: seq<BookDelta>) {
    && f.tracker.ready && f.tracker.lastSeq == EndOf(s.sequence, ds)
    && f.book.state.ready && !f.book.state.stale && f.book.state.sequence == EndOf(s.sequence, ds)
    && f.book.state.lastUpdatedAt == (if ds == [] then s.receiveTime else ds[|ds| - 1].receiveTime)
    && SidesOf(f.book) == PatchedBy(Sides(FoldSnapshot(s.bids), FoldSnapshot(s.asks)), ds)
  }

  lemma SnapshotFollowed(f: Feed, s: BookSnapshot)
    requires f.tracker.rule == Ranged ==> s.sequence >= f.tracker.lastSeq
    ensures Followed(ApplyEvent(f, SnapshotEvent(s)), s, [])
  {
  }

  lemma DeltaFollowed(f: Feed, s: BookSnapshot, ds: seq<BookDelta>, d: BookDelta)
    requires Followed(f, s, ds) && GoesOn(f.tracker.rule, EndOf(s.sequence, ds), d)
    ensures Followed(ApplyEvent(f, DeltaEvent(d)), s, ds + [d])
  {
    ReadyVerdicts(f.tracker, d);
    VerdictEffects(f, d);
    assert (ds + [d])[..|ds|] == ds;
    hide FoldDelta, FoldSnapshot, Patch;
  }

  lemma FeedOfMore(f: Feed, s: BookSnapshot, ds: seq<BookDelta>)
    requires ds != []
    ensures Deliver(f, FeedOf(s, ds)) == ApplyEvent(Deliver(f, FeedOf(s, ds[..|ds| - 1])), DeltaEvent(ds[|ds| - 1]))
  {
    hide ApplyEvent;
    var init := FeedOf(s, ds[..|ds| - 1]);
    assert FeedOf(s, ds) == init + [DeltaEvent(ds[|ds| - 1])] && FeedOf(s, ds)[..|init|] == init;
  }

  lemma {:induction false} RuleStays(f: Feed, evs: seq<MarketEvent>)
    ensures Deliver(f, evs).tracker.rule == f.tracker.rule
  {
    if evs != [] {
      RuleStays(f, evs[..|evs| - 1]);
    }
  }

  /**
    A feed that arrives whole and in order after a snapshot never gaps: from any state of the lane
    (for Binance, one the snapshot is not older than), every delta is applied and the book is ready.
   */
  lemma {:induction false} WholeFeedIsFollowed(f: Feed, s: BookSnapshot, ds: seq<BookDelta>)
    requires f.tracker.rule == Ranged ==> s.sequence >= f.tracker.lastSeq
    requires InOrder(f.tracker.rule, s.sequence, ds)
    ensures Followed(Deliver(f, FeedOf(s, ds)), s, ds)
  {
    hide ApplyEvent, Followed;
    if ds == [] {
      assert [SnapshotEvent(s)][..0] == [];
      assert Deliver(f, [SnapshotEvent(s)]) == ApplyEvent(f, SnapshotEvent(s));
      SnapshotFollowed(f, s);
    } else {
      var init, d := ds[..|ds| - 1], ds[|ds| - 1];
      WholeFeedIsFollowed(f, s, init);
      RuleStays(f, FeedOf(s, init));
      FeedOfMore(f, s, ds);
      DeltaFollowed(Deliver(f, FeedOf(s, init)), s, init, d);
      assert init + [d] == ds;
    }
  }

  /** The deltas are the history's own, each from where the one before it ended. */
  ghost predicate LinkedFrom(h: VenueHistory, from: int, ds: seq<BookDelta>) {
    ds != [] ==> LinkedFrom(h, from, ds[..|ds| - 1]) && Links(h, EndOf(from, ds[..|ds| - 1]), ds[|ds| - 1])
  }

  lemma {:induction false} LinkedPatches(h: VenueHistory, from: int, ds: seq<BookDelta>)
    requires LinkedFrom(h, from, ds)
    ensures PatchedBy(h.book(from), ds) == h.book(EndOf(from, ds))
  {
    hide FoldDelta;
    if ds != [] {
      LinkedPatches(h, from, ds[..|ds| - 1]);
    }
  }

  /** And then a chained feed's book is the venue's, ready, at the last delta. */
  lemma WholeChainedFeedIsTrue(h: VenueHistory, f: Feed, s: BookSnapshot, ds: seq<BookDelta>)
    requires f.tracker.rule == Chained && GenuineSnapshot(h, s)
    requires LinkedFrom(h, s.sequence, ds) && InOrder(Chained, s.sequence, ds)
    ensures var g := Deliver(f, FeedOf(s, ds));
            g.book.state.ready && g.book.state.sequence == EndOf(s.sequence, ds)
            && SidesOf(g.book) == h.book(EndOf(s.sequence, ds))
  {
    hide Deliver, FoldSnapshot, PatchedBy, LinkedFrom;
    WholeFeedIsFollowed(f, s, ds);
    GenuineSnapshotIff(h, s);
    LinkedPatches(h, s.sequence, ds);
  }

  lemma {:induction false} RangesPatch(h: VenueHistory, from: int, ds: seq<BookDelta>)
    requires ValidHistory(h) && InOrder(Ranged, from, ds) && forall i :: 0 <= i < |ds| ==> GenuineRange(h, ds[i])
    ensures PatchedBy(h.book(from), ds) == h.book(EndOf(from, ds))
  {
    hide FoldDelta, Covers, ValidHistory, GenuineRange, Patch;
    if ds != [] {
      var init, d := ds[..|ds| - 1], ds[|ds| - 1];
      RangesPatch(h, from, init);
      RangeLands(h, d, EndOf(from, init));
    }
  }

  /** And a ranged one's. */
  lemma WholeRangedFeedIsTrue(h: VenueHistory, f: Feed, s: BookSnapshot, ds: seq<BookDelta>)
    requires f.tracker.rule == Ranged && s.sequence >= f.tracker.lastSeq && ValidHistory(h) && GenuineSnapshot(h, s)
    requires InOrder(Ranged, s.sequence, ds) && forall i :: 0 <= i < |ds| ==> GenuineRange(h, ds[i])
    ensures var g := Deliver(f, FeedOf(s, ds));
            g.book.state.ready && g.book.state.sequence == EndOf(s.sequence, ds)
            && SidesOf(g.book) == h.book(EndOf(s.sequence, ds))
  {
    hide Deliver, FoldSnapshot, PatchedBy, InOrder, GenuineRange;
    WholeFeedIsFollowed(f, s, ds);
    GenuineSnapshotIff(h, s);
    RangesPatch(h, s.sequence, ds);
  }
}
