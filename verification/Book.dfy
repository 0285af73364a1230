/** The order book object: maps, reused sort buffers, and the published view (internal/book/book.go). */
module OrderBook {
  import opened Outcomes
  import opened Decimal
  import opened Domain
  import opened BookSpec
  import opened Vwap

  /** A view as handed out: its level arrays are allocated for it. */
  datatype SnapshotView = SnapshotView(bids: array<Level>, asks: array<Level>, state: State)

  ghost function Contents(v: SnapshotView): View
    reads v.bids, v.asks
  {
    View(v.bids[..], v.asks[..], v.state)
  }

  /** The single cell readers load the latest view from (internal/book/atomic.go). */
  class ViewCell {
    var view: Option<SnapshotView>
    ghost var history: seq<View>

    constructor ()
      ensures view == None && history == []
    {
      view, history := None, [];
    }

    method Store(v: SnapshotView)
      modifies this
      ensures view == Some(v) && history == old(history) + [Contents(v)]
    {
      view := Some(v);
      history := history + [Contents(v)];
    }
  }

  class Book {
    var bids: Depth
    var asks: Depth
    // Go's sortedBids and sortedAsks: backing arrays reused from one resort to the next.
    var bidBuf: array<Level>
    var bidLen: nat
    var askBuf: array<Level>
    var askLen: nat
    var dirty: bool
    var state: State
    // The publish hook, null when none is installed.
    const cell: ViewCell?
    // Every level array a reader has ever received.
    ghost var handed: set<array<Level>>

    ghost function Value(): BookValue
      reads this
    {
      BookValue(bids, asks, state)
    }

    ghost predicate Buffers()
      reads this, bidBuf, askBuf
    {
      && bidBuf != askBuf && bidBuf !in handed && askBuf !in handed
      && bidLen <= bidBuf.Length && askLen <= askBuf.Length
      && (!dirty ==> bidBuf[..bidLen] == Listing(Buy, bids) && askBuf[..askLen] == Listing(Sell, asks))
    }

    /** The stored view is the top of the current book, as soon as there has been a mutation. */
    ghost predicate Published()
      reads this, cell, handed
    {
      cell != null ==>
        && (state.version > 0 <==> cell.view.Some?)
        && (cell.view.Some? ==>
              && cell.view.value.bids in handed && cell.view.value.asks in handed
              && Contents(cell.view.value) == ViewOf(Value(), PUBLISH_DEPTH)
              && cell.history != [] && cell.history[|cell.history| - 1] == ViewOf(Value(), PUBLISH_DEPTH))
    }

    ghost predicate Valid()
      reads this, bidBuf, askBuf, cell, handed
    {
      WellFormed(Value()) && Buffers() && Published()
    }

    /** Between a call's two states: readers' arrays are kept as they were, new ones are new objects. */
    twostate predicate ViewsKept()
      reads this, handed, bidBuf, askBuf
    {
      && old(handed) <= handed && fresh(handed - old(handed))
      && (forall a :: a in old(handed) ==> a[..] == old(a[..]))
      && (bidBuf == old(bidBuf) || fresh(bidBuf)) && (askBuf == old(askBuf) || fresh(askBuf))
    }

    constructor (hook: ViewCell?)
      requires hook != null ==> hook.view == None
      ensures Valid() && Value() == EmptyBook && cell == hook && handed == {}
      ensures fresh(bidBuf) && fresh(askBuf)
    {
      bids, asks, dirty, state, cell, handed := map[], map[], false, EmptyBook.state, hook, {};
      bidBuf, bidLen := new Level[0], 0;
      askBuf, askLen := new Level[0], 0;
      new;
      EmptyListing(Buy);
      EmptyListing(Sell);
    }

    method LoadSnapshot(snap: BookSnapshot)
      requires Valid()
      modifies this, cell, bidBuf, askBuf
      ensures Valid() && ViewsKept()
      ensures Value() == BookSpec.LoadSnapshot(old(Value()), snap)
      ensures Shows(bids, snap.bids) && Shows(asks, snap.asks)
      ensures state.ready && !state.stale && state.sequence == snap.sequence
      ensures state.lastUpdatedAt == snap.receiveTime && state.version == old(state.version) + 1
      ensures cell != null ==> cell.history == old(cell.history) + [ViewOf(Value(), PUBLISH_DEPTH)]
    {
      bids := ReplaceSide(snap.bids);
      asks := ReplaceSide(snap.asks);
      dirty := true;
      state := State(true, false, snap.sequence, snap.receiveTime, state.version + 1);
      ShownIsFold(bids, snap.bids);
      ShownIsFold(asks, snap.asks);
      hide Shows;
      Emit();
    }

    method ApplyDelta(d: BookDelta)
      requires Valid()
      modifies this, cell, bidBuf, askBuf
      ensures Valid() && ViewsKept()
      ensures Value() == BookSpec.ApplyDelta(old(Value()), d)
      ensures Folded(old(bids), d.bids, bids) && Folded(old(asks), d.asks, asks)
      ensures state == old(state).(sequence := d.sequence, lastUpdatedAt := d.receiveTime, version := state.version)
      ensures state.version == old(state.version) + 1
      ensures cell != null ==> cell.history == old(cell.history) + [ViewOf(Value(), PUBLISH_DEPTH)]
    {
      bids := UpdateSide(bids, d.bids);
      asks := UpdateSide(asks, d.asks);
      dirty := true;
      state := state.(sequence := d.sequence, lastUpdatedAt := d.receiveTime, version := state.version + 1);
      FoldedByDelta(old(bids), d.bids);
      FoldedByDelta(old(asks), d.asks);
      hide Folded;
      Emit();
    }

    method Invalidate()
      requires Valid()
      modifies this, cell, bidBuf, askBuf
      ensures Valid() && ViewsKept()
      ensures Value() == BookSpec.Invalidate(old(Value()))
      ensures bids == old(bids) && asks == old(asks) && !state.ready
      ensures cell != null ==> cell.history == old(cell.history) + [ViewOf(Value(), PUBLISH_DEPTH)]
    {
      state := state.(ready := false, version := state.version + 1);
      Emit();
    }

    method MarkStale(stale: bool)
      requires Valid()
      modifies this, cell, bidBuf, askBuf
      ensures Valid() && ViewsKept()
      ensures Value() == BookSpec.MarkStale(old(Value()), stale)
      ensures bids == old(bids) && asks == old(asks) && state.stale == stale && state.ready == old(state.ready)
      ensures cell != null ==> cell.history == old(cell.history)
                               + (if old(state).stale != stale then [ViewOf(Value(), PUBLISH_DEPTH)] else [])
    {
      if state.stale != stale {
        state := state.(stale := stale, version := state.version + 1);
        Emit();
      }
    }

    /** Publishes the current book through the hook. */
    method Emit()
      requires WellFormed(Value()) && Buffers() && state.version > 0
      modifies this`bidBuf, this`bidLen, this`askBuf, this`askLen, this`dirty, this`handed, cell, bidBuf, askBuf
      ensures Valid() && ViewsKept()
      ensures cell != null ==> cell.history == old(cell.history) + [ViewOf(Value(), PUBLISH_DEPTH)]
    {
      if cell != null {
        var v := Snapshot(PUBLISH_DEPTH);
        cell.Store(v);
      }
    }

    /** Re-sorts both sides into the reused buffers, unless they are up to date. */
    method Resort()
      requires Buffers()
      modifies this`bidBuf, this`bidLen, this`askBuf, this`askLen, this`dirty, bidBuf, askBuf
      ensures Buffers() && !dirty && ViewsKept()
    {
      if dirty {
        bidBuf, bidLen := Refill(Buy, bids, bidBuf);
        askBuf, askLen := Refill(Sell, asks, askBuf);
        dirty := false;
      }
    }

    /** Up to `limit` levels of a side, best first, in an array of their own. */
    method Depth(side: Side, limit: nat) returns (out: array<Level>)
      requires Buffers()
      modifies this`bidBuf, this`bidLen, this`askBuf, this`askLen, this`dirty, this`handed, bidBuf, askBuf
      ensures Buffers() && ViewsKept() && fresh(out) && out in handed
      ensures out[..] == Top(Listing(side, if side == Buy then bids else asks), limit)
    {
      Resort();
      var src, n := bidBuf, bidLen;
      if side == Sell {
        src, n := askBuf, askLen;
      }
      out := FirstLevels(src, if limit > n then n else limit);
      assert out[..] == Top(src[..n], limit);
      handed := handed + {out};
    }

    /** The walk over the whole side, up to 2^30 levels of it. */
    method VWAP(side: Side, qty: Fixed) returns (r: Checked<Quote>)
      requires Buffers()
      modifies this`bidBuf, this`bidLen, this`askBuf, this`askLen, this`dirty, this`handed, bidBuf, askBuf
      ensures Buffers() && ViewsKept()
      ensures r == if qty <= 0 then Done(NoQuote)
                   else VwapOf(Top(Listing(side, if side == Buy then bids else asks), 0x4000_0000), qty)
    {
      if qty <= 0 {
        return Done(NoQuote);
      }
      var levels := Depth(side, 0x4000_0000);
      r := WalkLevels(levels, qty);
    }

    method Snapshot(depth: nat) returns (v: SnapshotView)
      requires Buffers()
      modifies this`bidBuf, this`bidLen, this`askBuf, this`askLen, this`dirty, this`handed, bidBuf, askBuf
      ensures Buffers() && ViewsKept()
      ensures v.bids in handed && v.asks in handed && fresh(v.bids) && fresh(v.asks)
      ensures Contents(v) == ViewOf(Value(), depth)
    {
      var b := Depth(Buy, depth);
      var a := Depth(Sell, depth);
      v := SnapshotView(b, a, state);
    }
  }

  method FirstLevels(src: array<Level>, m: nat) returns (out: array<Level>)
    requires m <= src.Length
    ensures fresh(out) && out[..] == src[..m]
  {
    out := new Level[m];
    forall i | 0 <= i < m {
      out[i] := src[i];
    }
  }

  /** The loop of Book.VWAP. */
  method WalkLevels(levels: array<Level>, qty: Fixed) returns (r: Checked<Quote>)
    ensures r == VwapOf(levels[..], qty)
  {
    var remaining: Fixed, cost: Fixed, filled: Fixed := qty, 0, 0;
    ghost var all := levels[..];
    assert all[0..] == all;
    var i := 0;
    while i < levels.Length
      invariant 0 <= i <= levels.Length
      invariant VisitAll(all[i..], WalkState(remaining, cost, filled)) == VisitAll(all, WalkState(qty, 0, 0))
    {
      var l := levels[i];
      assert all[i..][1..] == all[i + 1..];
      var take: Fixed := if l.qty > remaining then remaining else l.qty;
      var notional :- Mul(l.price, take);
      cost :- Add(cost, notional);
      filled :- Add(filled, take);
      remaining :- Sub(remaining, take);
      if remaining == 0 {
        assert VisitAll(all, WalkState(qty, 0, 0)) == Done(WalkState(remaining, cost, filled));
        break;
      }
      i := i + 1;
    }
    assert VisitAll(all, WalkState(qty, 0, 0)) == Done(WalkState(remaining, cost, filled));
    if filled == 0 {
      return Done(NoQuote);
    }
    var vwap :- Div(cost, filled);
    r := Done(Quote(vwap, filled, cost, remaining == 0));
  }

  lemma EmptyListing(side: Side)
    ensures Listing(side, map[]) == []
  {
    ListingOf(side, [], map[]);
  }

  /** The loop over one side of a snapshot. */
  method ReplaceSide(levels: seq<Level>) returns (m: Domain.Depth)
    ensures m == FoldSnapshot(levels) && Positive(m)
  {
    m := map[];
    for i := 0 to |levels|
      invariant m == FoldSnapshot(levels[..i])
    {
      assert levels[..i + 1][..i] == levels[..i];
      var l := levels[i];
      if l.qty > 0 {
        m := m[l.price := l.qty];
      }
    }
    assert levels[..|levels|] == levels;
    FoldSnapshotPositive(levels);
  }

  /** The loop over one side of a delta. */
  method UpdateSide(side: Domain.Depth, levels: seq<Level>) returns (m: Domain.Depth)
    ensures m == FoldDelta(side, levels)
    ensures Positive(side) ==> Positive(m)
  {
    m := side;
    for i := 0 to |levels|
      invariant m == FoldDelta(side, levels[..i])
    {
      assert levels[..i + 1][..i] == levels[..i];
      var l := levels[i];
      if l.qty == 0 {
        m := m - {l.price};
      } else if l.qty > 0 {
        m := m[l.price := l.qty];
      }
    }
    assert levels[..|levels|] == levels;
    if Positive(side) {
      FoldDeltaPositive(side, levels);
    }
  }

  /** Go's append: in place while there is room, into a larger array otherwise. */
  method Append(buf: array<Level>, n: nat, l: Level) returns (out: array<Level>)
    requires n <= buf.Length
    modifies buf
    ensures out == buf || fresh(out)
    ensures n < out.Length && out[..n + 1] == old(buf[..n]) + [l]
  {
    out := buf;
    if n == buf.Length {
      out := new Level[2 * n + 1];
      forall i | 0 <= i < n {
        out[i] := buf[i];
      }
    }
    out[n] := l;
  }

  /** Ranges over the map in whatever order, appends every entry, then sorts in place. */
  method Refill(side: Side, m: Domain.Depth, buf: array<Level>) returns (out: array<Level>, n: nat)
    modifies buf
    ensures out == buf || fresh(out)
    ensures n <= out.Length && out[..n] == Listing(side, m)
  {
    out, n := buf, 0;
    var rest := m.Keys;
    while rest != {}
      invariant out == buf || fresh(out)
      invariant rest <= m.Keys && n <= out.Length
      invariant Distinct(out[..n]) && Holds(out[..n], m - rest)
    {
      var p :| p in rest;
      AppendHolds(out[..n], m - rest, m, p);
      out := Append(out, n, Level(p, m[p]));
      assert m - (rest - {p}) == (m - rest)[p := m[p]];
      rest, n := rest - {p}, n + 1;
    }
    assert m - {} == m;
    HoldsSorted(side, out[..n], m);
    SortIsListing(side, out[..n]);
    SortInPlace(side, out, n);
    ListingOf(side, out[..n], m);
  }

  lemma AppendHolds(s: seq<Level>, m: Domain.Depth, whole: Domain.Depth, p: Fixed)
    requires Distinct(s) && Holds(s, m) && p in whole && p !in m
    ensures Distinct(s + [Level(p, whole[p])])
    ensures Holds(s + [Level(p, whole[p])], m[p := whole[p]])
  {
  }

  /** sort.Slice by its effect on the first `n` elements. */
  method SortInPlace(side: Side, buf: array<Level>, n: nat)
    requires n <= buf.Length && Distinct(buf[..n])
    modifies buf
    ensures buf[..n] == Sort(side, old(buf[..n]))
  {
    var s := Sort(side, buf[..n]);
    SortIsListing(side, buf[..n]);
    forall i | 0 <= i < n {
      buf[i] := s[i];
    }
  }
}
