/**
  One book lane of the market-data pipeline (internal/marketdata/pipeline.go): submitters,
  the worker and the staleness sweeper, interleaved at the lock and channel operations.
 */
module Lane {
  import opened Outcomes
  import opened Domain
  import opened BookSpec
  import opened Sequence
  import opened Reconstruction

  /** `published` is every view the cell has held; the last five fields only keep accounts. */
  datatype LaneState = LaneState(
    feed: Feed,
    queue: seq<MarketEvent>,
    received: Option<MarketEvent>,
    overloads: nat,
    published: seq<View>,
    accepted: seq<MarketEvent>,
    applied: seq<MarketEvent>,
    refused: nat,
    invalidations: nat)

  datatype LaneConfig = LaneConfig(capacity: nat, maxBookAge: int)

  /**
    A submitter whose send would block goes on to invalidate the book, but takes the lock
    later (`Overload`). The worker takes an event off the channel (`Receive`) and applies it
    under the lock (`ApplyReceived`). The sweeper locks the lane on its own. `Direct` is
    ApplySync: the caller applies an event under the lock, past the channel.
   */
  datatype Step =
    | Submit(event: MarketEvent)
    | Overload
    | Receive
    | ApplyReceived
    | Sweep(now: int)
    | Direct(event: MarketEvent)

  ghost function ViewsOf(bs: seq<BookValue>): seq<View> {
    if bs == [] then [] else ViewsOf(bs[..|bs| - 1]) + [ViewOf(bs[|bs| - 1], PUBLISH_DEPTH)]
  }

  function NewLane(rule: Rule): LaneState {
    LaneState(NewFeed(rule), [], None, 0, [], [], [], 0, 0)
  }

  predicate Enabled(s: LaneState, step: Step) {
    match step
    case Submit(_) => true
    case Overload => s.overloads > 0
    case Receive => s.received.None? && s.queue != []
    case ApplyReceived => s.received.Some?
    case Sweep(_) => true
    case Direct(_) => true
  }

  /** The book a sweep leaves behind. */
  function Swept(cfg: LaneConfig, b: BookValue, now: int): BookValue {
    if b.state.ready then MarkStale(b, now - b.state.lastUpdatedAt > cfg.maxBookAge) else b
  }

  ghost function Next(cfg: LaneConfig, s: LaneState, step: Step): LaneState
    requires Enabled(s, step)
  {
    match step
    case Submit(ev) =>
      if |s.queue| < cfg.capacity then s.(queue := s.queue + [ev], accepted := s.accepted + [ev])
      else s.(overloads := s.overloads + 1, refused := s.refused + 1)
    case Overload =>
      var b := Invalidate(s.feed.book);
      s.(feed := s.feed.(book := b), overloads := s.overloads - 1,
         published := s.published + ViewsOf([b]), invalidations := s.invalidations + 1)
    case Receive =>
      s.(queue := s.queue[1..], received := Some(s.queue[0]))
    case ApplyReceived =>
      var ev := s.received.value;
      s.(feed := ApplyEvent(s.feed, ev), received := None,
         published := s.published + ViewsOf(Mutations(s.feed, ev)), applied := s.applied + [ev])
    case Sweep(now) =>
      var b := Swept(cfg, s.feed.book, now);
      s.(feed := s.feed.(book := b), published := s.published + (if b == s.feed.book then [] else ViewsOf([b])))
    case Direct(ev) =>
      s.(feed := ApplyEvent(s.feed, ev), published := s.published + ViewsOf(Mutations(s.feed, ev)))
  }

  // Runs.

  /** What the venue owes: genuine messages, and for Binance no snapshot older than the tracker. */
  ghost predicate VenuePromise(h: VenueHistory, s: LaneState, step: Step) {
    match step
    case Submit(ev) => Genuine(h, s.feed.tracker.rule, ev)
    case ApplyReceived => s.feed.tracker.rule == Ranged && s.received.Some? ==> Forward(s.feed, s.received.value)
    case Overload => true
    case Receive => true
    case Sweep(_) => true
    case Direct(ev) =>
      && Genuine(h, s.feed.tracker.rule, ev)
      && (s.feed.tracker.rule == Ranged ==> Forward(s.feed, ev))
  }

  /** A step that is not enabled cannot happen; it is recorded as no step at all. */
  ghost function Run(cfg: LaneConfig, s: LaneState, steps: seq<Step>): LaneState {
    if steps == [] then s
    else
      var t := Run(cfg, s, steps[..|steps| - 1]);
      if Enabled(t, steps[|steps| - 1]) then Next(cfg, t, steps[|steps| - 1]) else t
  }

  ghost predicate PromiseKept(h: VenueHistory, cfg: LaneConfig, s: LaneState, steps: seq<Step>) {
    steps != [] ==>
      && PromiseKept(h, cfg, s, steps[..|steps| - 1])
      && VenuePromise(h, Run(cfg, s, steps[..|steps| - 1]), steps[|steps| - 1])
  }

  // The invariant.

  ghost predicate FeedInv(h: VenueHistory, f: Feed) {
    match f.tracker.rule
    case Chained => ChainedInv(h, f)
    case Ranged => ForwardInv(h, f)
  }

  /** A ready view is the top of the venue's own book at the view's sequence number. */
  ghost predicate TrueView(h: VenueHistory, v: View) {
    v.state.ready ==>
      && h.points(v.state.sequence)
      && v.bids == Top(Listing(Buy, h.book(v.state.sequence).bids), 512)
      && v.asks == Top(Listing(Sell, h.book(v.state.sequence).asks), 512)
  }

  ghost predicate AllTrue(h: VenueHistory, vs: seq<View>) {
    forall i :: 0 <= i < |vs| ==> TrueView(h, vs[i]) && GoodView(vs[i])
  }

  /** Versions of published views strictly increase and the last one is the book's. */
  predicate Versioned(vs: seq<View>, version: nat) {
    && (forall i, j :: 0 <= i < j < |vs| ==> vs[i].state.version < vs[j].state.version)
    && (forall i :: 0 <= i < |vs| ==> 0 < vs[i].state.version <= version)
    && (if vs == [] then version == 0 else vs[|vs| - 1].state.version == version)
  }

  /** The cell holds the top of the current book once the book has changed. */
  ghost predicate Fresh(s: LaneState) {
    s.published != [] ==> s.published[|s.published| - 1] == ViewOf(s.feed.book, PUBLISH_DEPTH)
  }

  function InHand(s: LaneState): seq<MarketEvent> {
    match s.received
    case None => []
    case Some(ev) => [ev]
  }

  /** Accepted and not yet applied, oldest first. */
  function Outstanding(s: LaneState): seq<MarketEvent> {
    InHand(s) + s.queue
  }

  /** Submitted events are applied in order, in hand, or queued; each other one invalidates. */
  predicate Accounts(s: LaneState) {
    s.accepted == s.applied + Outstanding(s) && s.refused == s.invalidations + s.overloads
  }

  ghost predicate LaneInv(h: VenueHistory, s: LaneState) {
    && FeedInv(h, s.feed)
    && (forall ev :: ev in Outstanding(s) ==> Genuine(h, s.feed.tracker.rule, ev))
    && AllTrue(h, s.published)
    && Versioned(s.published, s.feed.book.state.version)
    && Fresh(s)
    && Accounts(s)
  }

  // Each kind of mutation publishes true views under larger versions.

  /** The versions of a mutation list count up from the book before it. */
  predicate Counts(b: BookValue, bs: seq<BookValue>) {
    forall i :: 0 <= i < |bs| ==> bs[i].state.version == b.state.version + 1 + i
  }

  ghost predicate FaithfulBooks(h: VenueHistory, bs: seq<BookValue>) {
    forall i :: 0 <= i < |bs| ==> FaithfulBook(h, bs[i])
  }

  lemma {:induction false} PublishTrue(h: VenueHistory, vs: seq<View>, bs: seq<BookValue>)
    requires AllTrue(h, vs) && FaithfulBooks(h, bs)
    ensures AllTrue(h, vs + ViewsOf(bs))
  {
    if bs == [] {
      assert vs + ViewsOf(bs) == vs;
    } else {
      PublishTrue(h, vs, bs[..|bs| - 1]);
      ViewOfIsGood(bs[|bs| - 1], PUBLISH_DEPTH);
      ViewsOfLast(vs, bs);
    }
  }

  lemma VersionedAppend(vs: seq<View>, v: View, version: nat)
    requires Versioned(vs, version) && v.state.version == version + 1
    ensures Versioned(vs + [v], version + 1)
  {
  }

  lemma ViewsOfLast(vs: seq<View>, bs: seq<BookValue>)
    requires bs != []
    ensures vs + ViewsOf(bs) == (vs + ViewsOf(bs[..|bs| - 1])) + [ViewOf(bs[|bs| - 1], PUBLISH_DEPTH)]
  {
    Associative(vs, ViewsOf(bs[..|bs| - 1]), [ViewOf(bs[|bs| - 1], PUBLISH_DEPTH)]);
  }

  lemma Associative<T>(a: seq<T>, b: seq<T>, c: seq<T>)
    ensures a + (b + c) == (a + b) + c
  {
  }

  lemma {:induction false} PublishVersions(vs: seq<View>, b: BookValue, bs: seq<BookValue>)
    requires Versioned(vs, b.state.version) && Counts(b, bs)
    ensures Versioned(vs + ViewsOf(bs), b.state.version + |bs|)
  {
    if bs == [] {
      assert vs + ViewsOf(bs) == vs;
    } else {
      PublishVersions(vs, b, bs[..|bs| - 1]);
      ViewsOfLast(vs, bs);
      VersionedAppend(vs + ViewsOf(bs[..|bs| - 1]), ViewOf(bs[|bs| - 1], PUBLISH_DEPTH), b.state.version + |bs| - 1);
    }
  }

  lemma PublishKeeps(h: VenueHistory, s: LaneState, t: LaneState, bs: seq<BookValue>)
    requires LaneInv(h, s) && FaithfulBooks(h, bs) && Counts(s.feed.book, bs)
    requires t.published == s.published + ViewsOf(bs)
    requires t.feed.book == if bs == [] then s.feed.book else bs[|bs| - 1]
    ensures AllTrue(h, t.published) && Versioned(t.published, t.feed.book.state.version) && Fresh(t)
  {
    PublishTrue(h, s.published, bs);
    PublishVersions(s.published, s.feed.book, bs);
    if bs == [] {
      assert t.published == s.published;
    } else {
      ViewsOfLast(s.published, bs);
    }
  }

  lemma MutationsCount(f: Feed, ev: MarketEvent)
    ensures Counts(f.book, Mutations(f, ev))
  {
  }

  lemma EventStep(h: VenueHistory, f: Feed, ev: MarketEvent)
    requires ValidHistory(h) && FeedInv(h, f) && Genuine(h, f.tracker.rule, ev)
    requires f.tracker.rule == Ranged ==> Forward(f, ev)
    ensures FeedInv(h, ApplyEvent(f, ev)) && FaithfulBooks(h, Mutations(f, ev))
    ensures ApplyEvent(f, ev).tracker.rule == f.tracker.rule
  {
    match f.tracker.rule
    case Chained => ChainedStep(h, f, ev);
    case Ranged => ForwardStep(h, f, ev);
  }

  /** Invalidating and marking change neither side nor sequence, so they keep the feed true. */
  lemma RemarkStep(h: VenueHistory, f: Feed, b: BookValue)
    requires FeedInv(h, f)
    requires b == Invalidate(f.book) || exists stale :: b == MarkStale(f.book, stale)
    ensures FeedInv(h, f.(book := b)) && FaithfulBook(h, b)
  {
  }

  lemma SubmitKeepsInv(h: VenueHistory, cfg: LaneConfig, s: LaneState, ev: MarketEvent)
    requires LaneInv(h, s) && Genuine(h, s.feed.tracker.rule, ev)
    ensures LaneInv(h, Next(cfg, s, Submit(ev)))
  {
    var t := Next(cfg, s, Submit(ev));
    if |s.queue| < cfg.capacity {
      assert Outstanding(t) == Outstanding(s) + [ev];
    }
  }

  lemma ReceiveKeepsInv(h: VenueHistory, cfg: LaneConfig, s: LaneState)
    requires LaneInv(h, s) && Enabled(s, Receive)
    ensures LaneInv(h, Next(cfg, s, Receive))
  {
    var t := Next(cfg, s, Receive);
    assert Outstanding(t) == [s.queue[0]] + s.queue[1..] == Outstanding(s);
  }

  lemma ApplyKeepsAccounts(cfg: LaneConfig, s: LaneState)
    requires Accounts(s) && Enabled(s, ApplyReceived)
    ensures Accounts(Next(cfg, s, ApplyReceived))
    ensures Outstanding(s) == [s.received.value] + Outstanding(Next(cfg, s, ApplyReceived))
  {
    var t, ev := Next(cfg, s, ApplyReceived), s.received.value;
    assert Outstanding(s) == [ev] + Outstanding(t);
    assert s.applied + ([ev] + Outstanding(t)) == t.applied + Outstanding(t);
  }

  lemma ApplyKeepsInv(h: VenueHistory, cfg: LaneConfig, s: LaneState)
    requires ValidHistory(h) && LaneInv(h, s) && Enabled(s, ApplyReceived) && VenuePromise(h, s, ApplyReceived)
    ensures LaneInv(h, Next(cfg, s, ApplyReceived))
    ensures Next(cfg, s, ApplyReceived).feed.tracker.rule == s.feed.tracker.rule
  {
    var t, ev := Next(cfg, s, ApplyReceived), s.received.value;
    ApplyKeepsAccounts(cfg, s);
    assert Outstanding(s)[0] == ev;
    EventStep(h, s.feed, ev);
    MutationsCount(s.feed, ev);
    PublishKeeps(h, s, t, Mutations(s.feed, ev));
  }

  lemma OverloadKeepsInv(h: VenueHistory, cfg: LaneConfig, s: LaneState)
    requires LaneInv(h, s) && Enabled(s, Overload)
    ensures LaneInv(h, Next(cfg, s, Overload))
  {
    var b := Invalidate(s.feed.book);
    RemarkStep(h, s.feed, b);
    PublishKeeps(h, s, Next(cfg, s, Overload), [b]);
  }

  lemma SweepKeepsInv(h: VenueHistory, cfg: LaneConfig, s: LaneState, now: int)
    requires LaneInv(h, s)
    ensures LaneInv(h, Next(cfg, s, Sweep(now)))
  {
    var b := Swept(cfg, s.feed.book, now);
    if b != s.feed.book {
      RemarkStep(h, s.feed, b);
      PublishKeeps(h, s, Next(cfg, s, Sweep(now)), [b]);
    } else {
      assert s.published + [] == s.published;
    }
  }

  lemma DirectKeepsInv(h: VenueHistory, cfg: LaneConfig, s: LaneState, ev: MarketEvent)
    requires ValidHistory(h) && LaneInv(h, s) && VenuePromise(h, s, Direct(ev))
    ensures LaneInv(h, Next(cfg, s, Direct(ev)))
    ensures Next(cfg, s, Direct(ev)).feed.tracker.rule == s.feed.tracker.rule
  {
    EventStep(h, s.feed, ev);
    MutationsCount(s.feed, ev);
    PublishKeeps(h, s, Next(cfg, s, Direct(ev)), Mutations(s.feed, ev));
  }

  lemma StepKeepsInv(h: VenueHistory, cfg: LaneConfig, s: LaneState, step: Step)
    requires ValidHistory(h) && LaneInv(h, s) && Enabled(s, step) && VenuePromise(h, s, step)
    ensures LaneInv(h, Next(cfg, s, step))
    ensures Next(cfg, s, step).feed.tracker.rule == s.feed.tracker.rule
  {
    match step
    case Submit(ev) => SubmitKeepsInv(h, cfg, s, ev);
    case Overload => OverloadKeepsInv(h, cfg, s);
    case Receive => ReceiveKeepsInv(h, cfg, s);
    case ApplyReceived => ApplyKeepsInv(h, cfg, s);
    case Sweep(now) => SweepKeepsInv(h, cfg, s, now);
    case Direct(ev) => DirectKeepsInv(h, cfg, s, ev);
  }

  /**
    Lane safety: under every interleaving, every view ever published as ready is the top 512
    levels per side of the venue's book at the view's sequence number; versions strictly
    increase; the cell is current; and no event is lost without the book being invalidated.
   */
  lemma {:induction false} LaneSafety(h: VenueHistory, cfg: LaneConfig, rule: Rule, steps: seq<Step>)
    requires ValidHistory(h) && PromiseKept(h, cfg, NewLane(rule), steps)
    ensures LaneInv(h, Run(cfg, NewLane(rule), steps))
    ensures Run(cfg, NewLane(rule), steps).feed.tracker.rule == rule
  {
    if steps != [] {
      var init, last := steps[..|steps| - 1], steps[|steps| - 1];
      LaneSafety(h, cfg, rule, init);
      var t := Run(cfg, NewLane(rule), init);
      if Enabled(t, last) {
        StepKeepsInv(h, cfg, t, last);
      }
    }
  }

  // What a sweep leaves behind.

  /** Once anything has been published, the cell holds the current book; before that, it is as created. */
  ghost predicate CellIsCurrent(s: LaneState) {
    Fresh(s) && (s.published == [] ==> s.feed.book == EmptyBook)
  }

  lemma StepKeepsCurrent(cfg: LaneConfig, s: LaneState, step: Step)
    requires CellIsCurrent(s) && Enabled(s, step)
    ensures CellIsCurrent(Next(cfg, s, step))
  {
    var t := Next(cfg, s, step);
    match step
    case Submit(ev) =>
    case Overload => PublishedLast(s.published, [Invalidate(s.feed.book)]);
    case Receive =>
    case ApplyReceived => PublishedMutations(s.published, s.feed, s.received.value);
    case Sweep(now) =>
      var b := Swept(cfg, s.feed.book, now);
      if b != s.feed.book {
        PublishedLast(s.published, [b]);
      } else {
        assert s.published + [] == s.published;
      }
    case Direct(ev) => PublishedMutations(s.published, s.feed, ev);
  }

  lemma PublishedLast(vs: seq<View>, bs: seq<BookValue>)
    requires bs != []
    ensures var all := vs + ViewsOf(bs);
            all != [] && all[|all| - 1] == ViewOf(bs[|bs| - 1], PUBLISH_DEPTH)
  {
    hide ViewOf;
  }

  lemma PublishedMutations(vs: seq<View>, f: Feed, ev: MarketEvent)
    ensures var ms, all := Mutations(f, ev), vs + ViewsOf(Mutations(f, ev));
            if ms == [] then all == vs && ApplyEvent(f, ev).book == f.book
            else all != [] && all[|all| - 1] == ViewOf(ApplyEvent(f, ev).book, PUBLISH_DEPTH)
  {
    hide ViewOf, Mutations;
    var ms := Mutations(f, ev);
    if ms == [] {
      assert vs + ViewsOf(ms) == vs;
    } else {
      PublishedLast(vs, ms);
    }
  }

  lemma {:induction false} RunIsCurrent(cfg: LaneConfig, rule: Rule, steps: seq<Step>)
    ensures CellIsCurrent(Run(cfg, NewLane(rule), steps))
  {
    hide CellIsCurrent, Next, Enabled;
    if steps == [] {
      NewIsCurrent(rule);
    } else {
      var init := steps[..|steps| - 1];
      RunIsCurrent(cfg, rule, init);
      if Enabled(Run(cfg, NewLane(rule), init), steps[|steps| - 1]) {
        StepKeepsCurrent(cfg, Run(cfg, NewLane(rule), init), steps[|steps| - 1]);
      }
    }
  }

  lemma NewIsCurrent(rule: Rule)
    ensures CellIsCurrent(NewLane(rule))
  {
  }

  /** A sweep marks a ready book stale if it is too old, takes the mark off if it is not, and changes nothing else. */
  lemma SweepMarks(cfg: LaneConfig, s: LaneState, now: int)
    ensures var b, c := s.feed.book, Next(cfg, s, Sweep(now)).feed.book;
            && c.bids == b.bids && c.asks == b.asks && c.state.ready == b.state.ready
            && c.state.sequence == b.state.sequence && c.state.lastUpdatedAt == b.state.lastUpdatedAt
            && (b.state.ready ==> (c.state.stale <==> now - b.state.lastUpdatedAt > cfg.maxBookAge))
            && (!b.state.ready ==> c == b)
  {
  }

  /**
    Over any run: after a sweep the cell's view, if it is ready, is stale exactly when the book was
    too old at that sweep.
   */
  lemma SweptViewIsMarked(cfg: LaneConfig, rule: Rule, steps: seq<Step>, now: int)
    ensures var t := Run(cfg, NewLane(rule), steps + [Sweep(now)]);
            t.published != [] && t.published[|t.published| - 1].state.ready ==>
              var state := t.published[|t.published| - 1].state;
              state.stale <==> now - state.lastUpdatedAt > cfg.maxBookAge
  {
    var all := steps + [Sweep(now)];
    assert all[..|all| - 1] == steps;
    RunIsCurrent(cfg, rule, all);
    SweepMarks(cfg, Run(cfg, NewLane(rule), steps), now);
    assert Run(cfg, NewLane(rule), all) == Next(cfg, Run(cfg, NewLane(rule), steps), Sweep(now));
  }

  // From an invalidation to the next snapshot.

  predicate AppliesSnapshot(s: LaneState, step: Step) {
    || (step.ApplyReceived? && s.received.Some? && s.received.value.SnapshotEvent?)
    || (step.Direct? && step.event.SnapshotEvent?)
  }

  /** No step of the run applies a snapshot. */
  ghost predicate NoSnapshotApplied(cfg: LaneConfig, s: LaneState, steps: seq<Step>) {
    steps != [] ==>
      && NoSnapshotApplied(cfg, s, steps[..|steps| - 1])
      && !AppliesSnapshot(Run(cfg, s, steps[..|steps| - 1]), steps[|steps| - 1])
  }

  predicate AppliesGap(s: LaneState, step: Step) {
    var ev := if step.Direct? then Some(step.event) else if step.ApplyReceived? then s.received else None;
    && ev.Some? && ev.value.DeltaEvent?
    && s.feed.tracker.Check(ev.value.delta).1 in {Gap, NeedSnapshot}
  }

  /** An overload, or applying a delta with a gap, leaves the book and its view not ready. */
  lemma LossInvalidates(cfg: LaneConfig, s: LaneState, step: Step)
    requires Enabled(s, step)
    requires step == Overload || AppliesGap(s, step)
    ensures !Next(cfg, s, step).feed.book.state.ready
    ensures |Next(cfg, s, step).published| == |s.published| + 1
    ensures !Next(cfg, s, step).published[|s.published|].state.ready
  {
    var b := Invalidate(s.feed.book);
    assert [b][..0] == [];
    assert ViewsOf([b]) == [] + [ViewOf(b, PUBLISH_DEPTH)];
  }

  predicate NoneReady(vs: seq<View>) {
    forall i :: 0 <= i < |vs| ==> !vs[i].state.ready
  }

  lemma {:induction false} ViewsNotReady(bs: seq<BookValue>)
    requires forall i :: 0 <= i < |bs| ==> !bs[i].state.ready
    ensures NoneReady(ViewsOf(bs))
  {
    if bs != [] {
      ViewsNotReady(bs[..|bs| - 1]);
    }
  }

  lemma StaysNotReady(cfg: LaneConfig, s: LaneState, step: Step)
    requires Enabled(s, step) && !s.feed.book.state.ready && !AppliesSnapshot(s, step)
    ensures var t := Next(cfg, s, step);
            && !t.feed.book.state.ready
            && s.published <= t.published && NoneReady(t.published[|s.published|..])
  {
    var t := Next(cfg, s, step);
    match step
    case Submit(ev) =>
    case Overload =>
      ViewsNotReady([Invalidate(s.feed.book)]);
      assert t.published[|s.published|..] == ViewsOf([Invalidate(s.feed.book)]);
    case Receive =>
    case ApplyReceived =>
      var ms := Mutations(s.feed, s.received.value);
      ViewsNotReady(ms);
      assert t.published[|s.published|..] == ViewsOf(ms);
    case Sweep(now) =>
    case Direct(ev) =>
      ViewsNotReady(Mutations(s.feed, ev));
      assert t.published[|s.published|..] == ViewsOf(Mutations(s.feed, ev));
  }

  lemma NoneReadyJoin(a: seq<View>, b: seq<View>, c: seq<View>)
    requires a <= b <= c && NoneReady(b[|a|..]) && NoneReady(c[|b|..])
    ensures a <= c && NoneReady(c[|a|..])
  {
    assert c[|a|..] == b[|a|..] + c[|b|..];
  }

  /** After a loss no view is ready, whatever happens, until a snapshot is applied. */
  lemma {:induction false} NotReadyUntilSnapshot(cfg: LaneConfig, s: LaneState, steps: seq<Step>)
    requires NoSnapshotApplied(cfg, s, steps) && !s.feed.book.state.ready
    ensures var t := Run(cfg, s, steps);
            && !t.feed.book.state.ready
            && s.published <= t.published && NoneReady(t.published[|s.published|..])
  {
    if steps != [] {
      var init, last := steps[..|steps| - 1], steps[|steps| - 1];
      NotReadyUntilSnapshot(cfg, s, init);
      var m := Run(cfg, s, init);
      if Enabled(m, last) {
        StaysNotReady(cfg, m, last);
        NoneReadyJoin(s.published, m.published, Run(cfg, s, steps).published);
      }
    }
  }
}
