/** What a deterministic run trades on: the venues' own books, whatever the feeds lost. */
module MarketTruth {
  import opened Outcomes
  import opened Domain
  import opened BookSpec
  import opened Sequence
  import opened Reconstruction
  import opened Lane
  import opened Markets
  import opened EngineSpec
  import opened RunTrades
  import opened Settlement
  import O = Opportunity

  /** The history behind each book. */
  type Histories = BookKey -> VenueHistory

  ghost predicate ValidHistories(h: Histories) {
    forall k :: ValidHistory(h(k))
  }

  ghost predicate LanesTrue(h: Histories, lanes: Lanes) {
    forall k :: k in lanes ==> FeedInv(h(k), lanes[k])
  }

  /** The event is genuine for its book, and for Binance not a snapshot older than the tracker. */
  ghost predicate Promised(h: Histories, lanes: Lanes, k: BookKey, ev: MarketEvent) {
    var all := Registered(lanes, k);
    k in all ==>
      && Genuine(h(k), all[k].tracker.rule, ev)
      && (all[k].tracker.rule == Ranged ==> Forward(all[k], ev))
  }

  lemma NewFeedIsTrue(h: VenueHistory, rule: Rule)
    ensures FeedInv(h, NewFeed(rule))
  {
  }

  lemma AppliedKeepsTrue(h: Histories, lanes: Lanes, k: BookKey, ev: MarketEvent)
    requires ValidHistories(h) && LanesTrue(h, lanes) && Promised(h, lanes, k, ev)
    ensures LanesTrue(h, Applied(lanes, k, ev))
  {
    hide FeedInv, ApplyEvent, Genuine, NewFeed;
    var all := Registered(lanes, k);
    if RuleFor(k.0).Some? {
      NewFeedIsTrue(h(k), RuleFor(k.0).value);
    }
    if k in all {
      EventStep(h(k), all[k], ev);
    }
  }

  /** The books after the events: what is traded has no say in them. */
  function LanesAfter(lanes: Lanes, ts: seq<Tick>): Lanes {
    if ts == [] then lanes
    else
      var t := ts[|ts| - 1];
      Applied(LanesAfter(lanes, ts[..|ts| - 1]), t.key, t.event)
  }

  lemma {:induction false} RunLanes(cfg: EngineConfig, s: RunState, ts: seq<Tick>, r: RunState)
    requires RunsTo(cfg, s, ts, Done(r))
    ensures r.lanes == LanesAfter(s.lanes, ts)
  {
    if ts != [] {
      hide RunsTo, Applied, PassesTo, Visible;
      var m := LastTick(cfg, s, ts, r);
      RunLanes(cfg, s, ts[..|ts| - 1], m);
    }
  }

  /** Every event of the run keeps the venue's promise. */
  ghost predicate PromisedRun(h: Histories, lanes: Lanes, ts: seq<Tick>) {
    ts != [] ==>
      && PromisedRun(h, lanes, ts[..|ts| - 1])
      && Promised(h, LanesAfter(lanes, ts[..|ts| - 1]), ts[|ts| - 1].key, ts[|ts| - 1].event)
  }

  lemma {:induction false} RunKeepsTrue(h: Histories, lanes: Lanes, ts: seq<Tick>)
    requires ValidHistories(h) && LanesTrue(h, lanes) && PromisedRun(h, lanes, ts)
    ensures LanesTrue(h, LanesAfter(lanes, ts))
  {
    hide LanesTrue, Promised, Applied;
    if ts != [] {
      var init, t := ts[..|ts| - 1], ts[|ts| - 1];
      RunKeepsTrue(h, lanes, init);
      AppliedKeepsTrue(h, LanesAfter(lanes, init), t.key, t.event);
    }
  }

  /** A true feed shows a true view. */
  lemma TrueFeedTrueView(h: VenueHistory, f: Feed)
    requires FeedInv(h, f)
    ensures TrueView(h, ViewOf(f.book, PUBLISH_DEPTH))
  {
  }

  lemma VisibleIsTrue(h: Histories, lanes: Lanes)
    requires LanesTrue(h, lanes)
    ensures forall k :: k in Visible(lanes) ==> TrueView(h(k), Visible(lanes)[k])
  {
    hide FeedInv, TrueView, ViewOf;
    forall k | k in Visible(lanes)
      ensures TrueView(h(k), Visible(lanes)[k])
    {
      TrueFeedTrueView(h(k), lanes[k]);
    }
  }

  /** `side` of a ready view is the top of the venue's book at the view's sequence number. */
  ghost predicate ShowsVenue(h: VenueHistory, view: Option<View>) {
    view.Some? && view.value.state.ready && TrueView(h, view.value)
  }

  /**
    Opportunities are real: whatever was executed before, and whatever order the positions were
    visited in, what a pass finds after any prefix of a run is priced on the top 512 levels of
    both venues' own books, at the sequence numbers those views carry.
   */
  lemma OpportunitiesAreReal(h: Histories, cfg: EngineConfig, s: RunState, ts: seq<Tick>, r: RunState, o: O.Opp)
    requires ValidHistories(h) && LanesTrue(h, s.lanes) && PromisedRun(h, s.lanes, ts)
    requires RunsTo(cfg, s, ts, Done(r)) && PricedOn(o, cfg.settings, Visible(r.lanes))
    ensures var vs := Visible(r.lanes);
            && ShowsVenue(h((o.buyVenue, o.symbol)), ViewAt(vs, o.buyVenue, o.symbol))
            && ShowsVenue(h((o.sellVenue, o.symbol)), ViewAt(vs, o.sellVenue, o.symbol))
  {
    hide LanesTrue, TrueView, Visible, RunsTo, PromisedRun, LanesAfter;
    RunLanes(cfg, s, ts, r);
    RunKeepsTrue(h, s.lanes, ts);
    VisibleIsTrue(h, r.lanes);
    PricedOnReady(o, cfg.settings, Visible(r.lanes));
  }

  lemma PricedOnReady(o: O.Opp, s: O.Settings, vs: Views)
    requires PricedOn(o, s, vs)
    ensures var b, a := ViewAt(vs, o.buyVenue, o.symbol), ViewAt(vs, o.sellVenue, o.symbol);
            b.Some? && a.Some? && b.value.state.ready && a.value.state.ready
  {
  }
}
