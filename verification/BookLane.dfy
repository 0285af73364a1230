/** The lane object: a book, its tracker and its channel, worked on under the lane's lock. */
module BookLanes {
  import opened Outcomes
  import opened Domain
  import opened BookSpec
  import opened OrderBook
  import opened Sequence
  import opened Reconstruction
  import opened Lane

  /** Every atomic step that a call of a public method takes is recorded in `steps`. */
  class BookLane {
    const book: Book
    const cell: ViewCell
    const tracker: AnyTracker
    const config: LaneConfig
    var queue: seq<MarketEvent>
    ghost const rule: Rule
    ghost var steps: seq<Step>

    /** Where the recorded steps lead in the lane's state machine. */
    ghost function Now(): LaneState
      reads this
    {
      Run(config, NewLane(rule), steps)
    }

    /** Tracker and book as one value. */
    ghost function Feed(): Reconstruction.Feed
      reads book, tracker.Object()
    {
      Reconstruction.Feed(tracker.Value(), book.Value())
    }

    /** What a call may write: the book, its buffers, its cell and the tracker. */
    ghost function Footprint(): set<object>
      reads book
    {
      {book, cell, book.bidBuf, book.askBuf, tracker.Object()}
    }

    /** Everything that belongs to the lane, its readers' arrays included. */
    ghost function Reach(): set<object>
      reads book
    {
      {this} + Footprint() + book.handed
    }

    /** The objects are those that the recorded steps lead to. */
    ghost predicate Valid()
      reads this, book, cell, book.bidBuf, book.askBuf, book.handed, tracker.Object()
    {
      Sound() && Feed() == Now().feed && queue == Now().queue && cell.history == Now().published
    }

    ghost predicate Sound()
      reads this, book, cell, book.bidBuf, book.askBuf, book.handed, tracker.Object()
    {
      && book.cell == cell && book.Valid()
      && tracker.Object() != book && tracker.Object() != cell
      && tracker.Object() != book.bidBuf && tracker.Object() != book.askBuf
      && this !in Footprint()
      && (forall a :: a in book.handed ==> tracker.Object() != a)
    }

    constructor (t: AnyTracker, cfg: LaneConfig)
      requires t.Value() == Tracker(t.Value().rule, false, 0)
      ensures Valid() && tracker == t && config == cfg && queue == [] && steps == []
      ensures rule == old(t.Value().rule) && Feed() == NewFeed(rule)
      ensures fresh(this) && fresh(Footprint() - {t.Object()})
      ensures book.handed == {}
    {
      var c := new ViewCell();
      cell, config := c, cfg;
      book := new Book(c);
      tracker := t;
      queue, steps, rule := [], [], t.Value().rule;
    }

    /** One more step of the state machine. */
    ghost method Record(step: Step)
      requires Enabled(Now(), step)
      modifies this`steps
      ensures steps == old(steps) + [step] && Now() == Next(config, old(Now()), step)
    {
      steps := steps + [step];
      OneMoreStep(config, NewLane(rule), old(steps), step);
    }

    /** The send of Submit: succeeds while the channel has room. */
    method TrySend(ev: MarketEvent) returns (sent: bool)
      requires Valid()
      modifies this
      ensures Valid() && steps == old(steps) + [Step.Submit(ev)]
      ensures sent <==> |old(queue)| < config.capacity
      ensures queue == if sent then old(queue) + [ev] else old(queue)
      ensures !sent ==> Now().overloads > 0
    {
      hide Run, ViewsOf, Book.Valid;
      sent := |queue| < config.capacity;
      if sent {
        queue := queue + [ev];
      }
      Record(Step.Submit(ev));
    }

    /** The overload branch of Submit, which takes the lock later than the failed send. */
    method Overloaded()
      requires Valid() && Now().overloads > 0
      modifies this, book, cell, book.bidBuf, book.askBuf
      ensures Valid() && book.ViewsKept() && fresh(Footprint() - old(Footprint()))
      ensures steps == old(steps) + [Overload] && queue == old(queue)
      ensures Feed() == old(Feed()).(book := Invalidate(old(book.Value())))
      ensures cell.history == old(cell.history) + ViewsOf([book.Value()])
    {
      hide Run, ViewsOf, Book.Valid, Book.Value;
      InvalidateBook();
      Record(Overload);
    }

    method Submit(ev: MarketEvent)
      requires Valid()
      modifies this, book, cell, book.bidBuf, book.askBuf
      ensures Valid() && book.ViewsKept() && fresh(Footprint() - old(Footprint()))
      ensures steps == old(steps) + if |old(queue)| < config.capacity then [Step.Submit(ev)]
                                    else [Step.Submit(ev), Overload]
      ensures |old(queue)| < config.capacity ==>
                queue == old(queue) + [ev] && Feed() == old(Feed()) && cell.history == old(cell.history)
      ensures |old(queue)| >= config.capacity ==>
                && queue == old(queue) && Feed() == old(Feed()).(book := Invalidate(old(book.Value())))
                && cell.history == old(cell.history) + ViewsOf([book.Value()])
    {
      hide Run, ViewsOf, Book.Valid, Book.Value;
      var sent := TrySend(ev);
      if !sent {
        Overloaded();
      }
    }

    /** The worker's receive; the worker has nothing else in hand. */
    method Receive() returns (ev: MarketEvent)
      requires Valid() && queue != [] && Now().received == None
      modifies this
      ensures Valid() && steps == old(steps) + [Step.Receive]
      ensures [ev] + queue == old(queue) && Now().received == Some(ev)
    {
      hide Run, ViewsOf, Book.Valid;
      ev, queue := queue[0], queue[1..];
      Record(Step.Receive);
    }

    /** The worker's apply of the event it has received. */
    method Work(ev: MarketEvent)
      requires Valid() && Now().received == Some(ev)
      modifies this, book, cell, book.bidBuf, book.askBuf, tracker.Object()
      ensures Valid() && book.ViewsKept() && fresh(Footprint() - old(Footprint()))
      ensures steps == old(steps) + [ApplyReceived] && queue == old(queue)
      ensures Feed() == ApplyEvent(old(Feed()), ev)
      ensures cell.history == old(cell.history) + ViewsOf(Mutations(old(Feed()), ev))
    {
      hide Run, ViewsOf, Book.Valid, Book.Value, ApplyEvent, Mutations;
      Apply(ev);
      Record(ApplyReceived);
    }

    /** ApplySync once the lane is known. */
    method ApplyDirectly(ev: MarketEvent)
      requires Valid()
      modifies this, book, cell, book.bidBuf, book.askBuf, tracker.Object()
      ensures Valid() && book.ViewsKept() && fresh(Footprint() - old(Footprint()))
      ensures steps == old(steps) + [Direct(ev)] && queue == old(queue)
      ensures Feed() == ApplyEvent(old(Feed()), ev)
      ensures cell.history == old(cell.history) + ViewsOf(Mutations(old(Feed()), ev))
    {
      hide Run, ViewsOf, Book.Valid, Book.Value, ApplyEvent, Mutations;
      Apply(ev);
      Record(Direct(ev));
    }

    /** Invalidation under the lock: the overload branch of Submit, and the gap branches of apply. */
    method InvalidateBook()
      requires Sound()
      modifies book, cell, book.bidBuf, book.askBuf
      ensures Sound() && book.ViewsKept() && fresh(Footprint() - old(Footprint()))
      ensures Feed() == old(Feed()).(book := Invalidate(old(book.Value())))
      ensures cell.history == old(cell.history) + ViewsOf([book.Value()])
    {
      book.Invalidate();
      OneView(book.Value());
    }

    /** Pipeline.apply, under the lock. */
    method Apply(ev: MarketEvent)
      requires Sound()
      modifies book, cell, book.bidBuf, book.askBuf, tracker.Object()
      ensures Sound() && book.ViewsKept() && fresh(Footprint() - old(Footprint()))
      ensures Feed() == ApplyEvent(old(Feed()), ev)
      ensures cell.history == old(cell.history) + ViewsOf(Mutations(old(Feed()), ev))
    {
      match ev {
        case SnapshotEvent(s) => ApplySnapshot(s);
        case DeltaEvent(d) => ApplyDelta(d);
        case TradeEvent =>
      }
    }

    method ApplySnapshot(s: BookSnapshot)
      requires Sound()
      modifies book, cell, book.bidBuf, book.askBuf, tracker.Object()
      ensures Sound() && book.ViewsKept() && fresh(Footprint() - old(Footprint()))
      ensures Feed() == ApplyEvent(old(Feed()), SnapshotEvent(s))
      ensures cell.history == old(cell.history) + ViewsOf(Mutations(old(Feed()), SnapshotEvent(s)))
    {
      tracker.OnSnapshot(s.sequence);
      book.LoadSnapshot(s);
      OneView(book.Value());
      book.MarkStale(false);
    }

    method ApplyDelta(d: BookDelta)
      requires Sound()
      modifies book, cell, book.bidBuf, book.askBuf, tracker.Object()
      ensures Sound() && book.ViewsKept() && fresh(Footprint() - old(Footprint()))
      ensures Feed() == ApplyEvent(old(Feed()), DeltaEvent(d))
      ensures cell.history == old(cell.history) + ViewsOf(Mutations(old(Feed()), DeltaEvent(d)))
    {
      var v := tracker.Check(d);
      match v {
        case Apply => PatchBook(d);
        case Duplicate =>
        case Stale =>
        case Gap => InvalidateBook();
        case NeedSnapshot => InvalidateBook();
      }
    }

    method PatchBook(d: BookDelta)
      requires Sound()
      modifies book, cell, book.bidBuf, book.askBuf
      ensures Sound() && book.ViewsKept() && fresh(Footprint() - old(Footprint()))
      ensures book.Value() == MarkStale(BookSpec.ApplyDelta(old(book.Value()), d), false)
      ensures cell.history == old(cell.history) + ViewsOf(ThenRemark(BookSpec.ApplyDelta(old(book.Value()), d)))
    {
      book.ApplyDelta(d);
      ghost var b := book.Value();
      book.MarkStale(false);
      OneView(b);
      TwoViews(b, book.Value());
    }

    /** One visit of the staleness sweeper, under the lock. */
    method Sweep(now: int) returns (stale: bool)
      requires Valid()
      modifies this, book, cell, book.bidBuf, book.askBuf
      ensures Valid() && book.ViewsKept() && fresh(Footprint() - old(Footprint()))
      ensures steps == old(steps) + [Step.Sweep(now)] && queue == old(queue)
      ensures Feed() == old(Feed()).(book := Swept(config, old(book.Value()), now))
      ensures cell.history == old(cell.history)
                              + if book.Value() == old(book.Value()) then [] else ViewsOf([book.Value()])
      ensures stale <==> old(book.state.ready) && now - old(book.state.lastUpdatedAt) > config.maxBookAge
      ensures old(book.state.ready) ==>
                (book.state.stale <==> now - old(book.state.lastUpdatedAt) > config.maxBookAge)
      ensures !old(book.state.ready) ==> book.state == old(book.state)
      ensures book.bids == old(book.bids) && book.asks == old(book.asks)
      ensures book.state.ready == old(book.state.ready) && book.state.lastUpdatedAt == old(book.state.lastUpdatedAt)
    {
      hide Run, ViewsOf, Book.Valid;
      stale := false;
      if book.state.ready {
        stale := now - book.state.lastUpdatedAt > config.maxBookAge;
        book.MarkStale(stale);
        OneView(book.Value());
      }
      Record(Step.Sweep(now));
    }
  }

  lemma OneMoreStep(cfg: LaneConfig, s: LaneState, steps: seq<Step>, step: Step)
    requires Enabled(Run(cfg, s, steps), step)
    ensures Run(cfg, s, steps + [step]) == Next(cfg, Run(cfg, s, steps), step)
  {
    hide Next, Enabled;
    assert (steps + [step])[..|steps|] == steps;
  }

  /**
    The object is as safe as the state machine: every ready view its cell has ever held is the
    top of the venue's own book, versions strictly increase, and tracker and book are true.
   */
  lemma ObjectIsSafe(lane: BookLane, h: VenueHistory)
    requires lane.Valid() && ValidHistory(h) && PromiseKept(h, lane.config, NewLane(lane.rule), lane.steps)
    ensures AllTrue(h, lane.cell.history) && Versioned(lane.cell.history, lane.book.state.version)
    ensures FeedInv(h, lane.Feed()) && lane.Feed().tracker.rule == lane.rule
    ensures forall ev :: ev in lane.queue ==> Genuine(h, lane.rule, ev)
  {
    hide Run, ViewsOf, Book.Valid, FeedInv, AllTrue, Versioned, Genuine;
    LaneSafety(h, lane.config, lane.rule, lane.steps);
    assert forall ev :: ev in lane.queue ==> ev in Outstanding(lane.Now());
  }

  lemma OneView(b: BookValue)
    ensures ViewsOf([b]) == [ViewOf(b, PUBLISH_DEPTH)]
  {
    assert [b][..0] == [];
  }

  lemma TwoViews(a: BookValue, b: BookValue)
    ensures ViewsOf([a, b]) == [ViewOf(a, PUBLISH_DEPTH), ViewOf(b, PUBLISH_DEPTH)]
  {
    assert [a, b][..1] == [a];
    OneView(a);
  }
}
