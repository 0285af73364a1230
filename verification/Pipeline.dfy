/** The pipeline and the book manager together: one lane per book, and the views readers get. */
module Pipelines {
  import opened Outcomes
  import opened Domain
  import opened BookSpec
  import opened Sequence
  import opened Reconstruction
  import opened Lane
  import opened BookLanes
  import opened Markets

  /** A lane at `f`, all of whose objects are among `r`. */
  ghost predicate At(lane: BookLane, f: Feed, r: set<object>)
    reads r
  {
    lane in r && lane.book in r && lane.Reach() <= r && lane.Valid() && lane.Feed() == f
  }

  /** What a pipeline stands for: tracker and book of each lane, the lane's objects, and all objects. */
  datatype Model = Model(value: Lanes, reach: map<BookKey, set<object>>, repr: set<object>) {
    /** Lanes share no objects, and all of them are known. */
    ghost predicate Apart() {
      && value.Keys == reach.Keys
      && (forall k :: k in reach ==> reach[k] <= repr)
      && (forall j, k :: j in reach && k in reach && j != k ==> reach[j] !! reach[k])
    }

    /** A lane moved to `f`, having acquired `more` objects. */
    ghost function Moved(k: BookKey, f: Feed, more: set<object>): Model
      requires k in reach
    {
      Model(value[k := f], reach[k := reach[k] + more], repr + more)
    }

    ghost function Entered(k: BookKey, f: Feed, r: set<object>): Model {
      Model(value[k := f], reach[k := r], repr + r)
    }
  }

  class Pipeline {
    var lanes: map<BookKey, BookLane>
    const config: LaneConfig
    ghost var model: Model

    ghost predicate Valid()
      reads this, model.repr
    {
      this !in model.repr && lanes.Keys == model.value.Keys && model.Apart() && Placed()
    }

    ghost predicate Placed()
      requires lanes.Keys == model.value.Keys && model.Apart()
      reads this, model.repr
    {
      forall k :: k in lanes ==> At(lanes[k], model.value[k], model.reach[k])
    }

    constructor (cfg: LaneConfig)
      ensures Valid() && model.value == map[] && model.repr == {} && config == cfg
    {
      config, lanes, model := cfg, map[], Model(map[], map[], {});
    }

    /** The latest published view, if the book is known and has ever changed (Manager.Snapshot). */
    method Snapshot(v: Venue, symbol: string) returns (view: Option<View>)
      requires Valid()
      ensures view == ViewAt(Visible(model.value), v, symbol)
    {
      var k := (v, symbol);
      if k !in lanes {
        return None;
      }
      assert At(lanes[k], model.value[k], model.reach[k]);
      var stored := lanes[k].cell.view;
      if stored.None? {
        return None;
      }
      view := Some(View(stored.value.bids[..], stored.value.asks[..], stored.value.state));
    }

    /** Creates the lane of a book that has none, with its venue's tracker. */
    method Register(k: BookKey) returns (known: bool)
      requires Valid()
      modifies this
      ensures Valid() && fresh(model.repr - old(model.repr))
      ensures known <==> k in model.value
      ensures model.value == Registered(old(model.value), k)
    {
      hide At, BookLane.Reach;
      if k in lanes {
        return true;
      }
      var lane := OpenLane(k.0, config);
      if lane.None? {
        return false;
      }
      assert Placed();
      Enter(k, lane.value, NewFeed(RuleFor(k.0).value), lane.value.Reach());
      known := true;
    }

    /** The new entry of Register. */
    method Enter(k: BookKey, lane: BookLane, ghost f: Feed, ghost r: set<object>)
      requires Valid() && k !in lanes && At(lane, f, r) && r !! model.repr + {this}
      modifies this
      ensures Valid() && lanes == old(lanes)[k := lane] && model == old(model).Entered(k, f, r)
    {
      hide At;
      EnteredApart(model, k, f, r);
      lanes, model := lanes[k := lane], model.Entered(k, f, r);
      assert Placed();
    }

    /** Applies one event on the caller's goroutine. */
    method ApplySync(k: BookKey, ev: MarketEvent)
      requires Valid()
      modifies this, model.repr
      ensures Valid() && fresh(model.repr - old(model.repr))
      ensures model.value == Applied(old(model.value), k, ev)
    {
      hide At, ApplyEvent, Registered;
      var known := Register(k);
      if known {
        ApplyTo(k, ev);
      }
    }

    /** From here on the pipeline stands for `m`. */
    ghost method Adopt(m: Model)
      requires this !in m.repr && lanes.Keys == m.value.Keys && m.Apart()
      requires forall k :: k in lanes ==> At(lanes[k], m.value[k], m.reach[k])
      modifies this`model
      ensures Valid() && model == m
    {
      hide At;
      model := m;
      assert Placed();
    }

    method ApplyTo(k: BookKey, ev: MarketEvent)
      requires Valid() && k in lanes
      modifies this, model.repr
      ensures Valid() && fresh(model.repr - old(model.repr))
      ensures model.value == old(model.value)[k := ApplyEvent(old(model.value)[k], ev)]
    {
      hide At, ApplyEvent;
      ghost var more := ApplyAt(lanes[k], ev, model.value[k], model.reach[k]);
      assert forall j :: j in lanes && j != k ==> At(lanes[j], model.value[j], model.reach[j]);
      MovedApart(model, k, ApplyEvent(model.value[k], ev), more);
      Adopt(model.Moved(k, ApplyEvent(model.value[k], ev), more));
    }
  }

  method OpenLane(v: Venue, cfg: LaneConfig) returns (lane: Option<BookLane>)
    ensures lane.Some? <==> RuleFor(v).Some?
    ensures lane.Some? ==>
              fresh(lane.value.Reach()) && At(lane.value, NewFeed(RuleFor(v).value), lane.value.Reach())
  {
    var t := NewForVenue(v);
    if t.None? {
      return None;
    }
    var l := new BookLane(t.value, cfg);
    lane := Some(l);
  }

  lemma EnteredApart(m: Model, k: BookKey, f: Feed, r: set<object>)
    requires m.Apart() && r !! m.repr
    ensures m.Entered(k, f, r).Apart()
  {
  }

  lemma MovedApart(m: Model, k: BookKey, f: Feed, more: set<object>)
    requires m.Apart() && k in m.reach && more !! m.repr
    ensures m.Moved(k, f, more).Apart()
  {
  }

  /** Applies an event at a lane; `more` are the objects that the lane acquires. */
  method ApplyAt(lane: BookLane, ev: MarketEvent, ghost f: Feed, ghost r: set<object>) returns (ghost more: set<object>)
    requires At(lane, f, r)
    modifies r
    ensures fresh(more) && At(lane, ApplyEvent(f, ev), r + more)
  {
    hide ApplyEvent, BookLane.Valid;
    lane.ApplyDirectly(ev);
    more := lane.Reach() - r;
  }
}
