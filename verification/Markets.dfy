/** All books of the engine as values: what the lanes hold, and what readers see of them. */
module Markets {
  import opened Outcomes
  import opened Domain
  import opened BookSpec
  import opened Sequence
  import opened Reconstruction

  /** A book belongs to a venue and a symbol. */
  type BookKey = (Venue, string)

  /** Tracker and book of every registered lane. */
  type Lanes = map<BookKey, Feed>

  /** A book without a lane gets one, unless its venue has no tracker. */
  function Registered(lanes: Lanes, k: BookKey): Lanes {
    if k in lanes || RuleFor(k.0).None? then lanes else lanes[k := NewFeed(RuleFor(k.0).value)]
  }

  /** ApplySync: registers the lane if need be, and drops the event if that failed. */
  function Applied(lanes: Lanes, k: BookKey, ev: MarketEvent): Lanes {
    var all := Registered(lanes, k);
    if k in all then all[k := ApplyEvent(all[k], ev)] else all
  }

  /** An event moves its own book's feed, a new one if need be, and no other; it is lost where no tracker is. */
  lemma AppliedAtOnce(lanes: Lanes, k: BookKey, ev: MarketEvent)
    ensures var after := Applied(lanes, k, ev);
            && (forall j :: j != k ==> (j in after <==> j in lanes) && (j in lanes ==> after[j] == lanes[j]))
            && (k in lanes ==> k in after && after[k] == ApplyEvent(lanes[k], ev))
            && (k !in lanes && RuleFor(k.0).Some? ==>
                  k in after && after[k] == ApplyEvent(NewFeed(RuleFor(k.0).value), ev))
            && (k !in lanes && RuleFor(k.0).None? ==> k !in after)
  {
    hide ApplyEvent;
  }

  /** The latest published view of each book that has one. */
  type Views = map<BookKey, View>

  function ViewAt(vs: Views, v: Venue, symbol: string): Option<View> {
    if (v, symbol) in vs then Some(vs[(v, symbol)]) else None
  }

  /** A book is visible to readers once it has changed. */
  ghost function Visible(lanes: Lanes): Views {
    map k | k in lanes && lanes[k].book.state.version > 0 :: ViewOf(lanes[k].book, PUBLISH_DEPTH)
  }
}
