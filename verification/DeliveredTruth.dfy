/**
  What all the messages delivered by a Binance feed say together, dropped and outdated ones
  included: which quantities they determine, and so when the local book has to be the venue's.
 */
module DeliveredTruth {
  import opened Outcomes
  import opened Decimal
  import opened Domain
  import opened BookSpec
  import opened Sequence
  import opened Reconstruction
  import opened RangeCover

  /** `h` can have produced all the messages. */
  ghost predicate Agrees(h: VenueHistory, evs: seq<MarketEvent>) {
    ValidHistory(h) && forall i :: 0 <= i < |evs| ==> Genuine(h, Ranged, evs[i])
  }

  // What one message says of one price.

  /** A point and the quantity there: a snapshot tells every price, a range those that it mentions. */
  function Told(ev: MarketEvent, side: Side, p: Fixed): Option<(int, Fixed)> {
    match ev
    case SnapshotEvent(s) =>
      Some((s.sequence, LastPositive(if side == Buy then s.bids else s.asks, p)))
    case DeltaEvent(d) =>
      (match LastFor(LevelsOf(d, side), p)
       case Some(q) => Some((d.sequence, q))
       case None => None)
    case TradeEvent => None
  }

  /** A range that covers the change to `x` and leaves the price out: it did not move there. */
  predicate SaysUnmoved(ev: MarketEvent, side: Side, p: Fixed, x: int) {
    ev.DeltaEvent? && LastFor(LevelsOf(ev.delta, side), p).None? && ev.delta.prevSequence <= x <= ev.delta.sequence
  }

  predicate UnmovedAt(evs: seq<MarketEvent>, side: Side, p: Fixed, x: int) {
    exists i :: 0 <= i < |evs| && SaysUnmoved(evs[i], side, p, x)
  }

  /** Between `a` and `b`, whichever comes first, the messages leave the price no room to move. */
  ghost predicate Linked(evs: seq<MarketEvent>, side: Side, p: Fixed, a: int, b: int) {
    forall x :: a < x <= b || b < x <= a ==> UnmovedAt(evs, side, p, x)
  }

  /** Some message tells the quantity at a point linked to `n`. */
  ghost predicate Pinned(evs: seq<MarketEvent>, side: Side, p: Fixed, n: int, q: Fixed) {
    exists i :: 0 <= i < |evs| && TellsLinked(evs, i, side, p, n, q)
  }

  ghost predicate TellsLinked(evs: seq<MarketEvent>, i: nat, side: Side, p: Fixed, n: int, q: Fixed)
    requires i < |evs|
  {
    var t := Told(evs[i], side, p);
    t.Some? && t.value.1 == q && Linked(evs, side, p, t.value.0, n)
  }

  // What is pinned is true.

  lemma ToldIsTrue(h: VenueHistory, ev: MarketEvent, side: Side, p: Fixed)
    requires Genuine(h, Ranged, ev) && Told(ev, side, p).Some?
    ensures QtyIn(h.book(Told(ev, side, p).value.0), side, p) == Told(ev, side, p).value.1
  {
    hide LastFor, QtyAt, LastPositive, Covers;
    if ev.DeltaEvent? {
      GenuineTells(h, ev.delta, side, p, ev.delta.sequence);
    }
  }

  lemma UnmovedIsSame(h: VenueHistory, evs: seq<MarketEvent>, side: Side, p: Fixed, x: int)
    requires Agrees(h, evs) && UnmovedAt(evs, side, p, x)
    ensures QtyIn(h.book(x - 1), side, p) == QtyIn(h.book(x), side, p)
  {
    hide LastFor, QtyAt, GenuineRange, ValidHistory;
    var i :| 0 <= i < |evs| && SaysUnmoved(evs[i], side, p, x);
    assert Genuine(h, Ranged, evs[i]);
    GenuineTells(h, evs[i].delta, side, p, x - 1);
    GenuineTells(h, evs[i].delta, side, p, x);
  }

  lemma {:induction false} LinkedIsSame(h: VenueHistory, evs: seq<MarketEvent>, side: Side, p: Fixed, a: int, b: int)
    requires Agrees(h, evs) && Linked(evs, side, p, a, b)
    ensures QtyIn(h.book(a), side, p) == QtyIn(h.book(b), side, p)
    decreases if a < b then b - a else a - b
  {
    hide Agrees, UnmovedAt, QtyIn;
    if a < b {
      UnmovedIsSame(h, evs, side, p, b);
      LinkedIsSame(h, evs, side, p, a, b - 1);
    } else if b < a {
      UnmovedIsSame(h, evs, side, p, a);
      LinkedIsSame(h, evs, side, p, a - 1, b);
    }
  }

  lemma PinnedIsTrue(h: VenueHistory, evs: seq<MarketEvent>, side: Side, p: Fixed, n: int, q: Fixed)
    requires Agrees(h, evs) && Pinned(evs, side, p, n, q)
    ensures QtyIn(h.book(n), side, p) == q
  {
    hide Linked, QtyIn, Told, Genuine, ValidHistory;
    var i :| 0 <= i < |evs| && TellsLinked(evs, i, side, p, n, q);
    ToldIsTrue(h, evs[i], side, p);
    LinkedIsSame(h, evs, side, p, Told(evs[i], side, p).value.0, n);
  }

  // What is not pinned can be anything.

  /** `h` with the quantity `q` at a price wherever that is linked to `n`. */
  ghost function Altered(h: VenueHistory, evs: seq<MarketEvent>, side: Side, p: Fixed, n: int, q: Fixed): VenueHistory {
    VenueHistory(h.points, k => if Linked(evs, side, p, k, n) then SetIn(h.book(k), side, p, q) else h.book(k))
  }

  lemma LinkedThrough(evs: seq<MarketEvent>, side: Side, p: Fixed, a: int, b: int, c: int)
    requires Linked(evs, side, p, a, b) && Linked(evs, side, p, b, c)
    ensures Linked(evs, side, p, a, c) && Linked(evs, side, p, b, a)
  {
    hide UnmovedAt;
  }

  /** The points from U-1 to u of a range that leaves the price out are linked or not together. */
  lemma RangeLinks(evs: seq<MarketEvent>, i: nat, side: Side, p: Fixed, k: int, n: int)
    requires i < |evs| && evs[i].DeltaEvent? && LastFor(LevelsOf(evs[i].delta, side), p).None?
    requires evs[i].delta.prevSequence - 1 <= k <= evs[i].delta.sequence
    ensures Linked(evs, side, p, k, n) <==> Linked(evs, side, p, evs[i].delta.sequence, n)
  {
    var u := evs[i].delta.sequence;
    forall x | k < x <= u || u < x <= k
      ensures UnmovedAt(evs, side, p, x)
    {
      assert SaysUnmoved(evs[i], side, p, x);
    }
    hide UnmovedAt, LastFor;
    LinkedBack(evs, side, p, k, u);
    if Linked(evs, side, p, k, n) {
      LinkedThrough(evs, side, p, u, k, n);
    }
    if Linked(evs, side, p, u, n) {
      LinkedThrough(evs, side, p, k, u, n);
    }
  }

  lemma LinkedBack(evs: seq<MarketEvent>, side: Side, p: Fixed, a: int, b: int)
    ensures Linked(evs, side, p, a, b) <==> Linked(evs, side, p, b, a)
  {
    hide UnmovedAt;
  }

  lemma AlteredQty(h: VenueHistory, evs: seq<MarketEvent>, side: Side, p: Fixed, n: int, q: Fixed, k: int,
                   side': Side, p': Fixed)
    ensures QtyIn(Altered(h, evs, side, p, n, q).book(k), side', p')
            == if side' == side && p' == p && Linked(evs, side, p, k, n) then q else QtyIn(h.book(k), side', p')
  {
    hide Linked, QtyIn, SetIn;
    SetInQty(h.book(k), side, p, q, side', p');
  }

  lemma RangeStaysGenuine(h: VenueHistory, evs: seq<MarketEvent>, i: nat, side: Side, p: Fixed, n: int, q: Fixed)
    requires i < |evs| && evs[i].DeltaEvent? && GenuineRange(h, evs[i].delta)
    requires forall q' :: !Pinned(evs, side, p, n, q')
    ensures GenuineRange(Altered(h, evs, side, p, n, q), evs[i].delta)
  {
    hide Covers, LastFor, QtyIn, Linked, Altered;
    var g, d := Altered(h, evs, side, p, n, q), evs[i].delta;
    forall side', p', k
      ensures Tells(g, d, side', p', k)
    {
      GenuineTells(h, d, side', p', k);
      AlteredQty(h, evs, side, p, n, q, k, side', p');
      AlteredQty(h, evs, side, p, n, q, d.sequence, side', p');
      if side' == side && p' == p {
        OwnPriceTold(evs, i, side, p, k, n);
      }
    }
    AlteredPoints(h, evs, side, p, n, q);
    TellsGenuine(g, d);
  }

  lemma AlteredPoints(h: VenueHistory, evs: seq<MarketEvent>, side: Side, p: Fixed, n: int, q: Fixed)
    ensures Altered(h, evs, side, p, n, q).points == h.points
  {
  }

  /** A range that mentions an unpinned price is not linked to `n`; one that leaves it out is linked as a whole. */
  lemma OwnPriceTold(evs: seq<MarketEvent>, i: nat, side: Side, p: Fixed, k: int, n: int)
    requires i < |evs| && evs[i].DeltaEvent? && forall q' :: !Pinned(evs, side, p, n, q')
    ensures var d := evs[i].delta;
            if LastFor(LevelsOf(d, side), p).Some? then !Linked(evs, side, p, d.sequence, n)
            else d.prevSequence - 1 <= k <= d.sequence ==>
                   (Linked(evs, side, p, k, n) <==> Linked(evs, side, p, d.sequence, n))
  {
    hide Linked, LastFor;
    var d := evs[i].delta;
    match LastFor(LevelsOf(d, side), p)
    case Some(q') =>
      assert !Pinned(evs, side, p, n, q');
      assert !TellsLinked(evs, i, side, p, n, q');
    case None =>
      if d.prevSequence - 1 <= k <= d.sequence {
        RangeLinks(evs, i, side, p, k, n);
      }
  }

  lemma SnapshotStaysGenuine(h: VenueHistory, evs: seq<MarketEvent>, i: nat, side: Side, p: Fixed, n: int, q: Fixed)
    requires i < |evs| && evs[i].SnapshotEvent? && GenuineSnapshot(h, evs[i].snapshot)
    requires forall q' :: !Pinned(evs, side, p, n, q')
    ensures GenuineSnapshot(Altered(h, evs, side, p, n, q), evs[i].snapshot)
  {
    hide Linked, SetIn, LastPositive, QtyIn;
    var t := Told(evs[i], side, p).value;
    assert !Pinned(evs, side, p, n, t.1);
    assert !TellsLinked(evs, i, side, p, n, t.1);
  }

  lemma AlteredAgrees(h: VenueHistory, evs: seq<MarketEvent>, side: Side, p: Fixed, n: int, q: Fixed)
    requires Agrees(h, evs) && q >= 0 && forall q' :: !Pinned(evs, side, p, n, q')
    ensures Agrees(Altered(h, evs, side, p, n, q), evs)
  {
    hide Pinned, Linked, SetIn, PositiveSides, GenuineRange, GenuineSnapshot;
    var g := Altered(h, evs, side, p, n, q);
    forall k
      ensures PositiveSides(g.book(k))
    {
      SetInQty(h.book(k), side, p, q, side, p);
    }
    forall i | 0 <= i < |evs|
      ensures Genuine(g, Ranged, evs[i])
    {
      assert Genuine(h, Ranged, evs[i]);
      match evs[i]
      case SnapshotEvent(s) => SnapshotStaysGenuine(h, evs, i, side, p, n, q);
      case DeltaEvent(d) => RangeStaysGenuine(h, evs, i, side, p, n, q);
      case TradeEvent =>
    }
  }

  /** A quantity that is not pinned, or pinned elsewhere, is wrong in some history that agrees. */
  lemma UnpinnedIsUnsafe(h: VenueHistory, evs: seq<MarketEvent>, side: Side, p: Fixed, n: int, s: Sides)
    requires Agrees(h, evs) && !Pinned(evs, side, p, n, QtyIn(s, side, p))
    ensures exists g :: Agrees(g, evs) && g.book(n) != s
  {
    hide Agrees, Linked, QtyIn, TellsLinked;
    if q' :| Pinned(evs, side, p, n, q') {
      PinnedIsTrue(h, evs, side, p, n, q');
      assert QtyIn(h.book(n), side, p) != QtyIn(s, side, p);
      assert h.book(n) != s;
    } else {
      hide Pinned;
      var q: Fixed := if QtyIn(s, side, p) == 0 then 1 else 0;
      AlteredAgrees(h, evs, side, p, n, q);
      AlteredQty(h, evs, side, p, n, q, n, side, p);
      LinkedToItself(evs, side, p, n);
      assert QtyIn(Altered(h, evs, side, p, n, q).book(n), side, p) == q;
    }
  }

  lemma LinkedToItself(evs: seq<MarketEvent>, side: Side, p: Fixed, n: int)
    ensures Linked(evs, side, p, n, n)
  {
  }

  /**
    What messages decide: `s` is the venue's book at `n` in every history that agrees with all of
    them exactly when they pin each of its quantities there.
   */
  lemma MessagesDecide(h: VenueHistory, evs: seq<MarketEvent>, n: int, s: Sides)
    requires Agrees(h, evs) && PositiveSides(s)
    ensures (forall g :: Agrees(g, evs) ==> g.book(n) == s)
            <==> forall side, p :: Pinned(evs, side, p, n, QtyIn(s, side, p))
  {
    hide Agrees, Pinned, QtyIn, PositiveSides;
    if forall side, p :: Pinned(evs, side, p, n, QtyIn(s, side, p)) {
      forall g | Agrees(g, evs)
        ensures g.book(n) == s
      {
        forall side, p
          ensures QtyIn(g.book(n), side, p) == QtyIn(s, side, p)
        {
          PinnedIsTrue(g, evs, side, p, n, QtyIn(s, side, p));
        }
        AgreesIsPositive(g, evs, n);
        SameSides(g.book(n), s);
      }
    }
    if side: Side, p: Fixed :| !Pinned(evs, side, p, n, QtyIn(s, side, p)) {
      UnpinnedIsUnsafe(h, evs, side, p, n, s);
    }
  }

  lemma AgreesIsPositive(h: VenueHistory, evs: seq<MarketEvent>, n: int)
    requires Agrees(h, evs)
    ensures PositiveSides(h.book(n))
  {
  }

  /**
    Binance reconstruction against all that was delivered, in any order, whatever of it was
    applied: the local book is the venue's in every history that agrees exactly when each of its
    quantities is told at some point that ranges leaving the price out link to the book's own.
   */
  lemma DeliveredIsTrueIff(h: VenueHistory, evs: seq<MarketEvent>)
    requires Agrees(h, evs)
    ensures var b := Deliver(NewFeed(Ranged), evs).book;
            (forall g :: Agrees(g, evs) ==> SidesOf(b) == g.book(b.state.sequence))
            <==> forall side, p :: Pinned(evs, side, p, b.state.sequence, QtyIn(SidesOf(b), side, p))
  {
    hide Agrees, Pinned, QtyIn, Deliver, TrueAfter;
    DeliveredIsWellFormed(h, evs);
    var b := Deliver(NewFeed(Ranged), evs).book;
    MessagesDecide(h, evs, b.state.sequence, SidesOf(b));
  }

  lemma DeliveredIsWellFormed(h: VenueHistory, evs: seq<MarketEvent>)
    requires Agrees(h, evs)
    ensures PositiveSides(SidesOf(Deliver(NewFeed(Ranged), evs).book))
  {
    RangedReconstruction(h, evs);
  }

  // An outdated snapshot can still vouch for the book.

  /** A venue whose book is always empty. */
  ghost function EmptyVenue(): VenueHistory {
    VenueHistory(n => true, n => Sides(map[], map[]))
  }

  function ExampleMessages(): seq<MarketEvent> {
    [SnapshotEvent(BookSnapshot([], [], 20, 0)), SnapshotEvent(BookSnapshot([], [], 10, 0)),
     DeltaEvent(BookDelta([], [], 30, 21, 0))]
  }

  lemma ExampleDelivered()
    ensures Deliver(NewFeed(Ranged), ExampleMessages()).book.state.sequence == 30
    ensures SidesOf(Deliver(NewFeed(Ranged), ExampleMessages()).book) == Sides(map[], map[])
    ensures SinceLast(ExampleMessages())
            == Some(Since(BookSnapshot([], [], 10, 0), [BookDelta([], [], 30, 21, 0)]))
  {
    var evs := ExampleMessages();
    assert evs[..2] == [evs[0], evs[1]] && evs[..2][..1] == [evs[0]] && [evs[0]][..0] == [];
    var f1 := ApplyEvent(NewFeed(Ranged), evs[0]);
    assert Deliver(NewFeed(Ranged), [evs[0]]) == f1;
    assert Deliver(NewFeed(Ranged), evs[..2]) == ApplyEvent(f1, evs[1]);
    assert Deliver(NewFeed(Ranged), evs) == ApplyEvent(ApplyEvent(f1, evs[1]), evs[2]);
    assert SinceLast(evs[..2]) == Noted(f1, SinceLast(evs[..2][..1]), evs[1]);
    assert SinceLast(evs) == Noted(ApplyEvent(f1, evs[1]), SinceLast(evs[..2]), evs[2]);
    assert [] + [evs[2].delta] == [evs[2].delta];
  }

  lemma ExampleAgrees()
    ensures Agrees(EmptyVenue(), ExampleMessages())
  {
    var h := EmptyVenue();
    assert Covers(n => h.book(n).bids, [], 20, 30) && Covers(n => h.book(n).asks, [], 20, 30);
  }

  lemma ExamplePinned(side: Side, p: Fixed)
    ensures Pinned(ExampleMessages(), side, p, 30, 0)
  {
    var evs := ExampleMessages();
    forall x | 20 < x <= 30
      ensures UnmovedAt(evs, side, p, x)
    {
      assert SaysUnmoved(evs[2], side, p, x);
    }
    assert TellsLinked(evs, 0, side, p, 30, 0);
  }

  /**
    Snapshot 20, the older snapshot 10, then [21, 30]: nothing applied covers the changes from 11
    to 20, and yet the book is true in every history that agrees with all three messages.
   */
  lemma OutdatedSnapshotVouches()
    ensures exists h: VenueHistory, evs: seq<MarketEvent> ::
              && Agrees(h, evs) && SinceLast(evs).Some?
              && !ReachesFrom(SinceLast(evs).value, SinceLast(evs).value.snapshot.sequence)
              && var b := Deliver(NewFeed(Ranged), evs).book;
                 forall g :: Agrees(g, evs) ==> SidesOf(b) == g.book(b.state.sequence)
  {
    var h, evs := EmptyVenue(), ExampleMessages();
    ExampleAgrees();
    ExampleDelivered();
    assert !SinceLast(evs).value.Reaches(11);
    forall side, p
      ensures Pinned(evs, side, p, 30, QtyIn(Sides(map[], map[]), side, p))
    {
      ExamplePinned(side, p);
    }
    DeliveredIsTrueIff(h, evs);
    hide *;
  }
}
