/** Venue-specific sequence trackers (internal/book/seq.go). */
module Sequence {
  import opened Outcomes
  import opened Domain

  datatype Verdict = Apply | Duplicate | Stale | Gap | NeedSnapshot

  /** Binance accepts ranges [U, u]; OKX, Bybit and the synthetic venue accept +1 or a bridge. */
  datatype Rule = Ranged | Chained

  /**
    A tracker's fields. Sequence numbers are unbounded here: `d.sequence <= lastSeq` is
    decided before `lastSeq + 1` is formed, so that sum cannot wrap when it matters.
   */
  datatype Tracker = Tracker(rule: Rule, ready: bool, lastSeq: int) {
    /** A Binance snapshot never lowers lastSeq; the other venues adopt the snapshot's sequence. */
    function OnSnapshot(sequence: int): Tracker {
      match rule
      case Ranged => this.(ready := true, lastSeq := if sequence > lastSeq then sequence else lastSeq)
      case Chained => this.(ready := true, lastSeq := sequence)
    }

    function Check(d: BookDelta): (Tracker, Verdict) {
      match rule
      case Ranged =>
        if !ready then (this.(ready := true, lastSeq := d.sequence), Apply)
        else if d.sequence <= lastSeq then (this, Duplicate)
        else if d.prevSequence > lastSeq + 1 then (this, Gap)
        else (this.(lastSeq := d.sequence), Apply)
      case Chained =>
        if !ready then (this, NeedSnapshot)
        else if d.sequence <= lastSeq then (this, Duplicate)
        else if d.sequence == lastSeq + 1 || d.prevSequence == lastSeq then (this.(lastSeq := d.sequence), Apply)
        else (this, Gap)
    }
  }

  class BinanceTracker {
    var ready: bool
    var lastSeq: int

    ghost function Value(): Tracker
      reads this
    {
      Tracker(Ranged, ready, lastSeq)
    }

    constructor ()
      ensures Value() == Tracker(Ranged, false, 0)
    {
      ready, lastSeq := false, 0;
    }

    method OnSnapshot(sequence: int)
      modifies this
      ensures Value() == old(Value()).OnSnapshot(sequence)
    {
      ready := true;
      if sequence > lastSeq {
        lastSeq := sequence;
      }
    }

    method Check(d: BookDelta) returns (v: Verdict)
      modifies this
      ensures (Value(), v) == old(Value()).Check(d)
    {
      if !ready {
        ready, lastSeq := true, d.sequence;
        return Apply;
      }
      if d.sequence <= lastSeq {
        return Duplicate;
      }
      if d.prevSequence > lastSeq + 1 {
        return Gap;
      }
      lastSeq := d.sequence;
      return Apply;
    }
  }

  class OKXTracker {
    var ready: bool
    var lastSeq: int

    ghost function Value(): Tracker
      reads this
    {
      Tracker(Chained, ready, lastSeq)
    }

    constructor ()
      ensures Value() == Tracker(Chained, false, 0)
    {
      ready, lastSeq := false, 0;
    }

    method OnSnapshot(sequence: int)
      modifies this
      ensures Value() == old(Value()).OnSnapshot(sequence)
    {
      ready, lastSeq := true, sequence;
    }

    method Check(d: BookDelta) returns (v: Verdict)
      modifies this
      ensures (Value(), v) == old(Value()).Check(d)
    {
      if !ready {
        return NeedSnapshot;
      }
      if d.sequence <= lastSeq {
        v := Duplicate;
      } else if d.sequence == lastSeq + 1 {
        lastSeq := d.sequence;
        v := Apply;
      } else if d.prevSequence == lastSeq {
        lastSeq := d.sequence;
        v := Apply;
      } else {
        v := Gap;
      }
    }
  }

  class BybitTracker {
    var ready: bool
    var lastSeq: int

    ghost function Value(): Tracker
      reads this
    {
      Tracker(Chained, ready, lastSeq)
    }

    constructor ()
      ensures Value() == Tracker(Chained, false, 0)
    {
      ready, lastSeq := false, 0;
    }

    method OnSnapshot(sequence: int)
      modifies this
      ensures Value() == old(Value()).OnSnapshot(sequence)
    {
      ready, lastSeq := true, sequence;
    }

    method Check(d: BookDelta) returns (v: Verdict)
      modifies this
      ensures (Value(), v) == old(Value()).Check(d)
    {
      if !ready {
        return NeedSnapshot;
      }
      if d.sequence <= lastSeq {
        return Duplicate;
      }
      if d.sequence == lastSeq + 1 || d.prevSequence == lastSeq {
        lastSeq := d.sequence;
        return Apply;
      }
      return Gap;
    }
  }

  /** Go's Tracker interface value: one of the three objects. */
  datatype AnyTracker =
    | BinanceFeed(binance: BinanceTracker)
    | OKXFeed(okx: OKXTracker)
    | BybitFeed(bybit: BybitTracker)
  {
    ghost function Object(): object {
      match this
      case BinanceFeed(t) => t
      case OKXFeed(t) => t
      case BybitFeed(t) => t
    }

    ghost function Value(): Tracker
      reads Object()
    {
      match this
      case BinanceFeed(t) => t.Value()
      case OKXFeed(t) => t.Value()
      case BybitFeed(t) => t.Value()
    }

    method OnSnapshot(sequence: int)
      modifies Object()
      ensures Value() == old(Value()).OnSnapshot(sequence)
    {
      match this
      case BinanceFeed(t) => t.OnSnapshot(sequence);
      case OKXFeed(t) => t.OnSnapshot(sequence);
      case BybitFeed(t) => t.OnSnapshot(sequence);
    }

    method Check(d: BookDelta) returns (v: Verdict)
      modifies Object()
      ensures (Value(), v) == old(Value()).Check(d)
    {
      match this
      case BinanceFeed(t) => v := t.Check(d);
      case OKXFeed(t) => v := t.Check(d);
      case BybitFeed(t) => v := t.Check(d);
    }
  }

  /** The rule each known venue gets; no tracker for any other. */
  function RuleFor(v: Venue): Option<Rule> {
    match v
    case Binance => Some(Ranged)
    case OKX => Some(Chained)
    case Bybit => Some(Chained)
    case Synthetic => Some(Chained)
    case OtherVenue(_) => None
  }

  lemma RuleOfVenues()
    ensures RuleFor(Binance) == Some(Ranged)
    ensures forall v :: v in {OKX, Bybit, Synthetic} ==> RuleFor(v) == Some(Chained)
    ensures forall name :: RuleFor(OtherVenue(name)) == None
  {
  }

  method NewForVenue(v: Venue) returns (r: Option<AnyTracker>)
    ensures r.Some? <==> RuleFor(v).Some?
    ensures r.Some? ==> fresh(r.value.Object()) && r.value.Value() == Tracker(RuleFor(v).value, false, 0)
    ensures v == Binance ==> r.Some? && r.value.BinanceFeed?
    ensures v == OKX || v == Synthetic ==> r.Some? && r.value.OKXFeed?
    ensures v == Bybit ==> r.Some? && r.value.BybitFeed?
  {
    match v {
      case Binance =>
        var t := new BinanceTracker();
        r := Some(BinanceFeed(t));
      case OKX =>
        var t := new OKXTracker();
        r := Some(OKXFeed(t));
      case Bybit =>
        var t := new BybitTracker();
        r := Some(BybitFeed(t));
      case Synthetic =>
        var t := new OKXTracker();
        r := Some(OKXFeed(t));
      case OtherVenue(_) =>
        r := None;
    }
  }
}
