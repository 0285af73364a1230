/** Venue-independent market data (internal/domain/types.go). Times are integers. */
module Domain {
  import opened Decimal

  datatype Venue = Binance | OKX | Bybit | Synthetic | OtherVenue(name: string)

  datatype Side = Buy | Sell

  datatype Level = Level(price: Fixed, qty: Fixed)

  datatype BookSnapshot = BookSnapshot(bids: seq<Level>, asks: seq<Level>, sequence: int, receiveTime: int)

  datatype BookDelta = BookDelta(
    bids: seq<Level>, asks: seq<Level>, sequence: int, prevSequence: int, receiveTime: int)

  datatype MarketEvent =
    | SnapshotEvent(snapshot: BookSnapshot)
    | DeltaEvent(delta: BookDelta)
    | TradeEvent

  /** Taker fees in basis points, by venue. */
  type FeeSchedule = map<Venue, Fixed>

  /** A venue pays its own rate, and one that the schedule leaves out pays none. */
  function TakerBps(fees: FeeSchedule, v: Venue): (bps: Fixed)
    ensures v in fees ==> bps == fees[v]
    ensures v !in fees ==> bps == 0
  {
    if v in fees then fees[v] else 0
  }

  /** The price list a side of the book is kept as: price to positive quantity. */
  type Depth = map<Fixed, Fixed>

  predicate Better(side: Side, p: Fixed, q: Fixed) {
    match side
    case Buy => p > q
    case Sell => p < q
  }
}
