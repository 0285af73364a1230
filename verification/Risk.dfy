/** Pre-trade checks and the kill switch (internal/risk/risk.go). */
module Risk {
  import opened Outcomes
  import opened Decimal
  import opened Domain
  import opened BookSpec
  import opened Sums
  import opened CheckedSums
  import opened Portfolio

  datatype Limits = Limits(
    maxTradeNotional: Fixed,
    maxSymbolExposure: Fixed,
    maxVenueExposure: Fixed,
    maxTotalExposure: Fixed,
    minExpectedEdge: Fixed,
    maxQuoteAge: int,
    maxOutstanding: int,
    maxConsecutiveFails: int,
    dailyLossLimit: Fixed,
    killSwitch: bool)

  datatype Reason =
    | KillSwitchActive(why: string)
    | MaxOutstandingOrders
    | MaxConsecutiveFailures
    | MaxTradeNotional
    | BelowMinExpectedEdge
    | DailyLossLimit
    | BookNotReady(venue: Venue)
    | BookStale(venue: Venue)
    | QuoteTooOld(venue: Venue)
    | MaxVenueExposure(venue: Venue)
    | MaxSymbolExposure
    | MaxTotalExposure

  datatype Decision = Decision(allowed: bool, reasons: seq<Reason>) {
    /** Denies for each of `rs`, in order. */
    function Deny(rs: seq<Reason>): (d: Decision)
      ensures d.reasons == reasons + rs
      ensures (allowed <==> reasons == []) ==> (d.allowed <==> d.reasons == [])
    {
      if rs == [] then this else Decision(false, reasons + rs)
    }
  }

  datatype RiskState = RiskState(kill: bool, killReason: string, consecutiveFails: nat, outstanding: nat)

  /** What a check is asked about, and the views and mid prices it reads. */
  datatype Request = Request(
    now: int,
    buyVenue: Venue,
    sellVenue: Venue,
    qty: Fixed,
    buyVWAP: Fixed,
    expectedNet: Fixed,
    buyView: Option<View>,
    sellView: Option<View>,
    buyMid: Checked<Option<Fixed>>,
    sellMid: Checked<Option<Fixed>>)

  function When(cond: bool, r: Reason): seq<Reason> {
    if cond then [r] else []
  }

  function StateReasons(l: Limits, s: RiskState): seq<Reason> {
    When(s.kill, KillSwitchActive(s.killReason))
    + When(l.maxOutstanding > 0 && s.outstanding + 2 > l.maxOutstanding, MaxOutstandingOrders)
    + When(l.maxConsecutiveFails > 0 && s.consecutiveFails >= l.maxConsecutiveFails, MaxConsecutiveFailures)
  }

  function TradeReasons(l: Limits, notional: Fixed, expectedNet: Fixed, realized: Fixed): seq<Reason> {
    When(l.maxTradeNotional > 0 && notional > l.maxTradeNotional, MaxTradeNotional)
    + When(l.minExpectedEdge > 0 && expectedNet < l.minExpectedEdge, BelowMinExpectedEdge)
    + When(l.dailyLossLimit > 0 && Abs(realized) >= l.dailyLossLimit && realized < 0, DailyLossLimit)
  }

  function FreshnessReasons(l: Limits, now: int, v: Venue, view: Option<View>): seq<Reason> {
    if view.None? || !view.value.state.ready then [BookNotReady(v)]
    else
      When(view.value.state.stale, BookStale(v))
      + When(l.maxQuoteAge > 0 && now - view.value.state.lastUpdatedAt > l.maxQuoteAge, QuoteTooOld(v))
  }

  /** The exposures a check sums up: of the two venues, and of all. */
  datatype ExposureSums = ExposureSums(buy: Checked<Fixed>, sell: Checked<Fixed>, total: Checked<Fixed>)

  /** Each sum is what some order of the positions gives. */
  ghost predicate PossibleSums(e: ExposureSums, l: LedgerState, r: Request) {
    && CanSumTo(VenueExposures(l, r.buyVenue), e.buy)
    && CanSumTo(VenueExposures(l, r.sellVenue), e.sell)
    && CanSumTo(Exposures(l), e.total)
  }

  ghost function ExactSums(l: LedgerState, r: Request): ExposureSums {
    ExposureSums(Fit(MapSum(VenueExposures(l, r.buyVenue))), Fit(MapSum(VenueExposures(l, r.sellVenue))),
                 Fit(MapSum(Exposures(l))))
  }

  ghost function SomeSums(l: LedgerState, r: Request): (e: ExposureSums)
    ensures PossibleSums(e, l, r)
  {
    ExposureSums(SomeSum(VenueExposures(l, r.buyVenue)), SomeSum(VenueExposures(l, r.sellVenue)), SomeSum(Exposures(l)))
  }

  /** Unless a position is MIN_INT64, the sums do not depend on the order. */
  lemma SumsAreExact(e: ExposureSums, l: LedgerState, r: Request)
    requires PossibleSums(e, l, r) && NoMinPosition(l)
    ensures e == ExactSums(l, r)
  {
    ExposureIsSum(l, r.buyVenue, e.buy);
    ExposureIsSum(l, r.sellVenue, e.sell);
    ExposureIsSum(l, r.buyVenue, e.total);
  }

  function BuyExposureReasons(l: Limits, r: Request, sum: Checked<Fixed>): Checked<seq<Reason>> {
    var mid :- r.buyMid;
    if mid.None? then Done([])
    else
      var exposure :- sum;
      var value :- Mul(exposure, mid.value);
      Done(When(l.maxVenueExposure > 0 && value > l.maxVenueExposure, MaxVenueExposure(r.buyVenue)))
  }

  function SellExposureReasons(l: Limits, r: Request, sum: Checked<Fixed>, totalSum: Checked<Fixed>):
    Checked<seq<Reason>> {
    var mid :- r.sellMid;
    if mid.None? then Done([])
    else
      var exposure :- sum;
      var value :- Mul(exposure, mid.value);
      var total :- totalSum;
      var totalValue :- Mul(total, mid.value);
      Done(When(l.maxVenueExposure > 0 && value > l.maxVenueExposure, MaxVenueExposure(r.sellVenue))
           + When(l.maxSymbolExposure > 0 && value > l.maxSymbolExposure, MaxSymbolExposure)
           + When(l.maxTotalExposure > 0 && totalValue > l.maxTotalExposure, MaxTotalExposure))
  }

  /** The reasons that need no exposure. */
  function PriorReasons(l: Limits, s: RiskState, r: Request, notional: Fixed, realized: Fixed): seq<Reason> {
    StateReasons(l, s)
    + TradeReasons(l, notional, r.expectedNet, realized)
    + FreshnessReasons(l, r.now, r.buyVenue, r.buyView)
    + FreshnessReasons(l, r.now, r.sellVenue, r.sellView)
  }

  /** All reasons against a trade, in the order of the checks, given the exposures. */
  function ReasonsGiven(l: Limits, s: RiskState, r: Request, realized: Fixed, e: ExposureSums): Checked<seq<Reason>> {
    var notional :- Mul(r.buyVWAP, r.qty);
    var buyExposure :- BuyExposureReasons(l, r, e.buy);
    var sellExposure :- SellExposureReasons(l, r, e.sell, e.total);
    Done(PriorReasons(l, s, r, notional, realized) + buyExposure + sellExposure)
  }

  class Engine {
    const limits: Limits
    var kill: bool
    var killReason: string
    var consecutiveFails: nat
    var outstanding: nat

    ghost function Value(): RiskState
      reads this
    {
      RiskState(kill, killReason, consecutiveFails, outstanding)
    }

    constructor (limits: Limits)
      ensures this.limits == limits && Value() == RiskState(limits.killSwitch, "", 0, 0)
    {
      this.limits := limits;
      kill, killReason, consecutiveFails, outstanding := limits.killSwitch, "", 0, 0;
    }

    method ActivateKillSwitch(reason: string)
      modifies this
      ensures Value() == Killed(old(Value()), reason)
      ensures kill && killReason == reason
      ensures consecutiveFails == old(consecutiveFails) && outstanding == old(outstanding)
    {
      kill, killReason := true, reason;
    }

    method ResetKillSwitch()
      modifies this
      ensures Value() == Reset(old(Value()))
      ensures !kill && killReason == "" && consecutiveFails == old(consecutiveFails) && outstanding == old(outstanding)
    {
      kill, killReason := false, "";
    }

    method NoteOrderOpened()
      modifies this
      ensures Value() == Opened(old(Value()))
      ensures outstanding == old(outstanding) + 1 && consecutiveFails == old(consecutiveFails)
      ensures kill == old(kill) && killReason == old(killReason)
    {
      outstanding := outstanding + 1;
    }

    method NoteOrderClosed()
      modifies this
      ensures Value() == Closed(old(Value()))
      ensures outstanding == (if old(outstanding) == 0 then 0 else old(outstanding) - 1)
      ensures consecutiveFails == old(consecutiveFails) && kill == old(kill) && killReason == old(killReason)
    {
      if outstanding > 0 {
        outstanding := outstanding - 1;
      }
    }

    method NoteExecutionResult(success: bool)
      modifies this
      ensures Value() == Noted(old(Value()), success)
      ensures consecutiveFails == (if success then 0 else old(consecutiveFails) + 1)
      ensures outstanding == old(outstanding) && kill == old(kill) && killReason == old(killReason)
    {
      if success {
        consecutiveFails := 0;
      } else {
        consecutiveFails := consecutiveFails + 1;
      }
    }

    /**
      The checks, in order; a decision is allowed exactly when nothing was appended to it. `e` is
      what the exposures came to, in whatever orders they were summed.
     */
    method CheckOpportunity(r: Request, ledger: Ledger) returns (d: Checked<Decision>, ghost e: ExposureSums)
      requires ledger.Valid()
      ensures PossibleSums(e, ledger.value, r)
      ensures match ReasonsGiven(limits, Value(), r, ledger.realized, e)
              case Panicked => d.Panicked?
              case Done(rs) => d.Done? && d.value.reasons == rs
      ensures d.Done? ==> (d.value.allowed <==> d.value.reasons == [])
    {
      hide PriorReasons, CanSumTo;
      e := SomeSums(ledger.value, r);
      var notional :- Mul(r.buyVWAP, r.qty);
      var decision := PriorChecks(r, notional, ledger.realized);
      ghost var buySum, sellSum, totalSum;
      var buyReasons, sellReasons;
      buyReasons, buySum := BuyExposureChecks(r, ledger);
      e := e.(buy := buySum);
      var buy :- buyReasons;
      sellReasons, sellSum, totalSum := SellExposureChecks(r, ledger);
      e := e.(sell := sellSum, total := totalSum);
      var sell :- sellReasons;
      d := Done(decision.Deny(buy).Deny(sell));
    }

    method PriorChecks(r: Request, notional: Fixed, realized: Fixed) returns (d: Decision)
      ensures d.reasons == PriorReasons(limits, Value(), r, notional, realized)
      ensures d.allowed <==> d.reasons == []
    {
      var state := StateChecks();
      d := Decision(true, []).Deny(state);
      var trade := TradeChecks(notional, r.expectedNet, realized);
      d := d.Deny(trade);
      var buy := FreshnessChecks(r.now, r.buyVenue, r.buyView);
      d := d.Deny(buy);
      var sell := FreshnessChecks(r.now, r.sellVenue, r.sellView);
      d := d.Deny(sell);
    }

    method StateChecks() returns (rs: seq<Reason>)
      ensures rs == StateReasons(limits, Value())
    {
      rs := [];
      if kill {
        rs := rs + [KillSwitchActive(killReason)];
      }
      if limits.maxOutstanding > 0 && outstanding + 2 > limits.maxOutstanding {
        rs := rs + [MaxOutstandingOrders];
      }
      if limits.maxConsecutiveFails > 0 && consecutiveFails >= limits.maxConsecutiveFails {
        rs := rs + [MaxConsecutiveFailures];
      }
    }

    method TradeChecks(notional: Fixed, expectedNet: Fixed, realized: Fixed) returns (rs: seq<Reason>)
      ensures rs == TradeReasons(limits, notional, expectedNet, realized)
    {
      rs := [];
      if limits.maxTradeNotional > 0 && notional > limits.maxTradeNotional {
        rs := rs + [MaxTradeNotional];
      }
      if limits.minExpectedEdge > 0 && expectedNet < limits.minExpectedEdge {
        rs := rs + [BelowMinExpectedEdge];
      }
      if limits.dailyLossLimit > 0 && Abs(realized) >= limits.dailyLossLimit && realized < 0 {
        rs := rs + [DailyLossLimit];
      }
    }

    method FreshnessChecks(now: int, v: Venue, view: Option<View>) returns (rs: seq<Reason>)
      ensures rs == FreshnessReasons(limits, now, v, view)
    {
      if view.None? || !view.value.state.ready {
        return [BookNotReady(v)];
      }
      rs := [];
      if view.value.state.stale {
        rs := rs + [BookStale(v)];
      }
      var age := now - view.value.state.lastUpdatedAt;
      if limits.maxQuoteAge > 0 && age > limits.maxQuoteAge {
        rs := rs + [QuoteTooOld(v)];
      }
    }

    method BuyExposureChecks(r: Request, ledger: Ledger) returns (rs: Checked<seq<Reason>>, ghost sum: Checked<Fixed>)
      requires ledger.Valid()
      ensures CanSumTo(VenueExposures(ledger.value, r.buyVenue), sum) && rs == BuyExposureReasons(limits, r, sum)
    {
      sum := SomeSum(VenueExposures(ledger.value, r.buyVenue));
      hide CanSumTo;
      var mid :- r.buyMid;
      if mid.None? {
        rs := Done([]);
        return;
      }
      var venueSum := ledger.VenueExposure(r.buyVenue);
      sum := venueSum;
      var exposure :- venueSum;
      var value :- Mul(exposure, mid.value);
      rs := Done(When(limits.maxVenueExposure > 0 && value > limits.maxVenueExposure, MaxVenueExposure(r.buyVenue)));
    }

    method SellExposureChecks(r: Request, ledger: Ledger)
      returns (rs: Checked<seq<Reason>>, ghost sum: Checked<Fixed>, ghost totalSum: Checked<Fixed>)
      requires ledger.Valid()
      ensures CanSumTo(VenueExposures(ledger.value, r.sellVenue), sum) && CanSumTo(Exposures(ledger.value), totalSum)
      ensures rs == SellExposureReasons(limits, r, sum, totalSum)
    {
      sum, totalSum := SomeSum(VenueExposures(ledger.value, r.sellVenue)), SomeSum(Exposures(ledger.value));
      hide CanSumTo;
      var mid :- r.sellMid;
      if mid.None? {
        rs := Done([]);
        return;
      }
      var venueSum := ledger.VenueExposure(r.sellVenue);
      sum := venueSum;
      var exposure :- venueSum;
      var value :- Mul(exposure, mid.value);
      var out := When(limits.maxVenueExposure > 0 && value > limits.maxVenueExposure, MaxVenueExposure(r.sellVenue));
      out := out + When(limits.maxSymbolExposure > 0 && value > limits.maxSymbolExposure, MaxSymbolExposure);
      var allSum := ledger.TotalExposure();
      totalSum := allSum;
      var total :- allSum;
      var totalValue :- Mul(total, mid.value);
      out := out + When(limits.maxTotalExposure > 0 && totalValue > limits.maxTotalExposure, MaxTotalExposure);
      rs := Done(out);
    }
  }

  function Killed(s: RiskState, reason: string): RiskState {
    s.(kill := true, killReason := reason)
  }

  function Reset(s: RiskState): RiskState {
    s.(kill := false, killReason := "")
  }

  function Opened(s: RiskState): RiskState {
    s.(outstanding := s.outstanding + 1)
  }

  function Closed(s: RiskState): RiskState {
    if s.outstanding > 0 then s.(outstanding := s.outstanding - 1) else s
  }

  function Noted(s: RiskState, success: bool): RiskState {
    s.(consecutiveFails := if success then 0 else s.consecutiveFails + 1)
  }

  /** No reason of state means: no kill switch, and fewer failures than the maximum. */
  lemma NoStateReason(l: Limits, s: RiskState)
    ensures StateReasons(l, s) == [] ==> !s.kill
    ensures StateReasons(l, s) == [] && l.maxConsecutiveFails > 0 ==> s.consecutiveFails < l.maxConsecutiveFails
  {
  }

  // When a trade is allowed.

  /** A limit of zero or less is no limit. */
  predicate AtMost(x: int, limit: int) {
    limit > 0 ==> x <= limit
  }

  predicate Usable(l: Limits, now: int, view: Option<View>) {
    && view.Some? && view.value.state.ready && !view.value.state.stale
    && AtMost(now - view.value.state.lastUpdatedAt, l.maxQuoteAge)
  }

  /** What a quantity of base is worth at a mid price, rounded toward zero. */
  function Worth(qty: int, mid: Fixed): int {
    Quotient(qty * mid, SCALE)
  }

  /** The exposure limits on one leg; the limits on a symbol and in total are checked with the sell side's mid. */
  predicate RoomAt(l: Limits, mid: Option<Fixed>, sum: Checked<Fixed>, sell: bool, total: Checked<Fixed>) {
    mid.Some? ==>
      && sum.Done? && AtMost(Worth(sum.value, mid.value), l.maxVenueExposure)
      && (sell ==>
            && total.Done? && AtMost(Worth(sum.value, mid.value), l.maxSymbolExposure)
            && AtMost(Worth(total.value, mid.value), l.maxTotalExposure))
  }

  predicate WithinState(l: Limits, s: RiskState, r: Request, realized: Fixed) {
    && !s.kill && AtMost(s.outstanding + 2, l.maxOutstanding)
    && (l.maxConsecutiveFails > 0 ==> s.consecutiveFails < l.maxConsecutiveFails)
    && AtMost(Quotient(r.buyVWAP * r.qty, SCALE), l.maxTradeNotional)
    && (l.minExpectedEdge > 0 ==> r.expectedNet >= l.minExpectedEdge)
    && (l.dailyLossLimit > 0 && realized < 0 && realized != MIN_INT64 ==> -realized < l.dailyLossLimit)
    && Usable(l, r.now, r.buyView) && Usable(l, r.now, r.sellView)
  }

  lemma PriorReasonsEmptyIff(l: Limits, s: RiskState, r: Request, realized: Fixed)
    requires Mul(r.buyVWAP, r.qty).Done?
    ensures PriorReasons(l, s, r, Mul(r.buyVWAP, r.qty).value, realized) == [] <==> WithinState(l, s, r, realized)
  {
  }

  lemma BuyRoomIff(l: Limits, r: Request, sum: Checked<Fixed>)
    requires r.buyMid.Done? && BuyExposureReasons(l, r, sum).Done?
    ensures BuyExposureReasons(l, r, sum).value == [] <==> RoomAt(l, r.buyMid.value, sum, false, Done(0))
  {
    if r.buyMid.value.Some? {
      MulIsQuotient(sum.value, r.buyMid.value.value);
    }
  }

  lemma SellRoomIff(l: Limits, r: Request, sum: Checked<Fixed>, total: Checked<Fixed>)
    requires r.sellMid.Done? && SellExposureReasons(l, r, sum, total).Done?
    ensures SellExposureReasons(l, r, sum, total).value == [] <==> RoomAt(l, r.sellMid.value, sum, true, total)
  {
    hide Mul, Quotient;
    if r.sellMid.value.Some? {
      MulIsQuotient(sum.value, r.sellMid.value.value);
      MulIsQuotient(total.value, r.sellMid.value.value);
    }
  }

  /** A trade is allowed exactly when it is within every limit, whatever the exposures came to. */
  lemma AllowedIff(l: Limits, s: RiskState, r: Request, realized: Fixed, e: ExposureSums)
    requires ReasonsGiven(l, s, r, realized, e).Done?
    ensures r.buyMid.Done? && r.sellMid.Done?
    ensures ReasonsGiven(l, s, r, realized, e).value == []
            <==> && WithinState(l, s, r, realized)
                 && RoomAt(l, r.buyMid.value, e.buy, false, Done(0))
                 && RoomAt(l, r.sellMid.value, e.sell, true, e.total)
  {
    hide WithinState, RoomAt, PriorReasons;
    PriorReasonsEmptyIff(l, s, r, realized);
    BuyRoomIff(l, r, e.buy);
    SellRoomIff(l, r, e.sell, e.total);
  }

  predicate ReadyView(view: Option<View>) {
    view.Some? && view.value.state.ready
  }

  /** One leg's view is ready, and older than the limit allows. */
  predicate TooOld(l: Limits, now: int, view: Option<View>) {
    ReadyView(view) && !AtMost(now - view.value.state.lastUpdatedAt, l.maxQuoteAge)
  }

  /** The worth of a sum at a mid, where both are there, is over the limit. */
  predicate WorthOver(mid: Option<Fixed>, sum: Checked<Fixed>, limit: int) {
    mid.Some? && sum.Done? && !AtMost(Worth(sum.value, mid.value), limit)
  }

  /** Whether a reason speaks against a trade, by what the limits mean. */
  predicate Speaks(l: Limits, s: RiskState, r: Request, realized: Fixed, e: ExposureSums, reason: Reason)
    requires r.buyMid.Done? && r.sellMid.Done?
  {
    match reason
    case KillSwitchActive(why) => s.kill && why == s.killReason
    case MaxOutstandingOrders => !AtMost(s.outstanding + 2, l.maxOutstanding)
    case MaxConsecutiveFailures => !AtMost(s.consecutiveFails + 1, l.maxConsecutiveFails)
    case MaxTradeNotional => !AtMost(Worth(r.qty, r.buyVWAP), l.maxTradeNotional)
    case BelowMinExpectedEdge => l.minExpectedEdge > 0 && r.expectedNet < l.minExpectedEdge
    case DailyLossLimit => l.dailyLossLimit > 0 && realized <= -l.dailyLossLimit && realized != MIN_INT64
    case BookNotReady(v) =>
      (v == r.buyVenue && !ReadyView(r.buyView)) || (v == r.sellVenue && !ReadyView(r.sellView))
    case BookStale(v) =>
      || (v == r.buyVenue && ReadyView(r.buyView) && r.buyView.value.state.stale)
      || (v == r.sellVenue && ReadyView(r.sellView) && r.sellView.value.state.stale)
    case QuoteTooOld(v) =>
      (v == r.buyVenue && TooOld(l, r.now, r.buyView)) || (v == r.sellVenue && TooOld(l, r.now, r.sellView))
    case MaxVenueExposure(v) =>
      || (v == r.buyVenue && WorthOver(r.buyMid.value, e.buy, l.maxVenueExposure))
      || (v == r.sellVenue && WorthOver(r.sellMid.value, e.sell, l.maxVenueExposure))
    case MaxSymbolExposure => WorthOver(r.sellMid.value, e.sell, l.maxSymbolExposure)
    case MaxTotalExposure => WorthOver(r.sellMid.value, e.total, l.maxTotalExposure)
  }

  predicate OfState(reason: Reason) {
    reason.KillSwitchActive? || reason.MaxOutstandingOrders? || reason.MaxConsecutiveFailures?
  }

  predicate OfTrade(reason: Reason) {
    reason.MaxTradeNotional? || reason.BelowMinExpectedEdge? || reason.DailyLossLimit?
  }

  predicate OfView(reason: Reason) {
    reason.BookNotReady? || reason.BookStale? || reason.QuoteTooOld?
  }

  predicate OfExposure(reason: Reason) {
    reason.MaxVenueExposure? || reason.MaxSymbolExposure? || reason.MaxTotalExposure?
  }

  lemma StateReasonIff(l: Limits, s: RiskState, r: Request, realized: Fixed, e: ExposureSums, reason: Reason)
    requires r.buyMid.Done? && r.sellMid.Done?
    ensures reason in StateReasons(l, s) <==> OfState(reason) && Speaks(l, s, r, realized, e, reason)
  {
    hide WorthOver, TooOld, Worth;
  }

  lemma TradeReasonIff(l: Limits, s: RiskState, r: Request, realized: Fixed, e: ExposureSums, reason: Reason)
    requires r.buyMid.Done? && r.sellMid.Done? && Mul(r.buyVWAP, r.qty).Done?
    ensures reason in TradeReasons(l, Mul(r.buyVWAP, r.qty).value, r.expectedNet, realized)
            <==> OfTrade(reason) && Speaks(l, s, r, realized, e, reason)
  {
    hide Mul, Quotient, WorthOver, TooOld;
    MulIsQuotient(r.buyVWAP, r.qty);
    assert r.qty * r.buyVWAP == r.buyVWAP * r.qty;
  }

  /** The freshness reasons of one leg. */
  lemma LegReasonIff(l: Limits, now: int, v: Venue, view: Option<View>, reason: Reason)
    ensures reason in FreshnessReasons(l, now, v, view)
            <==> || (reason == BookNotReady(v) && !ReadyView(view))
                 || (reason == BookStale(v) && ReadyView(view) && view.value.state.stale)
                 || (reason == QuoteTooOld(v) && TooOld(l, now, view))
  {
  }

  lemma ViewReasonIff(l: Limits, s: RiskState, r: Request, realized: Fixed, e: ExposureSums, reason: Reason)
    requires r.buyMid.Done? && r.sellMid.Done?
    ensures reason in FreshnessReasons(l, r.now, r.buyVenue, r.buyView)
            || reason in FreshnessReasons(l, r.now, r.sellVenue, r.sellView)
            <==> OfView(reason) && Speaks(l, s, r, realized, e, reason)
  {
    hide FreshnessReasons, ReadyView, TooOld, WorthOver;
    LegReasonIff(l, r.now, r.buyVenue, r.buyView, reason);
    LegReasonIff(l, r.now, r.sellVenue, r.sellView, reason);
  }

  lemma ExposureReasonIff(l: Limits, s: RiskState, r: Request, realized: Fixed, e: ExposureSums, reason: Reason)
    requires r.buyMid.Done? && r.sellMid.Done?
    requires BuyExposureReasons(l, r, e.buy).Done? && SellExposureReasons(l, r, e.sell, e.total).Done?
    ensures reason in BuyExposureReasons(l, r, e.buy).value
            || reason in SellExposureReasons(l, r, e.sell, e.total).value
            <==> OfExposure(reason) && Speaks(l, s, r, realized, e, reason)
  {
    hide Mul, Quotient, TooOld;
    if r.buyMid.value.Some? {
      MulIsQuotient(e.buy.value, r.buyMid.value.value);
    }
    if r.sellMid.value.Some? {
      MulIsQuotient(e.sell.value, r.sellMid.value.value);
      MulIsQuotient(e.total.value, r.sellMid.value.value);
    }
  }

  /** A check lists exactly the reasons that speak against the trade. */
  lemma ReasonIff(l: Limits, s: RiskState, r: Request, realized: Fixed, e: ExposureSums, reason: Reason)
    requires ReasonsGiven(l, s, r, realized, e).Done?
    ensures r.buyMid.Done? && r.sellMid.Done?
    ensures reason in ReasonsGiven(l, s, r, realized, e).value <==> Speaks(l, s, r, realized, e, reason)
  {
    hide Speaks, StateReasons, TradeReasons, FreshnessReasons, Mul;
    StateReasonIff(l, s, r, realized, e, reason);
    TradeReasonIff(l, s, r, realized, e, reason);
    ViewReasonIff(l, s, r, realized, e, reason);
    ExposureReasonIff(l, s, r, realized, e, reason);
  }

  /** The daily loss limit stops a loss that has reached it, unless the loss is exactly MIN_INT64. */
  lemma DailyLossIff(l: Limits, notional: Fixed, expectedNet: Fixed, realized: Fixed)
    ensures DailyLossLimit in TradeReasons(l, notional, expectedNet, realized)
            <==> l.dailyLossLimit > 0 && realized <= -l.dailyLossLimit && realized != MIN_INT64
  {
  }

  function TightLimits(): Limits {
    Limits(1, 1, 1, 1, 2, 1, 1, 1, 1, true)
  }

  /** Two units are bought at two, for an expected net of one raw unit, on stale views that are two nanoseconds old. */
  function WorstRequest(): Request {
    var v := Some(View([], [], State(true, true, 1, 0, 1)));
    Request(3, Binance, OKX, 2 * SCALE, 2 * SCALE, 1, v, v, Done(Some(SCALE)), Done(Some(SCALE)))
  }

  /** The order of the checks: with every limit broken at once, all reasons are listed in it. */
  lemma ReasonsInOrder()
    ensures var rs := ReasonsGiven(TightLimits(), RiskState(true, "manual", 1, 0), WorstRequest(), -1,
                                   ExposureSums(Done(2), Done(2), Done(4)));
            && rs.Done?
            && rs.value == [KillSwitchActive("manual"), MaxOutstandingOrders, MaxConsecutiveFailures,
                            MaxTradeNotional, BelowMinExpectedEdge, DailyLossLimit,
                            BookStale(Binance), QuoteTooOld(Binance), BookStale(OKX), QuoteTooOld(OKX),
                            MaxVenueExposure(Binance), MaxVenueExposure(OKX), MaxSymbolExposure, MaxTotalExposure]
  {
    hide PriorReasons, Mul;
    var l, s, r := TightLimits(), RiskState(true, "manual", 1, 0), WorstRequest();
    MulIsQuotient(2 * SCALE, 2 * SCALE);
    assert Mul(2 * SCALE, 2 * SCALE) == Done(4 * SCALE);
    PriorReasonsInOrder();
    var prior := PriorReasons(l, s, r, 4 * SCALE, -1);
    var buy := BuyExposureReasons(l, r, Done(2));
    var sell := SellExposureReasons(l, r, Done(2), Done(4));
    assert buy == Done([MaxVenueExposure(Binance)]) && sell.Done? by {
      MulIsQuotient(2, SCALE);
      MulIsQuotient(4, SCALE);
    }
    assert sell.value == [MaxVenueExposure(OKX), MaxSymbolExposure, MaxTotalExposure] by {
      MulIsQuotient(2, SCALE);
      MulIsQuotient(4, SCALE);
    }
    assert ReasonsGiven(l, s, r, -1, ExposureSums(Done(2), Done(2), Done(4))) == Done(prior + buy.value + sell.value);
    hide ReasonsGiven, BuyExposureReasons, SellExposureReasons;
  }

  lemma PriorReasonsInOrder()
    ensures PriorReasons(TightLimits(), RiskState(true, "manual", 1, 0), WorstRequest(), 4 * SCALE, -1)
            == [KillSwitchActive("manual"), MaxOutstandingOrders, MaxConsecutiveFailures,
                MaxTradeNotional, BelowMinExpectedEdge, DailyLossLimit,
                BookStale(Binance), QuoteTooOld(Binance), BookStale(OKX), QuoteTooOld(OKX)]
  {
    var l, s, r := TightLimits(), RiskState(true, "manual", 1, 0), WorstRequest();
    assert StateReasons(l, s) == [KillSwitchActive("manual"), MaxOutstandingOrders, MaxConsecutiveFailures];
    assert TradeReasons(l, 4 * SCALE, 1, -1) == [MaxTradeNotional, BelowMinExpectedEdge, DailyLossLimit];
    assert FreshnessReasons(l, 3, Binance, r.buyView) == [BookStale(Binance), QuoteTooOld(Binance)];
    assert FreshnessReasons(l, 3, OKX, r.sellView) == [BookStale(OKX), QuoteTooOld(OKX)];
    hide StateReasons, TradeReasons, FreshnessReasons;
  }

  function LossLimits(): Limits {
    Limits(0, 0, 0, 0, 0, 0, 0, 0, 1, false)
  }

  function QuietRequest(): Request {
    var v := Some(View([], [], State(true, false, 1, 0, 1)));
    Request(0, Binance, OKX, 0, 0, 0, v, v, Done(None), Done(None))
  }

  /** The witness: with a limit of one raw unit, the largest loss there is passes all checks; one unit less does not. */
  lemma LargestLossIsAllowed(e: ExposureSums)
    ensures ReasonsGiven(LossLimits(), RiskState(false, "", 0, 0), QuietRequest(), MIN_INT64, e) == Done([])
    ensures ReasonsGiven(LossLimits(), RiskState(false, "", 0, 0), QuietRequest(), MIN_INT64 + 1, e)
            == Done([DailyLossLimit])
  {
    var l, s, r := LossLimits(), RiskState(false, "", 0, 0), QuietRequest();
    assert Mul(0, 0) == Done(0);
    hide Mul;
    assert StateReasons(l, s) == [] && TradeReasons(l, 0, 0, MIN_INT64) == [];
    assert TradeReasons(l, 0, 0, MIN_INT64 + 1) == [DailyLossLimit];
    assert FreshnessReasons(l, 0, Binance, r.buyView) == [] && FreshnessReasons(l, 0, OKX, r.sellView) == [];
    assert BuyExposureReasons(l, r, e.buy) == Done([]) && SellExposureReasons(l, r, e.sell, e.total) == Done([]);
    assert PriorReasons(l, s, r, 0, MIN_INT64) == [] && PriorReasons(l, s, r, 0, MIN_INT64 + 1) == [DailyLossLimit];
    hide PriorReasons, BuyExposureReasons, SellExposureReasons;
    var none: seq<Reason> := [];
    assert none + none + none == none && [DailyLossLimit] + none + none == [DailyLossLimit];
  }
}
