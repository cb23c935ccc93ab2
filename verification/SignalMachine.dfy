/**
 The decision one poll makes about one watched signal (`WatchedSignal.check`),
 written once for both directions: a CALL enters on the ask and is stopped on the
 bid, a PUT the other way round.  Prices are exact reals, time is whole seconds.
 */
module SignalMachine {
  import opened Common

  const CONTINUITY_MAX_GAP: int := 45
  const WRONG_DIR_BUFFER: real := 0.001

  datatype Side = Call | Put
  datatype WatchState = Pending | Triggered | Expired | Invalidated | Cancelled
  datatype LateState = AwaitingFirstTruth | WithinContinuation | WaitingReset
  datatype LateClass = ZoneWithin | ZonePast | TruthRetry | StopBrokenTerminal | TargetComplete | MoveMissed

  /** What the late-attachment classifier and its reset test say about one poll.
      `Unavailable` is a classifier that could not be imported. */
  datatype LateAnswer = Unavailable | Answer(cls: LateClass, quote: Option<real>, reset: bool)

  /** What does not change while a signal is watched; `driftBand` is the allowed relative
      drift times the trigger price. */
  datatype Config = Config(
    side: Side, trigger: real, stop: Option<real>, polls: nat, expireAt: int,
    maxWatchMinutes: real, driftBand: real)

  ghost predicate ValidConfig(c: Config) {
    c.polls >= 1
  }

  /** Everything one poll reads: two raw quotes and the three clocks `check` consults. */
  datatype Poll = Poll(
    now: int, bid: Option<real>, ask: Option<real>, watchedMinutes: real,
    overnight: bool, daily: bool, preMarket: bool, late: LateAnswer)

  datatype Signal = Signal(
    state: WatchState, breachCount: nat, pendingFirst: Option<int>, lastObs: Option<int>,
    crossedAt: Option<int>, triggeredAt: Option<int>, breachPrice: real,
    firstBid: real, firstAsk: real, triggerPrice: Option<real>, collision: bool,
    late: Option<LateState>, confirmPolls: nat, resetPolls: nat)

  // ---- Quotes ----

  function Usable(raw: Option<real>): Option<real> {
    if raw.Some? && raw.value > 0.0 then raw else None
  }

  /** Both sides present and bid above ask: neither side is evidence. */
  predicate CrossedPair(p: Poll) {
    Usable(p.bid).Some? && Usable(p.ask).Some? && p.bid.value > p.ask.value
  }

  function BidQuote(p: Poll): Option<real> {
    if CrossedPair(p) then None else Usable(p.bid)
  }

  function AskQuote(p: Poll): Option<real> {
    if CrossedPair(p) then None else Usable(p.ask)
  }

  function OrZero(q: Option<real>): real {
    if q.Some? then q.value else 0.0
  }

  function EntryQuote(c: Config, p: Poll): Option<real> {
    if c.side.Call? then AskQuote(p) else BidQuote(p)
  }

  function StopQuote(c: Config, p: Poll): Option<real> {
    if c.side.Call? then BidQuote(p) else AskQuote(p)
  }

  predicate Breaches(c: Config, q: real) {
    if c.side.Call? then q >= c.trigger else q <= c.trigger
  }

  predicate BreaksStop(c: Config, q: real)
    requires c.stop.Some?
  {
    if c.side.Call? then q <= c.stop.value * (1.0 - WRONG_DIR_BUFFER)
    else q >= c.stop.value * (1.0 + WRONG_DIR_BUFFER)
  }

  predicate EntryMissing(c: Config, p: Poll) {
    c.trigger <= 0.0 || EntryQuote(c, p).None?
  }

  predicate StopTruthMissing(c: Config, s: Signal, p: Poll) {
    s.crossedAt.Some? && c.stop.Some? && StopQuote(c, p).None?
  }

  /** A poll that may neither add to nor break a breach streak. */
  predicate Suppressed(c: Config, s: Signal, p: Poll) {
    EntryMissing(c, p) || StopTruthMissing(c, s, p)
  }

  predicate StopIsBroken(c: Config, p: Poll) {
    c.stop.Some? && StopQuote(c, p).Some? && BreaksStop(c, StopQuote(c, p).value)
  }

  // ---- The steps of one poll, in source order ----

  predicate Fresh(last: Option<int>, now: int) {
    last.Some? && 0 <= now - last.value <= CONTINUITY_MAX_GAP
  }

  function ResetStreak(s: Signal): Signal {
    s.(breachCount := 0, pendingFirst := None, breachPrice := 0.0, firstBid := 0.0,
       firstAsk := 0.0, triggerPrice := None, lastObs := None)
  }

  /** A poll without entry evidence holds a fresh partial streak and drops a stale one. */
  function HoldEvidence(s: Signal, now: int, missing: bool): Signal {
    if !missing || s.crossedAt.Some? then s
    else if s.breachCount == 0 then s.(lastObs := None)
    else if Fresh(s.lastObs, now) then s
    else ResetStreak(s)
  }

  function Mid(bid: real, ask: real): real {
    if bid > 0.0 && ask > 0.0 then (bid + ask) / 2.0 else Max(bid, ask)
  }

  /** The price has left the trigger behind in the trade direction after a long watch. */
  predicate DriftedAway(c: Config, p: Poll) {
    var move := Mid(OrZero(BidQuote(p)), OrZero(AskQuote(p))) - c.trigger;
    && !p.overnight && !p.daily && p.watchedMinutes >= c.maxWatchMinutes
    && move + c.trigger > 0.0 && c.trigger != 0.0
    && if c.side.Call? == (c.trigger > 0.0)
       then move > (if c.side.Call? then c.driftBand else -c.driftBand)
       else move < (if c.side.Call? then c.driftBand else -c.driftBand)
  }

  /** `driftBand` turns the source's relative comparison into one without a division. */
  lemma DriftIsRelative(c: Config, p: Poll, maxDrift: real)
    requires c.trigger != 0.0 && c.driftBand == maxDrift * c.trigger
    ensures var mid := Mid(OrZero(BidQuote(p)), OrZero(AskQuote(p)));
            var drift := (mid - c.trigger) / c.trigger;
            DriftedAway(c, p) <==>
              && !p.overnight && !p.daily && p.watchedMinutes >= c.maxWatchMinutes && mid > 0.0
              && (if c.side.Call? then drift > maxDrift else drift < -maxDrift)
  {
    DriftAgainst(Mid(OrZero(BidQuote(p)), OrZero(AskQuote(p))) - c.trigger, c.trigger, c.driftBand, maxDrift);
  }

  lemma DriftAgainst(move: real, t: real, band: real, maxDrift: real)
    requires t != 0.0 && band == maxDrift * t
    ensures move / t > maxDrift <==> if t > 0.0 then move > band else move < band
    ensures move / t < -maxDrift <==> if t > 0.0 then move < -band else move > -band
  {
    RatioAgainst(move, t, maxDrift);
    RatioAgainst(move, t, -maxDrift);
    assert -maxDrift * t == -band;
  }

  lemma RatioAgainst(x: real, t: real, bound: real)
    requires t != 0.0
    ensures x / t > bound <==> if t > 0.0 then x > bound * t else x < bound * t
    ensures x / t < bound <==> if t > 0.0 then x < bound * t else x > bound * t
  {
    var ratio := x / t;
    assert ratio * t == x;
    assert (ratio - bound) * t == x - bound * t;
  }

  /** `Through` lets the poll go on to the ordinary breach path. */
  datatype GateResult = Closed(s: Signal) | Through(s: Signal)

  predicate IsTerminalClass(cls: LateClass) {
    cls.StopBrokenTerminal? || cls.TargetComplete? || cls.MoveMissed?
  }

  function GateAwaiting(s: Signal, cls: LateClass): Signal {
    match cls
    case ZoneWithin => s.(late := Some(WithinContinuation), confirmPolls := 0)
    case ZonePast => s.(late := Some(WaitingReset), resetPolls := 0)
    case TruthRetry => s.(late := None)
    case _ => s
  }

  function GateWithin(c: Config, s: Signal, cls: LateClass): GateResult {
    if cls.ZoneWithin? then
      var s' := s.(confirmPolls := s.confirmPolls + 1);
      if s'.confirmPolls >= c.polls then Through(s'.(late := None)) else Closed(s')
    else if cls.ZonePast? then
      Closed(s.(late := Some(WaitingReset), confirmPolls := 0, resetPolls := 0))
    else Closed(s)
  }

  function GateWaiting(c: Config, s: Signal, reset: bool): Signal {
    if !reset then s.(resetPolls := 0)
    else if s.resetPolls + 1 >= c.polls then s.(late := None, resetPolls := 0, breachCount := 0)
    else s.(resetPolls := s.resetPolls + 1)
  }

  function Gate(c: Config, s: Signal, a: LateAnswer): GateResult {
    if s.late.None? then Through(s)
    else if a.Unavailable? then Closed(s)
    else if a.cls.TruthRetry? && a.quote.None? then Closed(s)
    else if IsTerminalClass(a.cls) then Closed(s.(state := Invalidated, breachCount := 0))
    else
      match s.late.value
      case AwaitingFirstTruth => Closed(GateAwaiting(s, a.cls))
      case WithinContinuation => GateWithin(c, s, a.cls)
      case WaitingReset => Closed(GateWaiting(c, s, a.reset))
  }

  /** The first confirmed crossing is dated by the streak's first observation and never redated. */
  function Confirmed(s: Signal, now: int, q: real): Signal {
    s.(crossedAt := if s.crossedAt.Some? then s.crossedAt
                    else if s.pendingFirst.Some? then s.pendingFirst else Some(now),
       pendingFirst := None, state := Triggered, triggeredAt := Some(now), triggerPrice := Some(q))
  }

  /** One more valid breach observation; the `polls`-th in a row confirms the trigger. */
  function CountBreach(c: Config, s: Signal, now: int, q: real, bid: real, ask: real): Signal {
    var s1 := if s.crossedAt.None? && s.breachCount > 0 && !Fresh(s.lastObs, now) then ResetStreak(s) else s;
    var s2 := if s1.breachCount > 0 then s1 else
      s1.(breachPrice := q, pendingFirst := Some(now), firstBid := bid, firstAsk := ask);
    var s3 := s2.(breachCount := s2.breachCount + 1, lastObs := Some(now));
    if s3.breachCount < c.polls then s3 else Confirmed(s3, now, q)
  }

  function JudgeBreach(c: Config, s: Signal, p: Poll): Signal {
    if Suppressed(c, s, p) then s
    else
      var q := EntryQuote(c, p).value;
      if Breaches(c, q) then CountBreach(c, s, p.now, q, OrZero(BidQuote(p)), OrZero(AskQuote(p)))
      else s.(breachCount := 0, lastObs := None)
  }

  /** The scanner stop acts only once the trigger is confirmed, in the same poll at the earliest. */
  function JudgeStop(c: Config, s: Signal, p: Poll): Signal {
    var preOpenSkip := (p.overnight || p.daily) && p.preMarket && s.crossedAt.None?;
    if s.crossedAt.Some? && StopIsBroken(c, p) && !preOpenSkip
    then s.(collision := s.collision || s.state.Triggered?, state := Invalidated, breachCount := 0)
    else s
  }

  function RequireStopTruth(c: Config, s: Signal, p: Poll): Signal {
    if s.state.Triggered? && StopTruthMissing(c, s, p) then s.(state := Pending) else s
  }

  function Settle(c: Config, s: Signal, p: Poll): Signal {
    RequireStopTruth(c, JudgeStop(c, JudgeBreach(c, s, p), p), p)
  }

  /** The whole of one `check` call. */
  function Step(c: Config, s: Signal, p: Poll): Signal {
    if p.now >= c.expireAt then s.(state := Expired)
    else
      var held := HoldEvidence(s, p.now, EntryMissing(c, p));
      if DriftedAway(c, p) then held.(state := Expired)
      else
        match Gate(c, held, p.late)
        case Closed(s') => s'
        case Through(s') => Settle(c, s', p)
  }

  // ---- Runs ----

  /** The poll loop polls only PENDING watchers.  Three callbacks change a watcher: `Retained` is a
      trigger callback that kept it, which puts a TRIGGERED one back to PENDING; `Rewound` is one
      that also answered a direction reversal by starting it over; `Revived` is the invalidation
      callback of a deferred order that takes a benign invalidation back. */
  datatype Event = Polled(p: Poll) | Retained | Rewound | Revived

  /** The trigger callback may run: after a confirmation, or, for a recovered trigger, without a
      check on a watcher that still counts as PENDING. */
  predicate MayBeCalled(s: Signal) {
    s.state.Triggered? || (s.state.Pending? && s.crossedAt.Some?)
  }

  /** The crossing and the streak are forgotten; the last observation time and the gate are not. */
  function Rewind(s: Signal): Signal {
    s.(state := Pending, breachCount := 0, pendingFirst := None, crossedAt := None, triggeredAt := None,
       breachPrice := 0.0, firstBid := 0.0, firstAsk := 0.0, triggerPrice := None, collision := false)
  }

  function Next(c: Config, s: Signal, e: Event): Signal {
    match e
    case Polled(p) => if s.state.Pending? then Step(c, s, p) else s
    case Retained => if s.state.Triggered? then s.(state := Pending) else s
    case Rewound => if MayBeCalled(s) then Rewind(s) else s
    case Revived => if s.state.Invalidated? then s.(state := Pending, breachCount := 0) else s
  }

  function Run(c: Config, s: Signal, es: seq<Event>): Signal {
    if |es| == 0 then s else Next(c, Run(c, s, es[..|es| - 1]), es[|es| - 1])
  }

  // ---- What a poll observed, for stating theorems about runs ----

  datatype GateSeen = NotReached | Held | Within | ZoneExit | FirstWithin | FirstPast | PreTrigger | ResetPoll
      | NonReset
  datatype Observation = Observation(breach: bool, t: int)
  datatype Seen = Seen(gate: GateSeen, obs: Option<Observation>)

  function GateLabel(s: Signal, a: LateAnswer): GateSeen {
    if s.late.None? then NotReached
    else if a.Unavailable? || (a.cls.TruthRetry? && a.quote.None?) || IsTerminalClass(a.cls) then Held
    else
      match s.late.value
      case AwaitingFirstTruth =>
        (match a.cls case ZoneWithin => FirstWithin case ZonePast => FirstPast case _ => PreTrigger)
      case WithinContinuation =>
        (match a.cls case ZoneWithin => Within case ZonePast => ZoneExit case _ => Held)
      case WaitingReset => if a.reset then ResetPoll else NonReset
  }

  /** The valid price observation a poll makes when the breach path may judge it. */
  function ObsLabel(c: Config, s: Signal, p: Poll): Option<Observation> {
    if Suppressed(c, s, p) then None else Some(Observation(Breaches(c, EntryQuote(c, p).value), p.now))
  }

  /** The late-gate verdict a poll got, and the price evidence it contributed if it reached
      the breach path. */
  function Label(c: Config, s: Signal, e: Event): Seen {
    if !e.Polled? || !s.state.Pending? || e.p.now >= c.expireAt || DriftedAway(c, e.p) then Seen(NotReached, None)
    else
      Seen(GateLabel(s, e.p.late),
           if Gate(c, HoldEvidence(s, e.p.now, EntryMissing(c, e.p)), e.p.late).Through?
             then ObsLabel(c, s, e.p) else None)
  }

  function Trace(c: Config, s: Signal, es: seq<Event>): (t: seq<Seen>)
    ensures |t| == |es|
  {
    if |es| == 0 then [] else
    Trace(c, s, es[..|es| - 1]) + [Label(c, Run(c, s, es[..|es| - 1]), es[|es| - 1])]
  }
}
