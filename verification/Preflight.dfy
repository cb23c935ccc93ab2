/**
 The preflight before an entry is submitted, in exact reals: whether confirmation is required,
 the daily continuation check over intraday candles, and the quote, fade and reversal checks.
 */
module Preflight {
  import opened Common

  // ---- Is confirmation required? ----

  /** A configured flag: absent, unparsable, or a definite answer. */
  datatype Flag = Absent | Malformed | Given(value: bool)

  /** The legacy nested gate record. */
  datatype Nested = NoGate | NotARecord | Gate(flag: Flag)

  predicate Says(f: Flag, value: bool) {
    f == Given(value)
  }

  function NestedFlag(n: Nested): Flag {
    if n.Gate? then n.flag else Absent
  }

  /** The source's cascade: conflict first, then live, then top level before nested. */
  function Required(live: bool, liveDefault: Flag, top: Flag, nested: Nested): bool {
    var inner := NestedFlag(nested);
    var conflict := top.Given? && inner.Given? && top.value != inner.value;
    var standing := if liveDefault.Given? then liveDefault.value else true;
    if conflict then true
    else if live then standing || Says(top, true) || Says(inner, true)
    else if top.Given? then top.value
    else if inner.Given? then inner.value
    else false
  }

  /** The cascade collapses: live runs are exempt only by an explicit false default, and beyond
      that confirmation is required exactly when some source says so. */
  lemma RequiredIff(live: bool, liveDefault: Flag, top: Flag, nested: Nested)
    ensures Required(live, liveDefault, top, nested) <==>
              (live && liveDefault != Given(false)) || top == Given(true) || NestedFlag(nested) == Given(true)
  {
  }

  // ---- Daily continuation ----

  datatype Direction = Call | Put | Neither
  datatype Mode = Off | Observe | Enforce
  datatype Candle = Candle(open: Option<real>, high: Option<real>, low: Option<real>, close: Option<real>)

  /** The extreme on the trade's side, and whether one price lies beyond another in its direction. */
  function Extreme(c: Candle, d: Direction): Option<real> {
    if d.Call? then c.high else c.low
  }

  predicate Beyond(d: Direction, x: real, y: real) {
    if d.Call? then x > y else x < y
  }

  predicate Touches(c: Candle, d: Direction, trigger: real) {
    match d
    case Call => c.high.Some? && c.high.value >= trigger
    case Put => c.low.Some? && c.low.value <= trigger
    case Neither => false
  }

  function FirstBreach(cs: seq<Candle>, d: Direction, trigger: real): Option<nat> {
    if |cs| == 0 then None
    else if Touches(cs[0], d, trigger) then Some(0)
    else
      match FirstBreach(cs[1..], d, trigger)
      case None => None
      case Some(k) => Some(k + 1)
  }

  /** The furthest extreme of some candles, if any has one. */
  function Furthest(cs: seq<Candle>, d: Direction): Option<real> {
    if |cs| == 0 then None
    else
      var rest, here := Furthest(cs[1..], d), Extreme(cs[0], d);
      if here.None? then rest
      else if rest.Some? && Beyond(d, rest.value, here.value) then rest
      else here
  }

  predicate FreshExtension(cs: seq<Candle>, d: Direction, k: nat)
    requires k < |cs|
  {
    var far := Furthest(cs[k + 1..], d);
    Extreme(cs[k], d).Some? && far.Some? && Beyond(d, far.value, Extreme(cs[k], d).value)
  }

  predicate Continues(c: Candle, d: Direction, trigger: real, buffer: real) {
    && c.open.Some? && c.close.Some?
    && match d
       case Call => c.close.value > trigger + buffer && c.close.value >= c.open.value
       case Put => c.close.value < trigger - buffer && c.close.value <= c.open.value
       case Neither => false
  }

  predicate AnyContinues(cs: seq<Candle>, d: Direction, trigger: real, buffer: real) {
    |cs| > 0 && (Continues(cs[0], d, trigger, buffer) || AnyContinues(cs[1..], d, trigger, buffer))
  }

  function LastThree(cs: seq<Candle>): seq<Candle> {
    if |cs| <= 3 then cs else cs[|cs| - 3..]
  }

  function Buffer(trigger: real, pct: real): real {
    trigger * pct
  }

  predicate BackThrough(d: Direction, current: real, trigger: real) {
    if d.Call? then current < trigger else current > trigger
  }

  /** Whether the daily check lets the entry through; outside enforce mode it never blocks. */
  predicate DailyAllows(mode: Mode, daily: bool, d: Direction, cs: seq<Candle>, trigger: Option<real>,
      current: Option<real>, bufferPct: real) {
    if !daily || !mode.Enforce? then true
    else if |cs| == 0 || trigger.None? || current.None? then false
    else
      var k := FirstBreach(cs, d, trigger.value);
      && k.Some? && k.value < |cs|
      && !BackThrough(d, current.value, trigger.value)
      && (FreshExtension(cs, d, k.value)
          || AnyContinues(LastThree(cs), d, trigger.value, Buffer(trigger.value, bufferPct)))
  }

  lemma {:induction false} FirstBreachIsFirst(cs: seq<Candle>, d: Direction, trigger: real)
    ensures var k := FirstBreach(cs, d, trigger);
            && (k.Some? ==>
                  && k.value < |cs| && Touches(cs[k.value], d, trigger)
                  && forall j :: 0 <= j < k.value ==> !Touches(cs[j], d, trigger))
            && (k.None? ==> forall j :: 0 <= j < |cs| ==> !Touches(cs[j], d, trigger))
  {
    if |cs| > 0 {
      FirstBreachIsFirst(cs[1..], d, trigger);
      assert forall j :: 0 < j < |cs| ==> cs[j] == cs[1..][j - 1];
    }
  }

  lemma {:induction false} FurthestIsReached(cs: seq<Candle>, d: Direction, x: real)
    ensures (Furthest(cs, d).Some? && Beyond(d, Furthest(cs, d).value, x)) <==>
              exists j :: 0 <= j < |cs| && Extreme(cs[j], d).Some? && Beyond(d, Extreme(cs[j], d).value, x)
  {
    if |cs| > 0 {
      FurthestIsReached(cs[1..], d, x);
      assert forall j :: 0 < j < |cs| ==> cs[j] == cs[1..][j - 1];
      if j :| 0 <= j < |cs| - 1 && Extreme(cs[1..][j], d).Some? && Beyond(d, Extreme(cs[1..][j], d).value, x) {
        assert cs[j + 1] == cs[1..][j];
      }
    }
  }

  lemma {:induction false} AnyContinuesIff(cs: seq<Candle>, d: Direction, trigger: real, buffer: real)
    ensures AnyContinues(cs, d, trigger, buffer) <==> exists c :: c in cs && Continues(c, d, trigger, buffer)
  {
    if |cs| > 0 {
      AnyContinuesIff(cs[1..], d, trigger, buffer);
      assert cs == [cs[0]] + cs[1..];
    }
  }

  ghost predicate IsFirstBreach(cs: seq<Candle>, d: Direction, trigger: real, k: int) {
    0 <= k < |cs| && Touches(cs[k], d, trigger) && forall j :: 0 <= j < k ==> !Touches(cs[j], d, trigger)
  }

  /** Some later candle goes beyond the extreme of candle `k`. */
  ghost predicate Extended(cs: seq<Candle>, d: Direction, k: nat)
    requires k < |cs|
  {
    && Extreme(cs[k], d).Some?
    && exists j ::
         k < j < |cs| && Extreme(cs[j], d).Some? && Beyond(d, Extreme(cs[j], d).value, Extreme(cs[k], d).value)
  }

  lemma FreshExtensionIff(cs: seq<Candle>, d: Direction, k: nat)
    requires k < |cs|
    ensures FreshExtension(cs, d, k) <==> Extended(cs, d, k)
  {
    if Extreme(cs[k], d).Some? {
      var x, rest := Extreme(cs[k], d).value, cs[k + 1..];
      FurthestIsReached(rest, d, x);
      if j :| k < j < |cs| && Extreme(cs[j], d).Some? && Beyond(d, Extreme(cs[j], d).value, x) {
        assert rest[j - k - 1] == cs[j];
      }
      if j :| 0 <= j < |rest| && Extreme(rest[j], d).Some? && Beyond(d, Extreme(rest[j], d).value, x) {
        assert cs[j + k + 1] == rest[j];
      }
    }
  }

  /** One of the last three candles closes beyond the trigger by the buffer, in the trade's direction. */
  ghost predicate LateContinuation(cs: seq<Candle>, d: Direction, trigger: real, buffer: real) {
    exists c :: c in LastThree(cs) && Continues(c, d, trigger, buffer)
  }

  /** In enforce mode, with candles and both prices: an entry passes exactly when some first candle
      touches the trigger, price is not back through it, and the move was extended after that
      candle or continues in the last three. */
  lemma DailyCheckIsExistential(d: Direction, cs: seq<Candle>, trigger: real, current: real, bufferPct: real)
    requires |cs| > 0
    ensures DailyAllows(Enforce, true, d, cs, Some(trigger), Some(current), bufferPct) <==>
              && !BackThrough(d, current, trigger)
              && exists k :: IsFirstBreach(cs, d, trigger, k)
                  && (Extended(cs, d, k) || LateContinuation(cs, d, trigger, Buffer(trigger, bufferPct)))
  {
    FirstBreachIsFirst(cs, d, trigger);
    AnyContinuesIff(LastThree(cs), d, trigger, Buffer(trigger, bufferPct));
    var first := FirstBreach(cs, d, trigger);
    if first.Some? {
      FreshExtensionIff(cs, d, first.value);
      assert IsFirstBreach(cs, d, trigger, first.value);
    }
    forall k | IsFirstBreach(cs, d, trigger, k) ensures first == Some(k) {
      assert first.Some?;
    }
  }

  // ---- The quote checks ----

  /** A numeric input: missing, not a finite number, or a number. */
  datatype Number = Missing | Invalid | Num(x: real)

  datatype Limits = Limits(fadePct: real, reversalPct: real, spread: real, quoteAge: real, confirmSeconds: real)

  /** `requirement` and the daily inputs are already resolved; `live` demands complete evidence. */
  datatype Input = Input(
    required: bool, live: bool, mode: Mode, daily: bool, intraday: bool, score: real, direction: Direction,
    candles: seq<Candle>, bufferPct: real,
    trigger: Number, underlying: Number, bid: Number, ask: Number,
    quoteAgeMs: Number, underlyingAgeMs: Number, decision: Number)

  datatype Reason =
    | DailyContinuation | InvalidDirection | MissingQuote | InvalidQuote | CrossedQuote | QuoteAge | StaleQuote
    | WideSpread | DecisionPrice | OptionFade | TriggerPrice | Underlying | UnderlyingAge | StaleUnderlying
    | UnderlyingReversal
  datatype Verdict = Pass | Fail(reason: Reason)

  function Least(a: real, b: real): real {
    if b < a then b else a
  }

  /** High-conviction daily setups get at most 15 seconds, good ones 45. */
  function ConfirmSeconds(i: Input, l: Limits): real {
    if i.intraday then Max(l.confirmSeconds, l.quoteAge)
    else if i.score >= 78.0 then Least(l.confirmSeconds, 15.0)
    else if i.score >= 70.0 then Least(l.confirmSeconds, 45.0)
    else l.confirmSeconds
  }

  function MaxAge(i: Input, l: Limits): real {
    Least(ConfirmSeconds(i, l), l.quoteAge)
  }

  predicate Positive(n: Number) {
    n.Num? && n.x > 0.0
  }

  function MidOf(bid: real, ask: real): real {
    (bid + ask) / 2.0
  }

  function Spread(bid: real, ask: real): real
    requires bid + ask > 0.0
  {
    (ask - bid) / MidOf(bid, ask)
  }

  function FadePct(decision: real, mid: real): real
    requires decision > 0.0
  {
    (decision - mid) / decision * 100.0
  }

  function MovePct(underlying: real, trigger: real): real
    requires trigger > 0.0
  {
    (underlying - trigger) / trigger * 100.0
  }

  function Value(n: Number): Option<real> {
    if n.Num? then Some(n.x) else None
  }

  predicate DailyPasses(i: Input) {
    DailyAllows(i.mode, i.daily, i.direction, i.candles, Value(i.trigger), Value(i.underlying), i.bufferPct)
  }

  function QuoteVerdict(i: Input, maxAge: real, maxSpread: real): Verdict {
    if i.bid.Missing? || i.ask.Missing? then Fail(MissingQuote)
    else if !Positive(i.bid) || !Positive(i.ask) then Fail(InvalidQuote)
    else if i.ask.x < i.bid.x then Fail(CrossedQuote)
    else if !i.quoteAgeMs.Num? || i.quoteAgeMs.x / 1000.0 < 0.0 then Fail(QuoteAge)
    else if i.quoteAgeMs.x / 1000.0 > maxAge then Fail(StaleQuote)
    else if Spread(i.bid.x, i.ask.x) > maxSpread then Fail(WideSpread)
    else Pass
  }

  function FadeVerdict(i: Input, maxFade: real): Verdict
    requires i.bid.Num? && i.ask.Num?
  {
    if i.live && !Positive(i.decision) then Fail(DecisionPrice)
    else if Positive(i.decision) && FadePct(i.decision.x, MidOf(i.bid.x, i.ask.x)) > maxFade then Fail(OptionFade)
    else Pass
  }

  function UnderlyingVerdict(i: Input, maxAge: real, maxReversal: real): Verdict {
    if i.live && !Positive(i.trigger) then Fail(TriggerPrice)
    else if i.live && !Positive(i.underlying) then Fail(Underlying)
    else if i.live && (!i.underlyingAgeMs.Num? || i.underlyingAgeMs.x / 1000.0 < 0.0) then Fail(UnderlyingAge)
    else if i.live && i.underlyingAgeMs.x / 1000.0 > maxAge then Fail(StaleUnderlying)
    else if Positive(i.underlying) && Positive(i.trigger) then
      var move := MovePct(i.underlying.x, i.trigger.x);
      if (i.direction.Call? && -move > maxReversal) || (i.direction.Put? && move > maxReversal)
        then Fail(UnderlyingReversal) else Pass
    else Pass
  }

  function Check(i: Input, l: Limits): Verdict {
    if !DailyPasses(i) then Fail(DailyContinuation)
    else if !i.required then Pass
    else if i.direction.Neither? then Fail(InvalidDirection)
    else if QuoteVerdict(i, MaxAge(i, l), l.spread).Fail? then QuoteVerdict(i, MaxAge(i, l), l.spread)
    else if FadeVerdict(i, l.fadePct).Fail? then FadeVerdict(i, l.fadePct)
    else UnderlyingVerdict(i, MaxAge(i, l), l.reversalPct)
  }

  // ---- Monotonicity ----

  predicate Fresher(age: Number, was: Number) {
    age == was || (age.Num? && was.Num? && 0.0 <= age.x <= was.x)
  }

  predicate Further(d: Direction, price: Number, was: Number) {
    price == was || (Positive(price) && Positive(was) && (price.x == was.x || Beyond(d, price.x, was.x)))
  }

  /** The same check with a bid raised at most to the ask, younger quotes, and the underlying moved
      further in the trade's direction at positive prices. */
  predicate Better(i: Input, was: Input) {
    && i == was.(bid := i.bid, quoteAgeMs := i.quoteAgeMs, underlyingAgeMs := i.underlyingAgeMs,
        underlying := i.underlying)
    && (i.bid == was.bid || (i.bid.Num? && was.bid.Num? && was.ask.Num? && was.bid.x <= i.bid.x <= was.ask.x))
    && Fresher(i.quoteAgeMs, was.quoteAgeMs) && Fresher(i.underlyingAgeMs, was.underlyingAgeMs)
    && Further(i.direction, i.underlying, was.underlying)
  }

  lemma QuotientAtMost(x: real, y: real, bound: real)
    requires y > 0.0
    ensures x / y <= bound <==> x <= bound * y
  {
    var q := x / y;
    assert q * y == x;
    assert (bound - q) * y == bound * y - x;
  }

  /** The required checks without a quotient: an uncrossed fresh quote inside the spread, an option
      mid that kept enough of its decision price, and an underlying that has not come back through
      the trigger too far; a live run must have all of it on record. */
  predicate Clean(i: Input, l: Limits) {
    && !i.direction.Neither?
    && Positive(i.bid) && Positive(i.ask) && i.bid.x <= i.ask.x
    && i.quoteAgeMs.Num? && 0.0 <= i.quoteAgeMs.x <= 1000.0 * MaxAge(i, l)
    && i.ask.x - i.bid.x <= l.spread * MidOf(i.bid.x, i.ask.x)
    && (i.live ==> Positive(i.decision) && Positive(i.trigger) && Positive(i.underlying))
    && (Positive(i.decision) ==> 100.0 * (i.decision.x - MidOf(i.bid.x, i.ask.x)) <= l.fadePct * i.decision.x)
    && (i.live ==> i.underlyingAgeMs.Num? && 0.0 <= i.underlyingAgeMs.x <= 1000.0 * MaxAge(i, l))
    && (Positive(i.trigger) && Positive(i.underlying) ==>
          100.0 * (if i.direction.Call? then i.trigger.x - i.underlying.x else i.underlying.x - i.trigger.x)
              <= l.reversalPct * i.trigger.x)
  }

  lemma PercentAtMost(x: real, y: real, bound: real)
    requires y > 0.0
    ensures x / y * 100.0 <= bound <==> 100.0 * x <= bound * y
  {
    QuotientAtMost(x, y, bound / 100.0);
    assert bound / 100.0 * y == bound * y / 100.0;
  }

  lemma QuoteIsClean(i: Input, maxAge: real, maxSpread: real)
    ensures QuoteVerdict(i, maxAge, maxSpread).Pass? <==>
              && Positive(i.bid) && Positive(i.ask) && i.bid.x <= i.ask.x
              && i.quoteAgeMs.Num? && 0.0 <= i.quoteAgeMs.x <= 1000.0 * maxAge
              && i.ask.x - i.bid.x <= maxSpread * MidOf(i.bid.x, i.ask.x)
  {
    if Positive(i.bid) && Positive(i.ask) {
      QuotientAtMost(i.ask.x - i.bid.x, MidOf(i.bid.x, i.ask.x), maxSpread);
    }
  }

  lemma FadeIsClean(i: Input, maxFade: real)
    requires i.bid.Num? && i.ask.Num?
    ensures FadeVerdict(i, maxFade).Pass? <==>
              && (i.live ==> Positive(i.decision))
              && (Positive(i.decision) ==> 100.0 * (i.decision.x - MidOf(i.bid.x, i.ask.x)) <= maxFade * i.decision.x)
  {
    if Positive(i.decision) {
      PercentAtMost(i.decision.x - MidOf(i.bid.x, i.ask.x), i.decision.x, maxFade);
    }
  }

  lemma UnderlyingIsClean(i: Input, maxAge: real, maxReversal: real)
    requires !i.direction.Neither?
    ensures UnderlyingVerdict(i, maxAge, maxReversal).Pass? <==>
              && (i.live ==> Positive(i.trigger) && Positive(i.underlying))
              && (i.live ==> i.underlyingAgeMs.Num? && 0.0 <= i.underlyingAgeMs.x <= 1000.0 * maxAge)
              && (Positive(i.trigger) && Positive(i.underlying) ==>
                    100.0 * (if i.direction.Call? then i.trigger.x - i.underlying.x else i.underlying.x - i.trigger.x)
                        <= maxReversal * i.trigger.x)
  {
    if Positive(i.trigger) && Positive(i.underlying) {
      var move := i.underlying.x - i.trigger.x;
      PercentAtMost(move, i.trigger.x, maxReversal);
      PercentAtMost(-move, i.trigger.x, maxReversal);
      assert -move / i.trigger.x * 100.0 == -(move / i.trigger.x * 100.0);
    }
  }

  /** An entry passes exactly when the daily check allows it and, where confirmation is required,
      everything is clean. */
  lemma PassesIffClean(i: Input, l: Limits)
    ensures Check(i, l).Pass? <==> DailyPasses(i) && (i.required ==> Clean(i, l))
  {
    QuoteIsClean(i, MaxAge(i, l), l.spread);
    if i.bid.Num? && i.ask.Num? {
      FadeIsClean(i, l.fadePct);
    }
    if !i.direction.Neither? {
      UnderlyingIsClean(i, MaxAge(i, l), l.reversalPct);
    }
  }

  lemma SpreadNarrows(bid: real, bid': real, ask: real, bound: real)
    requires 0.0 < bid <= bid' <= ask && Spread(bid, ask) <= bound
    ensures Spread(bid', ask) <= bound
  {
    QuotientAtMost(ask - bid, MidOf(bid, ask), bound);
    QuotientAtMost(ask - bid', MidOf(bid', ask), bound);
    assert bound >= 0.0 by {
      assert bound * MidOf(bid, ask) >= 0.0;
    }
    assert bound * (MidOf(bid', ask) - MidOf(bid, ask)) >= 0.0;
  }

  lemma FadeShrinks(decision: real, mid: real, mid': real)
    requires decision > 0.0 && mid <= mid'
    ensures FadePct(decision, mid') <= FadePct(decision, mid)
  {
    QuotientAtMost(decision - mid', decision, (decision - mid) / decision);
    QuotientAtMost(decision - mid, decision, (decision - mid) / decision);
  }

  lemma MoveGrows(trigger: real, price: real, price': real)
    requires trigger > 0.0 && price <= price'
    ensures MovePct(price, trigger) <= MovePct(price', trigger)
  {
    QuotientAtMost(price - trigger, trigger, (price' - trigger) / trigger);
    QuotientAtMost(price' - trigger, trigger, (price' - trigger) / trigger);
  }

  lemma QuoteStaysClean(i: Input, was: Input, maxAge: real, maxSpread: real)
    requires Better(i, was) && QuoteVerdict(was, maxAge, maxSpread).Pass?
    ensures QuoteVerdict(i, maxAge, maxSpread).Pass?
  {
    SpreadNarrows(was.bid.x, i.bid.x, was.ask.x, maxSpread);
  }

  lemma FadeStaysSmall(i: Input, was: Input, maxFade: real)
    requires Better(i, was) && was.bid.Num? && was.ask.Num? && FadeVerdict(was, maxFade).Pass?
    ensures i.bid.Num? && FadeVerdict(i, maxFade).Pass?
  {
    if Positive(was.decision) {
      FadeShrinks(was.decision.x, MidOf(was.bid.x, was.ask.x), MidOf(i.bid.x, i.ask.x));
    }
  }

  lemma UnderlyingStaysClean(i: Input, was: Input, maxAge: real, maxReversal: real)
    requires Better(i, was) && !i.direction.Neither? && UnderlyingVerdict(was, maxAge, maxReversal).Pass?
    ensures UnderlyingVerdict(i, maxAge, maxReversal).Pass?
  {
    if Positive(was.underlying) && Positive(i.underlying) && Positive(was.trigger) {
      if i.direction.Call? {
        MoveGrows(was.trigger.x, was.underlying.x, i.underlying.x);
      } else {
        MoveGrows(was.trigger.x, i.underlying.x, was.underlying.x);
      }
    }
  }

  lemma DailyStaysAllowed(i: Input, was: Input)
    requires Better(i, was) && DailyPasses(was) && !i.direction.Neither?
    ensures DailyPasses(i)
  {
  }

  /** Better evidence never turns a pass into a fail. */
  lemma BetterEvidenceStillPasses(i: Input, was: Input, l: Limits)
    requires was.required && Better(i, was) && Check(was, l).Pass?
    ensures Check(i, l).Pass?
  {
    DailyStaysAllowed(i, was);
    QuoteStaysClean(i, was, MaxAge(was, l), l.spread);
    FadeStaysSmall(i, was, l.fadePct);
    UnderlyingStaysClean(i, was, MaxAge(was, l), l.reversalPct);
  }

  lemma NoLess(x: real, y: real)
    requires x >= 0.0 && y >= 0.0
    ensures x * y >= 0.0
  {
  }

  lemma SpreadStaysSmall(bid: real, ask: real, lower: real, bound: real)
    requires 0.0 < bid <= lower <= ask && ask - bid <= bound * MidOf(bid, ask)
    ensures lower - bid <= bound * MidOf(bid, lower)
  {
    assert bound >= 0.0 by {
      assert bound * MidOf(bid, ask) >= 0.0;
    }
    if bound > 2.0 {
      NoLess(bound - 2.0, MidOf(bid, lower));
    } else {
      NoLess(2.0 - bound, ask - lower);
      assert bound * MidOf(bid, ask) - bound * MidOf(bid, lower) == bound * (ask - lower) / 2.0;
    }
  }

  /** A lower ask narrows the spread but lowers the mid.  From a required check that passes, an ask
      lowered at most to the bid still passes exactly when the new mid keeps enough of the decision
      price, and otherwise fails for that reason alone. */
  lemma LowerAskPassesIff(was: Input, ask: real, l: Limits)
    requires was.required && Check(was, l).Pass? && was.bid.Num? && was.ask.Num? && was.bid.x <= ask <= was.ask.x
    ensures Check(was.(ask := Num(ask)), l) ==
              if Positive(was.decision) && 100.0 * (was.decision.x - MidOf(was.bid.x, ask)) > l.fadePct * was.decision.x
              then Fail(OptionFade) else Pass
  {
    var i := was.(ask := Num(ask));
    QuoteIsClean(was, MaxAge(was, l), l.spread);
    SpreadStaysSmall(was.bid.x, was.ask.x, ask, l.spread);
    QuoteIsClean(i, MaxAge(i, l), l.spread);
    FadeIsClean(i, l.fadePct);
    assert DailyPasses(i) && UnderlyingVerdict(i, MaxAge(i, l), l.reversalPct).Pass?;
  }

  /** Both outcomes occur: with the default limits, an ask from 9.5 to 9.2 turns a pass into a fade. */
  lemma LowerAskMayFail(l: Limits)
    requires l.fadePct == 8.0 && l.spread == 0.1 && l.quoteAge == 10.0 && l.confirmSeconds == 45.0
    ensures var was := Input(true, false, Off, false, false, 0.0, Call, [], 0.0, Missing, Missing, Num(9.0),
        Num(9.5), Num(0.0), Missing, Num(10.0));
            Check(was, l).Pass? && Check(was.(ask := Num(9.2)), l) == Fail(OptionFade)
  {
    var was := Input(true, false, Off, false, false, 0.0, Call, [], 0.0, Missing, Missing, Num(9.0), Num(9.5),
        Num(0.0), Missing, Num(10.0));
    QuotientAtMost(0.5, MidOf(9.0, 9.5), 0.1);
    QuotientAtMost(0.2, MidOf(9.0, 9.2), 0.1);
    assert FadePct(10.0, MidOf(9.0, 9.5)) == 7.5;
    assert FadePct(10.0, MidOf(9.0, 9.2)) == 9.0;
    assert MaxAge(was, l) == 10.0;
  }
}
