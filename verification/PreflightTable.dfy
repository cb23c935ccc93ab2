/**
 The preflight over its raw inputs: the daily check for each direction, the allowed age, and every
 verdict with its reason, without a quotient.
 */
module PreflightTable {
  import opened Common
  import opened Preflight

  // ---- The daily check ----

  /** Candle `k` is the first whose high reaches the trigger. */
  ghost predicate FirstHigh(cs: seq<Candle>, trigger: real, k: int) {
    && 0 <= k < |cs| && cs[k].high.Some? && cs[k].high.value >= trigger
    && forall j :: 0 <= j < k ==> cs[j].high.None? || cs[j].high.value < trigger
  }

  ghost predicate FirstLow(cs: seq<Candle>, trigger: real, k: int) {
    && 0 <= k < |cs| && cs[k].low.Some? && cs[k].low.value <= trigger
    && forall j :: 0 <= j < k ==> cs[j].low.None? || cs[j].low.value > trigger
  }

  ghost predicate HigherAfter(cs: seq<Candle>, k: nat) {
    exists j :: k < j < |cs| && cs[j].high.Some? && cs[k].high.Some? && cs[j].high.value > cs[k].high.value
  }

  ghost predicate LowerAfter(cs: seq<Candle>, k: nat) {
    exists j :: k < j < |cs| && cs[j].low.Some? && cs[k].low.Some? && cs[j].low.value < cs[k].low.value
  }

  /** Among the last three candles one closed above `level`, and not below where it opened. */
  ghost predicate ClosedAbove(cs: seq<Candle>, level: real) {
    exists j :: 0 <= j < |cs| && j >= |cs| - 3 && cs[j].open.Some? && cs[j].close.Some?
      && cs[j].close.value > level && cs[j].close.value >= cs[j].open.value
  }

  ghost predicate ClosedBelow(cs: seq<Candle>, level: real) {
    exists j :: 0 <= j < |cs| && j >= |cs| - 3 && cs[j].open.Some? && cs[j].close.Some?
      && cs[j].close.value < level && cs[j].close.value <= cs[j].open.value
  }

  lemma LastThreeHas(cs: seq<Candle>, c: Candle)
    ensures c in LastThree(cs) <==> exists j :: 0 <= j < |cs| && j >= |cs| - 3 && cs[j] == c
  {
    var from := if |cs| <= 3 then 0 else |cs| - 3;
    assert LastThree(cs) == cs[from..];
    if j :| 0 <= j < |cs| && j >= |cs| - 3 && cs[j] == c { assert cs[from..][j - from] == c; }
  }

  lemma ContinuationIs(cs: seq<Candle>, trigger: real, buffer: real)
    ensures LateContinuation(cs, Call, trigger, buffer) <==> ClosedAbove(cs, trigger + buffer)
    ensures LateContinuation(cs, Put, trigger, buffer) <==> ClosedBelow(cs, trigger - buffer)
  {
    forall j | 0 <= j < |cs| && j >= |cs| - 3 ensures cs[j] in LastThree(cs) {
      LastThreeHas(cs, cs[j]);
    }
    if c :| c in LastThree(cs) && Continues(c, Call, trigger, buffer) { LastThreeHas(cs, c); }
    if c :| c in LastThree(cs) && Continues(c, Put, trigger, buffer) { LastThreeHas(cs, c); }
  }

  /** A daily CALL is let through exactly when the check is off or only observing, or when there is a
      price at or above the trigger and some first candle reached it, followed by a higher one or, among
      the last three, a rising close beyond the trigger by the buffer.  Without candles, trigger or price
      it is blocked. */
  lemma DailyCallIff(mode: Mode, daily: bool, cs: seq<Candle>, trigger: Option<real>, current: Option<real>, pct: real)
    ensures DailyAllows(mode, daily, Call, cs, trigger, current, pct) <==>
              || !daily || mode == Off || mode == Observe
              || (trigger.Some? && current.Some? && current.value >= trigger.value
                  && exists k :: FirstHigh(cs, trigger.value, k)
                       && (HigherAfter(cs, k) || ClosedAbove(cs, trigger.value + trigger.value * pct)))
  {
    if daily && mode == Enforce && |cs| > 0 && trigger.Some? && current.Some? {
      DailyCheckIsExistential(Call, cs, trigger.value, current.value, pct);
      ContinuationIs(cs, trigger.value, Buffer(trigger.value, pct));
      forall k ensures IsFirstBreach(cs, Call, trigger.value, k) <==> FirstHigh(cs, trigger.value, k) {
      }
      forall k | FirstHigh(cs, trigger.value, k) ensures Extended(cs, Call, k) <==> HigherAfter(cs, k) {
      }
    }
  }

  lemma DailyPutIff(mode: Mode, daily: bool, cs: seq<Candle>, trigger: Option<real>, current: Option<real>, pct: real)
    ensures DailyAllows(mode, daily, Put, cs, trigger, current, pct) <==>
              || !daily || mode == Off || mode == Observe
              || (trigger.Some? && current.Some? && current.value <= trigger.value
                  && exists k :: FirstLow(cs, trigger.value, k)
                       && (LowerAfter(cs, k) || ClosedBelow(cs, trigger.value - trigger.value * pct)))
  {
    if daily && mode == Enforce && |cs| > 0 && trigger.Some? && current.Some? {
      DailyCheckIsExistential(Put, cs, trigger.value, current.value, pct);
      ContinuationIs(cs, trigger.value, Buffer(trigger.value, pct));
      forall k ensures IsFirstBreach(cs, Put, trigger.value, k) <==> FirstLow(cs, trigger.value, k) {
      }
      forall k | FirstLow(cs, trigger.value, k) ensures Extended(cs, Put, k) <==> LowerAfter(cs, k) {
      }
    }
  }

  /** A daily trade without a direction never touches its trigger. */
  lemma DailyWithoutDirectionIff(
      mode: Mode, daily: bool, cs: seq<Candle>, trigger: Option<real>, current: Option<real>, pct: real)
    ensures DailyAllows(mode, daily, Neither, cs, trigger, current, pct) <==> !daily || mode != Enforce
  {
    if trigger.Some? { FirstBreachIsFirst(cs, Neither, trigger.value); }
  }

  // ---- Ages ----

  /** The allowed age of a quote: the quote limit and, except intraday, the confirmation limit, which is
      45 seconds at most from a score of 70 on and 15 from 78 on. */
  lemma YoungEnoughIff(i: Input, l: Limits, age: real)
    ensures age <= MaxAge(i, l) <==>
              && age <= l.quoteAge
              && (!i.intraday ==>
                    && age <= l.confirmSeconds && (i.score >= 70.0 ==> age <= 45.0)
                    && (i.score >= 78.0 ==> age <= 15.0))
  {
  }

  // ---- The verdict and its reason ----

  lemma AgeAgainst(ms: real, limit: real)
    ensures ms / 1000.0 > limit <==> ms > 1000.0 * limit
    ensures ms / 1000.0 < 0.0 <==> ms < 0.0
  {
  }

  lemma QuoteReason(i: Input, maxAge: real, maxSpread: real)
    ensures QuoteVerdict(i, maxAge, maxSpread) ==
              if i.bid == Missing || i.ask == Missing then Fail(MissingQuote)
              else if !(i.bid.Num? && i.bid.x > 0.0 && i.ask.Num? && i.ask.x > 0.0) then Fail(InvalidQuote)
              else if i.bid.x > i.ask.x then Fail(CrossedQuote)
              else if !(i.quoteAgeMs.Num? && i.quoteAgeMs.x >= 0.0) then Fail(QuoteAge)
              else if i.quoteAgeMs.x > 1000.0 * maxAge then Fail(StaleQuote)
              else if 2.0 * (i.ask.x - i.bid.x) > maxSpread * (i.bid.x + i.ask.x) then Fail(WideSpread)
              else Pass
  {
    if Positive(i.bid) && Positive(i.ask) {
      QuotientAtMost(i.ask.x - i.bid.x, MidOf(i.bid.x, i.ask.x), maxSpread);
      assert maxSpread * MidOf(i.bid.x, i.ask.x) == maxSpread * (i.bid.x + i.ask.x) / 2.0;
    }
    if i.quoteAgeMs.Num? { AgeAgainst(i.quoteAgeMs.x, maxAge); }
  }

  lemma FadeReason(i: Input, maxFade: real)
    requires i.bid.Num? && i.ask.Num?
    ensures var decided := i.decision.Num? && i.decision.x > 0.0;
            FadeVerdict(i, maxFade) ==
              if i.live && !decided then Fail(DecisionPrice)
              else if decided && 100.0 * (2.0 * i.decision.x - i.bid.x - i.ask.x) > 2.0 * maxFade * i.decision.x
              then Fail(OptionFade)
              else Pass
  {
    if Positive(i.decision) {
      PercentAtMost(i.decision.x - MidOf(i.bid.x, i.ask.x), i.decision.x, maxFade);
    }
  }

  lemma UnderlyingReason(i: Input, maxAge: real, maxReversal: real)
    ensures var trigger := i.trigger.Num? && i.trigger.x > 0.0;
            var price := i.underlying.Num? && i.underlying.x > 0.0;
            UnderlyingVerdict(i, maxAge, maxReversal) ==
              if i.live && !trigger then Fail(TriggerPrice)
              else if i.live && !price then Fail(Underlying)
              else if i.live && !(i.underlyingAgeMs.Num? && i.underlyingAgeMs.x >= 0.0) then Fail(UnderlyingAge)
              else if i.live && i.underlyingAgeMs.x > 1000.0 * maxAge then Fail(StaleUnderlying)
              else if trigger && price
                      && ((i.direction == Call && 100.0 * (i.trigger.x - i.underlying.x) > maxReversal * i.trigger.x)
                          || (i.direction == Put && 100.0 * (i.underlying.x - i.trigger.x) > maxReversal * i.trigger.x))
              then Fail(UnderlyingReversal)
              else Pass
  {
    if i.underlyingAgeMs.Num? { AgeAgainst(i.underlyingAgeMs.x, maxAge); }
    if Positive(i.underlying) && Positive(i.trigger) {
      var move := i.underlying.x - i.trigger.x;
      PercentAtMost(move, i.trigger.x, maxReversal);
      PercentAtMost(-move, i.trigger.x, maxReversal);
      assert -move / i.trigger.x * 100.0 == -(move / i.trigger.x * 100.0);
    }
  }

  /** The first problem decides: the daily check, then, if confirmation is required at all, the direction,
      the quote, the fade and the underlying. */
  lemma FirstProblemDecides(i: Input, l: Limits)
    ensures Check(i, l) ==
              if !DailyAllows(i.mode, i.daily, i.direction, i.candles,
                              if i.trigger.Num? then Some(i.trigger.x) else None,
                              if i.underlying.Num? then Some(i.underlying.x) else None, i.bufferPct)
              then Fail(DailyContinuation)
              else if !i.required then Pass
              else if i.direction == Neither then Fail(InvalidDirection)
              else if QuoteVerdict(i, MaxAge(i, l), l.spread) != Pass then QuoteVerdict(i, MaxAge(i, l), l.spread)
              else if FadeVerdict(i, l.fadePct) != Pass then FadeVerdict(i, l.fadePct)
              else UnderlyingVerdict(i, MaxAge(i, l), l.reversalPct)
  {
  }
}
