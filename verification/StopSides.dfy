/**
 What one poll decides, said over the two raw quotes and for each side of the trade: a CALL enters
 on the ask and is stopped on the bid, a PUT the other way round.
 */
module StopSides {
  import opened Common
  import opened SignalMachine
  import opened Arbitration

  /** The whole verdict on a CALL that no time limit, drift or late gate decides. */
  lemma CallVerdict(c: Config, s: Signal, p: Poll)
    requires ValidConfig(c) && c.side.Call? && s.state.Pending? && Ordinary(c, s, p)
    ensures var bid := if p.bid.Some? && p.bid.value > 0.0 then p.bid.value else 0.0;
            var ask := if p.ask.Some? && p.ask.value > 0.0 then p.ask.value else 0.0;
            var uncrossed := bid == 0.0 || ask == 0.0 || bid <= ask;
            var completes := uncrossed && ask >= c.trigger > 0.0 && BuildsOn(s, p.now) + 1 >= c.polls;
            Step(c, s, p).state ==
              if (s.crossedAt.Some? || completes) && c.stop.Some? && uncrossed && bid > 0.0
                 && 1000.0 * bid <= 999.0 * c.stop.value then Invalidated
              else if completes && (c.stop.Some? ==> bid > 0.0) then Triggered
              else Pending
    ensures var bid := if p.bid.Some? && p.bid.value > 0.0 then p.bid.value else 0.0;
            var ask := if p.ask.Some? && p.ask.value > 0.0 then p.ask.value else 0.0;
            var completes := (bid == 0.0 || ask == 0.0 || bid <= ask) && ask >= c.trigger > 0.0
                             && BuildsOn(s, p.now) + 1 >= c.polls;
            s.crossedAt.None? ==> (Step(c, s, p).crossedAt.Some? <==> completes)
  {
    OrdinaryVerdict(c, s, p);
  }

  /** The same for a PUT. */
  lemma PutVerdict(c: Config, s: Signal, p: Poll)
    requires ValidConfig(c) && c.side.Put? && s.state.Pending? && Ordinary(c, s, p)
    ensures var bid := if p.bid.Some? && p.bid.value > 0.0 then p.bid.value else 0.0;
            var ask := if p.ask.Some? && p.ask.value > 0.0 then p.ask.value else 0.0;
            var uncrossed := bid == 0.0 || ask == 0.0 || bid <= ask;
            var completes := uncrossed && 0.0 < bid <= c.trigger && BuildsOn(s, p.now) + 1 >= c.polls;
            Step(c, s, p).state ==
              if (s.crossedAt.Some? || completes) && c.stop.Some? && uncrossed && ask > 0.0
                 && 1000.0 * ask >= 1001.0 * c.stop.value then Invalidated
              else if completes && (c.stop.Some? ==> ask > 0.0) then Triggered
              else Pending
    ensures var bid := if p.bid.Some? && p.bid.value > 0.0 then p.bid.value else 0.0;
            var ask := if p.ask.Some? && p.ask.value > 0.0 then p.ask.value else 0.0;
            var completes := (bid == 0.0 || ask == 0.0 || bid <= ask) && 0.0 < bid <= c.trigger
                             && BuildsOn(s, p.now) + 1 >= c.polls;
            s.crossedAt.None? ==> (Step(c, s, p).crossedAt.Some? <==> completes)
  {
    OrdinaryVerdict(c, s, p);
  }

  /** The poll carries what a count needs: an entry quote and, once confirmed, its stop side. */
  ghost predicate Sighted(c: Config, s: Signal, p: Poll) {
    c.trigger > 0.0 && EntryQuote(c, p).Some? && (s.crossedAt.Some? && c.stop.Some? ==> StopQuote(c, p).Some?)
  }

  /** The count and its anchor after an ordinary poll that is sighted: cleared by an invalidation, counted
      on or started over at the trigger, cleared before it. */
  lemma CountAfterSight(c: Config, s: Signal, p: Poll)
    requires ValidConfig(c) && s.state.Pending? && Ordinary(c, s, p) && Sighted(c, s, p)
    ensures var after := Step(c, s, p);
            if after.state.Invalidated? then after.breachCount == 0
            else if Breaches(c, EntryQuote(c, p).value)
            then after.breachCount == BuildsOn(s, p.now) + 1 && after.lastObs == Some(p.now)
            else after.breachCount == 0 && after.lastObs == None
    ensures var after := Step(c, s, p);
            after.collision <==>
              s.collision || (after.state.Invalidated? && Breaches(c, EntryQuote(c, p).value)
                              && BuildsOn(s, p.now) + 1 >= c.polls)
  {
    assert Step(c, s, p) == Settle(c, s, p);
    SettleCounts(c, s, p);
    SettleCollides(c, s, p);
  }

  lemma SettleCounts(c: Config, s: Signal, p: Poll)
    requires ValidConfig(c) && s.state.Pending? && Sighted(c, s, p)
    ensures var after := Settle(c, s, p);
            if after.state.Invalidated? then after.breachCount == 0
            else if Breaches(c, EntryQuote(c, p).value)
            then after.breachCount == BuildsOn(s, p.now) + 1 && after.lastObs == Some(p.now)
            else after.breachCount == 0 && after.lastObs == None
  {
  }

  lemma SettleCollides(c: Config, s: Signal, p: Poll)
    requires ValidConfig(c) && s.state.Pending? && Sighted(c, s, p)
    ensures var after := Settle(c, s, p);
            after.collision <==>
              s.collision || (after.state.Invalidated? && Breaches(c, EntryQuote(c, p).value)
                              && BuildsOn(s, p.now) + 1 >= c.polls)
  {
  }

  /** And after one that is not: the count stays, except that an invalidation clears it, and that without
      an entry quote an unconfirmed watcher drops a streak that is not fresh and an anchor without a
      streak. */
  lemma CountAfterNoSight(c: Config, s: Signal, p: Poll)
    requires ValidConfig(c) && s.state.Pending? && Ordinary(c, s, p) && !Sighted(c, s, p)
    ensures var after := Step(c, s, p);
            if after.state.Invalidated? then after.breachCount == 0
            else if s.crossedAt.Some? || (s.breachCount > 0 && Fresh(s.lastObs, p.now))
            then after.breachCount == s.breachCount && after.lastObs == s.lastObs
            else after.breachCount == 0 && after.lastObs == None
    ensures Step(c, s, p).collision == s.collision
  {
    var held := HoldEvidence(s, p.now, EntryMissing(c, p));
    assert Step(c, s, p) == Settle(c, held, p);
    assert JudgeBreach(c, held, p) == held;
  }

  /** Once confirmed, a CALL is invalidated exactly by an uncrossed positive bid at or below 99.9% of
      its stop, a PUT exactly by an uncrossed positive ask at or above 100.1% of it. */
  lemma ConfirmedIsStoppedIff(c: Config, s: Signal, p: Poll)
    requires ValidConfig(c) && s.state.Pending? && s.crossedAt.Some? && Ordinary(c, s, p)
    ensures Step(c, s, p).state.Invalidated? <==>
              && c.stop.Some?
              && (p.bid.Some? && p.ask.Some? && p.bid.value > 0.0 && p.ask.value > 0.0 ==> p.bid.value <= p.ask.value)
              && (if c.side.Call?
                  then p.bid.Some? && 0.0 < p.bid.value && 1000.0 * p.bid.value <= 999.0 * c.stop.value
                  else p.ask.Some? && 0.0 < p.ask.value && 1000.0 * p.ask.value >= 1001.0 * c.stop.value)
  {
    if c.side.Call? { CallVerdict(c, s, p); } else { PutVerdict(c, s, p); }
  }

  /** The stop side gets worse: a CALL's bid moves down, a PUT's ask moves up. */
  ghost predicate WorseStopSide(c: Config, p: Poll, was: Poll) {
    if c.side.Call?
    then p == was.(bid := p.bid) && p.bid.Some? && was.bid.Some? && 0.0 < p.bid.value <= was.bid.value
    else p == was.(ask := p.ask) && p.ask.Some? && was.ask.Some? && 0.0 < was.ask.value <= p.ask.value
  }

  /** A worse stop side never rescues a signal: whatever the poll, confirmed or not, if it
      invalidates, then so does the worse one, unless that one is a drift. */
  lemma WorseNeverRescues(c: Config, s: Signal, p: Poll, was: Poll)
    requires ValidConfig(c) && s.state.Pending? && Ordinary(c, s, was) && Step(c, s, was).state.Invalidated?
    requires WorseStopSide(c, p, was)
    ensures Step(c, s, p).state == if DriftedAway(c, p) then Expired else Invalidated
  {
    if DriftedAway(c, p) {
      ExpiryVerdict(c, s, p);
    } else if c.side.Call? {
      CallVerdict(c, s, was);
      CallVerdict(c, s, p);
    } else {
      PutVerdict(c, s, was);
      PutVerdict(c, s, p);
    }
  }

  lemma NoDriftWithoutTrigger(c: Config, p: Poll)
    requires c.trigger == 0.0
    ensures !DriftedAway(c, p)
  {
  }

  /** The drift test over the raw quotes: late in a watch, intraday, the mid of an uncrossed pair, or
      the one side there is, lies further from the trigger than allowed, in the trade's direction. */
  lemma DriftsIff(c: Config, p: Poll, maxDrift: real)
    requires c.trigger != 0.0 && c.driftBand == maxDrift * c.trigger
    ensures var bid := if p.bid.Some? && p.bid.value > 0.0 then p.bid.value else 0.0;
            var ask := if p.ask.Some? && p.ask.value > 0.0 then p.ask.value else 0.0;
            var price := if bid > 0.0 && ask > 0.0 then (bid + ask) / 2.0 else bid + ask;
            DriftedAway(c, p) <==>
              && !p.overnight && !p.daily && p.watchedMinutes >= c.maxWatchMinutes
              && price > 0.0 && (bid == 0.0 || ask == 0.0 || bid <= ask)
              && (if c.side.Call? then (price - c.trigger) / c.trigger > maxDrift
                  else (price - c.trigger) / c.trigger < -maxDrift)
  {
    DriftIsRelative(c, p, maxDrift);
  }
}
