/**
 Trigger against stop within one poll, and what that decides over a whole run.
 */
module Arbitration {
  import opened Common
  import opened SignalMachine

  /** An ordinary poll: not expired, not drifted away, no late-attachment gate. */
  ghost predicate Ordinary(c: Config, s: Signal, p: Poll) {
    p.now < c.expireAt && !DriftedAway(c, p) && s.late.None?
  }

  /** How many observations this one adds to: before confirmation a stale or backdated
      anchor counts for nothing, afterwards the count simply goes on. */
  function BuildsOn(s: Signal, now: int): nat {
    if s.crossedAt.Some? || Fresh(s.lastObs, now) then s.breachCount else 0
  }

  /** The entry side is valid, at or through the trigger, and completes the required count. */
  ghost predicate Ready(c: Config, s: Signal, p: Poll) {
    !Suppressed(c, s, p) && Breaches(c, EntryQuote(c, p).value) && BuildsOn(s, p.now) + 1 >= c.polls
  }

  lemma CountingVerdict(c: Config, s: Signal, p: Poll)
    requires ValidConfig(c) && s.state.Pending?
    ensures var j := JudgeBreach(c, s, p);
            && (j.state.Triggered? <==> Ready(c, s, p))
            && (!j.state.Triggered? ==> j.state.Pending?)
            && (j.crossedAt.Some? <==> s.crossedAt.Some? || Ready(c, s, p))
            && (j.state.Triggered? ==> j.breachCount >= c.polls)
            && j.late == s.late
  {
  }

  /** The complete verdict of an ordinary poll.  A confirmed crossing with a broken stop
      always loses, also on the very poll that confirms it; and the pre-open guard decides
      nothing, since it needs the crossing to be unconfirmed and the stop needs it confirmed. */
  lemma OrdinaryVerdict(c: Config, s: Signal, p: Poll)
    requires ValidConfig(c) && s.state.Pending? && Ordinary(c, s, p)
    ensures Step(c, s, p).state ==
            if (s.crossedAt.Some? || Ready(c, s, p)) && StopIsBroken(c, p) then Invalidated
            else if Ready(c, s, p) && (c.stop.Some? ==> StopQuote(c, p).Some?) then Triggered
            else Pending
    ensures Step(c, s, p).crossedAt.Some? <==> s.crossedAt.Some? || Ready(c, s, p)
  {
    var held := HoldEvidence(s, p.now, EntryMissing(c, p));
    HeldVerdict(c, s, p);
    CountingVerdict(c, held, p);
    assert Step(c, s, p) == Settle(c, held, p);
  }

  /** A pending signal expires exactly at its time limit or on a late drift past the trigger, and
      such a poll confirms nothing and touches no crossing. */
  lemma ExpiryVerdict(c: Config, s: Signal, p: Poll)
    requires ValidConfig(c) && s.state.Pending?
    ensures Step(c, s, p).state.Expired? <==> p.now >= c.expireAt || DriftedAway(c, p)
    ensures Step(c, s, p).state.Expired? ==> Step(c, s, p).crossedAt == s.crossedAt && Step(c, s, p).late == s.late
  {
    var held := HoldEvidence(s, p.now, EntryMissing(c, p));
    HeldVerdict(c, s, p);
    match Gate(c, held, p.late)
    case Closed(_) =>
    case Through(g) => CountingVerdict(c, g, p);
  }

  lemma HeldVerdict(c: Config, s: Signal, p: Poll)
    requires ValidConfig(c)
    ensures var held := HoldEvidence(s, p.now, EntryMissing(c, p));
            && held.state == s.state && held.late == s.late && held.crossedAt == s.crossedAt
            && (Ready(c, held, p) <==> Ready(c, s, p))
            && (!EntryMissing(c, p) ==> held == s)
  {
  }

  /** Whatever the late-attachment classifier says, a trigger rests on valid uncrossed
      entry-side evidence and, where a stop is set, on a valid stop side that holds. */
  lemma TriggerNeedsEvidence(c: Config, s: Signal, p: Poll)
    requires ValidConfig(c) && s.state.Pending? && Step(c, s, p).state.Triggered?
    ensures p.now < c.expireAt && !DriftedAway(c, p) && !CrossedPair(p)
    ensures !EntryMissing(c, p) && Breaches(c, EntryQuote(c, p).value)
    ensures c.stop.Some? ==> StopQuote(c, p).Some? && !BreaksStop(c, StopQuote(c, p).value)
    ensures Step(c, s, p).crossedAt.Some? && Step(c, s, p).late.None? && Step(c, s, p).breachCount >= c.polls
  {
    var held := HoldEvidence(s, p.now, EntryMissing(c, p));
    HeldVerdict(c, s, p);
    var g := Gate(c, held, p.late);
    assert g.Through? && g.s.late.None? && g.s.state.Pending?;
    assert Step(c, s, p) == Settle(c, g.s, p);
    CountingVerdict(c, g.s, p);
  }

  /** A decision stands until an invalidation callback takes it back; an expiry stands for good. */
  lemma {:induction false} DecidedStaysDecided(c: Config, s: Signal, es: seq<Event>)
    requires !s.state.Pending? && !s.state.Triggered? && (s.state.Invalidated? ==> Revived !in es)
    ensures Run(c, s, es) == s
  {
    if |es| > 0 {
      var init, last := es[..|es| - 1], es[|es| - 1];
      assert Revived in init ==> Revived in es;
      DecidedStaysDecided(c, s, init);
      assert last in es;
    }
  }

  lemma {:induction false} RunSplits(c: Config, s: Signal, es: seq<Event>, fs: seq<Event>)
    ensures Run(c, s, es + fs) == Run(c, Run(c, s, es), fs)
  {
    if |fs| == 0 {
      assert es + fs == es;
    } else {
      assert (es + fs)[..|es + fs| - 1] == es + fs[..|fs| - 1];
      RunSplits(c, s, es, fs[..|fs| - 1]);
    }
  }

  /** Over a whole run: once the crossing is confirmed, the first ordinary poll that shows a
      broken stop ends the signal, and nothing after it can trigger unless the invalidation
      callback revives it. */
  lemma BrokenStopEndsTheSignal(c: Config, s0: Signal, es: seq<Event>, p: Poll, fs: seq<Event>)
    requires ValidConfig(c)
    requires var s := Run(c, s0, es); s.state.Pending? && s.crossedAt.Some? && Ordinary(c, s, p) && StopIsBroken(c, p)
    ensures Run(c, s0, es + [Polled(p)]).state == Invalidated
    ensures Revived in fs || Run(c, s0, es + [Polled(p)] + fs).state == Invalidated
  {
    var s, upTo := Run(c, s0, es), es + [Polled(p)];
    OrdinaryVerdict(c, s, p);
    assert upTo[..|upTo| - 1] == es;
    assert Run(c, s0, upTo) == Step(c, s, p);
    RunSplits(c, s0, upTo, fs);
    if Revived !in fs {
      DecidedStaysDecided(c, Run(c, s0, upTo), fs);
    }
  }
}
