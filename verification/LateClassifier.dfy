/**
 The classifier behind the late-attachment gate: where the entry quote of one poll stands
 relative to the trigger, the continuation zone past it and the reset line before it.
 */
module LateClassifier {
  import opened Common
  import opened SignalMachine

  const MIN_RESET: real := 0.01

  /** The operator-set window: an absolute cap, basis points of the trigger, the decisive drift
      as a fraction of it, and the signal's target, if any. */
  datatype Policy = Policy(maxAbs: real, maxBps: real, maxDrift: real, target: Option<real>)

  ghost predicate ValidPolicy(z: Policy) {
    z.maxAbs > 0.0 && z.maxBps > 0.0 && z.maxDrift > 0.0
  }

  /** How far past the trigger a late watcher may still follow. */
  function Allowed(z: Policy, trigger: real): real {
    var share := trigger * z.maxBps / 10000.0;
    if share < z.maxAbs then share else z.maxAbs
  }

  function Tolerance(z: Policy, trigger: real): real {
    Max(MIN_RESET, Allowed(z, trigger) * 0.5)
  }

  predicate TargetReached(c: Config, z: Policy, q: Option<real>) {
    z.target.Some? && z.target.value > 0.0 && q.Some?
    && if c.side.Call? then q.value >= z.target.value else q.value <= z.target.value
  }

  predicate Decisive(c: Config, z: Policy, q: real) {
    if c.side.Call? then q > c.trigger * (1.0 + z.maxDrift) else q < c.trigger * (1.0 - z.maxDrift)
  }

  predicate PastZone(c: Config, z: Policy, q: real) {
    if c.side.Call? then q > c.trigger + Allowed(z, c.trigger) else q < c.trigger - Allowed(z, c.trigger)
  }

  /** The classifier's own stop test has no buffer. */
  predicate StopTouched(c: Config, q: real)
    requires c.stop.Some?
  {
    if c.side.Call? then q <= c.stop.value else q >= c.stop.value
  }

  predicate HasStop(c: Config) {
    c.stop.Some? && c.stop.value > 0.0
  }

  predicate Reset(c: Config, z: Policy, q: real) {
    if c.side.Call? then q <= c.trigger - Tolerance(z, c.trigger) else q >= c.trigger + Tolerance(z, c.trigger)
  }

  /** `crossed` is durable breach evidence; without it the stop is dormant. */
  function Classify(c: Config, z: Policy, crossed: bool, p: Poll): LateAnswer {
    var q := EntryQuote(c, p);
    if TargetReached(c, z, q) then Answer(TargetComplete, None, false)
    else if c.trigger <= 0.0 || q.None? then Answer(TruthRetry, None, false)
    else
      var reset := Reset(c, z, q.value);
      if crossed && HasStop(c) && StopQuote(c, p).None? then Answer(TruthRetry, None, false)
      else if crossed && HasStop(c) && StopTouched(c, StopQuote(c, p).value) then Answer(StopBrokenTerminal, q, reset)
      else if Decisive(c, z, q.value) then Answer(MoveMissed, q, reset)
      else if !Breaches(c, q.value) then Answer(TruthRetry, q, reset)
      else if PastZone(c, z, q.value) then Answer(ZonePast, q, reset)
      else Answer(ZoneWithin, q, reset)
  }

  lemma WindowIsPositive(z: Policy, trigger: real)
    requires ValidPolicy(z) && trigger > 0.0
    ensures 0.0 < Allowed(z, trigger) <= z.maxAbs && Tolerance(z, trigger) >= MIN_RESET
  {
    assert trigger * z.maxBps > 0.0;
  }

  lemma DriftIsPast(c: Config, z: Policy, q: real)
    requires ValidPolicy(z) && c.trigger > 0.0 && Decisive(c, z, q)
    ensures Breaches(c, q)
  {
    assert c.trigger * z.maxDrift > 0.0;
    assert c.trigger * (1.0 + z.maxDrift) == c.trigger + c.trigger * z.maxDrift;
    assert c.trigger * (1.0 - z.maxDrift) == c.trigger - c.trigger * z.maxDrift;
  }

  /** What the entry quote of a poll must show for the gate to see `g` in it. */
  ghost predicate Evident(c: Config, p: Poll, g: GateSeen) {
    var q := EntryQuote(c, p);
    && (g.Within? || g.ZoneExit? || g.FirstWithin? || g.FirstPast? ==> q.Some? && Breaches(c, q.value))
    && (g.ResetPoll? || g.PreTrigger? ==> q.Some? && !Breaches(c, q.value))
    && (g.ResetPoll? ==> if c.side.Call? then q.value <= c.trigger - MIN_RESET else q.value >= c.trigger + MIN_RESET)
  }

  /** A gate verdict is evidence: the zone verdicts prove a breach by the entry quote of that very
      poll, the reset and pre-trigger verdicts prove the opposite. */
  lemma GateVerdictsAreEvidence(c: Config, z: Policy, s: Signal, p: Poll)
    requires ValidPolicy(z) && p.late == Classify(c, z, s.crossedAt.Some?, p)
    ensures Evident(c, p, GateLabel(s, p.late))
  {
    if c.trigger > 0.0 {
      WindowIsPositive(z, c.trigger);
    }
  }

  lemma {:induction false} TraceAt(c: Config, s0: Signal, es: seq<Event>, i: nat)
    requires i < |es|
    ensures Trace(c, s0, es)[i] == Label(c, Run(c, s0, es[..i]), es[i])
  {
    if i < |es| - 1 {
      TraceAt(c, s0, es[..|es| - 1], i);
      assert es[..|es| - 1][..i] == es[..i];
    }
  }

  /** So the zone and reset polls that open the gate of a run are price evidence too. */
  lemma TraceVerdictsAreEvidence(c: Config, z: Policy, s0: Signal, es: seq<Event>, i: nat)
    requires ValidPolicy(z) && i < |es| && es[i].Polled?
    requires es[i].p.late == Classify(c, z, Run(c, s0, es[..i]).crossedAt.Some?, es[i].p)
    ensures Evident(c, es[i].p, Trace(c, s0, es)[i].gate)
  {
    TraceAt(c, s0, es, i);
    GateVerdictsAreEvidence(c, z, Run(c, s0, es[..i]), es[i].p);
  }

  /** No poll both confirms continuation and counts as a reset, whatever the gate's state. */
  lemma NeverBothWays(c: Config, z: Policy, crossed: bool, p: Poll)
    requires ValidPolicy(z)
    ensures var a := Classify(c, z, crossed, p);
            (a.cls.ZoneWithin? || a.cls.ZonePast? || a.cls.MoveMissed?) ==> !a.reset
  {
    if c.trigger > 0.0 {
      WindowIsPositive(z, c.trigger);
      var q := EntryQuote(c, p);
      if q.Some? && Decisive(c, z, q.value) { DriftIsPast(c, z, q.value); }
    }
  }

  /** Behind the gate an unconfirmed watcher is invalidated only for a reached target or a decisive
      move past the trigger, never for its stop. */
  lemma DormantStopBehindTheGate(c: Config, z: Policy, s: Signal, p: Poll)
    requires ValidPolicy(z) && s.state.Pending? && s.late.Some? && s.crossedAt.None?
    requires p.late == Classify(c, z, false, p) && p.now < c.expireAt && !DriftedAway(c, p)
    ensures Gate(c, HoldEvidence(s, p.now, EntryMissing(c, p)), p.late).Closed? && Step(c, s, p).state.Invalidated? ==>
              var q := EntryQuote(c, p);
              TargetReached(c, z, q) || (q.Some? && Breaches(c, q.value) && Decisive(c, z, q.value))
  {
    var q := EntryQuote(c, p);
    if q.Some? && c.trigger > 0.0 && Decisive(c, z, q.value) {
      DriftIsPast(c, z, q.value);
    }
  }
}
