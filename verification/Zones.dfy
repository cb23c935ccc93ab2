/**
 The late-attachment classifier and its gate over the raw quotes, one side at a time.
 */
module Zones {
  import opened Common
  import opened SignalMachine
  import opened LateClassifier

  lemma WindowIs(z: Policy, trigger: real, past: real)
    requires ValidPolicy(z) && trigger > 0.0
    ensures past > Allowed(z, trigger) <==> past > z.maxAbs || 10000.0 * past > trigger * z.maxBps
    ensures past >= Tolerance(z, trigger) <==>
              past >= 0.01 && (2.0 * past >= z.maxAbs || 20000.0 * past >= trigger * z.maxBps)
  {
  }

  /** How far a quote is past the trigger, in the trade's direction. */
  function Past(c: Config, q: real): real {
    if c.side.Call? then q - c.trigger else c.trigger - q
  }

  lemma PartsAre(c: Config, z: Policy, q: real)
    requires ValidPolicy(z) && c.trigger > 0.0
    ensures var past := Past(c, q);
            && (Breaches(c, q) <==> past >= 0.0)
            && (Decisive(c, z, q) <==> past > c.trigger * z.maxDrift)
            && (PastZone(c, z, q) <==> past > z.maxAbs || 10000.0 * past > c.trigger * z.maxBps)
            && (Reset(c, z, q) <==>
                  -past >= 0.01 && (-2.0 * past >= z.maxAbs || -20000.0 * past >= c.trigger * z.maxBps))
  {
    var past := Past(c, q);
    WindowIs(z, c.trigger, past);
    WindowIs(z, c.trigger, -past);
    assert c.trigger * (1.0 + z.maxDrift) == c.trigger + c.trigger * z.maxDrift;
    assert c.trigger * (1.0 - z.maxDrift) == c.trigger - c.trigger * z.maxDrift;
  }

  /** The classifier's order of tests. */
  function FirstOf(
      q: real, stopped: bool, decisive: bool, breaches: bool, past: bool, reset: bool): LateAnswer {
    Answer(if stopped then StopBrokenTerminal else if decisive then MoveMissed else if !breaches then TruthRetry
           else if past then ZonePast else ZoneWithin,
           Some(q), reset)
  }

  lemma ClassifyIs(c: Config, z: Policy, crossed: bool, p: Poll)
    ensures var q, stop := EntryQuote(c, p), StopQuote(c, p);
            Classify(c, z, crossed, p) ==
              if TargetReached(c, z, q) then Answer(TargetComplete, None, false)
              else if c.trigger <= 0.0 || q.None? || (crossed && HasStop(c) && stop.None?)
              then Answer(TruthRetry, None, false)
              else
                FirstOf(q.value, crossed && HasStop(c) && StopTouched(c, stop.value), Decisive(c, z, q.value),
                        Breaches(c, q.value), PastZone(c, z, q.value), Reset(c, z, q.value))
  {
  }

  /** The class of a CALL, by how far the ask is past the trigger. */
  lemma CallClass(c: Config, z: Policy, crossed: bool, p: Poll)
    requires ValidPolicy(z) && c.side.Call?
    ensures var bid := if p.bid.Some? && p.bid.value > 0.0 then p.bid.value else 0.0;
            var ask := if p.ask.Some? && p.ask.value > 0.0 then p.ask.value else 0.0;
            var entry := ask > 0.0 && bid <= ask;
            var past := ask - c.trigger;
            var stopped := crossed && c.stop.Some? && c.stop.value > 0.0;
            Classify(c, z, crossed, p) ==
              if z.target.Some? && z.target.value > 0.0 && entry && ask >= z.target.value
              then Answer(TargetComplete, None, false)
              else if c.trigger <= 0.0 || !entry || (stopped && bid == 0.0) then Answer(TruthRetry, None, false)
              else
                Answer(if stopped && bid <= c.stop.value then StopBrokenTerminal
                       else if past > c.trigger * z.maxDrift then MoveMissed
                       else if past < 0.0 then TruthRetry
                       else if past > z.maxAbs || 10000.0 * past > c.trigger * z.maxBps then ZonePast
                       else ZoneWithin,
                       Some(ask),
                       -past >= 0.01 && (-2.0 * past >= z.maxAbs || -20000.0 * past >= c.trigger * z.maxBps))
  {
    ClassifyIs(c, z, crossed, p);
    if c.trigger > 0.0 && EntryQuote(c, p).Some? { PartsAre(c, z, EntryQuote(c, p).value); }
  }

  /** The class of a PUT, by how far the bid is past the trigger. */
  lemma PutClass(c: Config, z: Policy, crossed: bool, p: Poll)
    requires ValidPolicy(z) && c.side.Put?
    ensures var bid := if p.bid.Some? && p.bid.value > 0.0 then p.bid.value else 0.0;
            var ask := if p.ask.Some? && p.ask.value > 0.0 then p.ask.value else 0.0;
            var entry := bid > 0.0 && (ask == 0.0 || bid <= ask);
            var past := c.trigger - bid;
            var stopped := crossed && c.stop.Some? && c.stop.value > 0.0;
            Classify(c, z, crossed, p) ==
              if z.target.Some? && z.target.value > 0.0 && entry && bid <= z.target.value
              then Answer(TargetComplete, None, false)
              else if c.trigger <= 0.0 || !entry || (stopped && ask == 0.0) then Answer(TruthRetry, None, false)
              else
                Answer(if stopped && ask >= c.stop.value then StopBrokenTerminal
                       else if past > c.trigger * z.maxDrift then MoveMissed
                       else if past < 0.0 then TruthRetry
                       else if past > z.maxAbs || 10000.0 * past > c.trigger * z.maxBps then ZonePast
                       else ZoneWithin,
                       Some(bid),
                       -past >= 0.01 && (-2.0 * past >= z.maxAbs || -20000.0 * past >= c.trigger * z.maxBps))
  {
    ClassifyIs(c, z, crossed, p);
    if c.trigger > 0.0 && EntryQuote(c, p).Some? { PartsAre(c, z, EntryQuote(c, p).value); }
  }

  /** A poll behind the gate that no time limit or drift decides. */
  ghost predicate Behind(c: Config, s: Signal, p: Poll) {
    s.late.Some? && p.now < c.expireAt && !DriftedAway(c, p)
  }

  /** The answer is missing, or proves nothing, or ends the watcher. */
  predicate SaysNothing(a: LateAnswer) {
    a == Unavailable || (a.cls == TruthRetry && a.quote == None)
  }

  predicate EndsIt(a: LateAnswer) {
    a.Answer? && (a.cls == StopBrokenTerminal || a.cls == TargetComplete || a.cls == MoveMissed)
  }

  /** Whatever the gate's state: no answer changes nothing but stale evidence, and a stop, a target or a
      missed move ends the watcher. */
  lemma GatedPollEndsIff(c: Config, s: Signal, p: Poll)
    requires Behind(c, s, p)
    ensures var held := HoldEvidence(s, p.now, EntryMissing(c, p));
            && (SaysNothing(p.late) ==> Step(c, s, p) == held)
            && (EndsIt(p.late) ==> Step(c, s, p) == held.(state := Invalidated, breachCount := 0))
  {
    HeldKeepsGate(c, s, p);
  }

  lemma HeldKeepsGate(c: Config, s: Signal, p: Poll)
    ensures var held := HoldEvidence(s, p.now, EntryMissing(c, p));
            held.late == s.late && held.confirmPolls == s.confirmPolls && held.resetPolls == s.resetPolls
  {
  }

  /** Waiting for the first truth: inside the zone the continuation count starts, past it the reset count,
      and before the trigger the gate opens. */
  lemma FirstTruthPollIs(c: Config, s: Signal, p: Poll)
    requires Behind(c, s, p) && s.late == Some(AwaitingFirstTruth) && !SaysNothing(p.late) && !EndsIt(p.late)
    ensures var held := HoldEvidence(s, p.now, EntryMissing(c, p));
            Step(c, s, p) ==
              if p.late.cls == ZoneWithin then held.(late := Some(WithinContinuation), confirmPolls := 0)
              else if p.late.cls == ZonePast then held.(late := Some(WaitingReset), resetPolls := 0)
              else held.(late := None)
  {
    HeldKeepsGate(c, s, p);
  }

  /** Inside the zone: every such poll counts and the last one opens the gate and goes on to the breach
      path at once; past the zone the reset count starts; anything else changes nothing. */
  lemma ContinuationPollIs(c: Config, s: Signal, p: Poll)
    requires Behind(c, s, p) && s.late == Some(WithinContinuation) && !SaysNothing(p.late) && !EndsIt(p.late)
    ensures var held := HoldEvidence(s, p.now, EntryMissing(c, p));
            Step(c, s, p) ==
              if p.late.cls == ZonePast then held.(late := Some(WaitingReset), confirmPolls := 0, resetPolls := 0)
              else if p.late.cls != ZoneWithin then held
              else if s.confirmPolls + 1 < c.polls then held.(confirmPolls := s.confirmPolls + 1)
              else Settle(c, held.(late := None, confirmPolls := s.confirmPolls + 1), p)
  {
    HeldKeepsGate(c, s, p);
    var held := HoldEvidence(s, p.now, EntryMissing(c, p));
    var after := held.(late := None, confirmPolls := s.confirmPolls + 1);
    var g := Gate(c, held, p.late);
    StepIs(c, s, p, held, g);
    assert p.late.cls == ZoneWithin && s.confirmPolls + 1 >= c.polls ==> g == Through(after);
  }

  lemma StepIs(c: Config, s: Signal, p: Poll, held: Signal, g: GateResult)
    requires p.now < c.expireAt && !DriftedAway(c, p)
    requires held == HoldEvidence(s, p.now, EntryMissing(c, p)) && g == Gate(c, held, p.late)
    ensures Step(c, s, p) == if g.Closed? then g.s else Settle(c, g.s, p)
  {
  }

  /** Waiting for the reset: the required number of reset polls in a row opens the gate for the polls to
      come, any other truthful poll starts the count again. */
  lemma ResetPollIs(c: Config, s: Signal, p: Poll)
    requires Behind(c, s, p) && s.late == Some(WaitingReset) && !SaysNothing(p.late) && !EndsIt(p.late)
    ensures var held := HoldEvidence(s, p.now, EntryMissing(c, p));
            Step(c, s, p) ==
              if !p.late.reset then held.(resetPolls := 0)
              else if s.resetPolls + 1 < c.polls then held.(resetPolls := s.resetPolls + 1)
              else held.(late := None, resetPolls := 0, breachCount := 0)
  {
    HeldKeepsGate(c, s, p);
  }
}
