/**
 A watcher attached after its trigger was touched is gated.  Whatever the classifier
 answers, poll after poll, the gate opens in one of three ways only, and a trigger needs a
 full count of breach observations from the opening on.
 */
module LateGate {
  import opened Common
  import opened SignalMachine

  /** Freshly attached behind the gate. */
  ghost predicate Gated(s: Signal) {
    s.state.Pending? && s.late.Some? && s.breachCount == 0 && s.confirmPolls == 0 && s.resetPolls == 0
  }

  function CountGate(t: seq<Seen>, g: GateSeen): nat {
    if |t| == 0 then 0 else CountGate(t[..|t| - 1], g) + (if t[|t| - 1].gate == g then 1 else 0)
  }

  predicate IsBreach(x: Seen) {
    x.obs.Some? && x.obs.value.breach
  }

  function CountBreaches(t: seq<Seen>): nat {
    if |t| == 0 then 0 else CountBreaches(t[..|t| - 1]) + (if IsBreach(t[|t| - 1]) then 1 else 0)
  }

  ghost predicate Untruthful(t: seq<Seen>) {
    forall x :: x in t ==> x.gate.NotReached? || x.gate.Held?
  }

  /** Index `r` opened the gate, and why. */
  ghost predicate Opens(n: nat, start: LateState, t: seq<Seen>, r: nat) {
    && r < |t|
    && match t[r].gate
       // enough polls inside the continuation zone, not necessarily one after the other
       case Within => CountGate(t[..r + 1], Within) >= n
       // enough reset polls with no valid non-reset poll among them
       case ResetPoll => exists a: nat :: ResetRun(n, t, a, r)
       // the first truthful poll saw the price still before the trigger
       case PreTrigger => start.AwaitingFirstTruth? && Untruthful(t[..r])
       case _ => false
  }

  ghost predicate ResetRun(n: nat, t: seq<Seen>, a: nat, r: nat) {
    a <= r < |t| && CountGate(t[a..r + 1], NonReset) == 0 && CountGate(t[a..r + 1], ResetPoll) >= n
  }

  lemma SnocSlices(t: seq<Seen>, x: Seen, a: nat)
    requires a <= |t|
    ensures (t + [x])[..|t|] == t && (t + [x])[a..] == t[a..] + [x] && (t + [x])[..|t| + 1] == t + [x]
  {
  }

  lemma CountSnoc(t: seq<Seen>, x: Seen, g: GateSeen)
    ensures CountGate(t + [x], g) == CountGate(t, g) + (if x.gate == g then 1 else 0)
    ensures CountBreaches(t + [x]) == CountBreaches(t) + (if IsBreach(x) then 1 else 0)
  {
    assert (t + [x])[..|t|] == t;
  }

  lemma OpensStays(n: nat, start: LateState, t: seq<Seen>, r: nat, x: Seen)
    requires Opens(n, start, t, r)
    ensures Opens(n, start, t + [x], r)
  {
    var t' := t + [x];
    assert t'[..r + 1] == t[..r + 1] && t'[..r] == t[..r];
    if t[r].gate.ResetPoll? {
      var a: nat :| ResetRun(n, t, a, r);
      assert t'[a..r + 1] == t[a..r + 1];
      assert ResetRun(n, t', a, r);
    }
  }

  /** Opened at `r`; every counted breach since was observed at or after `r`. */
  ghost predicate OpenedAt(n: nat, start: LateState, s: Signal, t: seq<Seen>, r: nat) {
    Opens(n, start, t, r) && s.breachCount <= CountBreaches(t[r..]) && (s.state.Triggered? ==> s.breachCount >= n)
  }

  ghost predicate ResetSince(s: Signal, t: seq<Seen>, a: nat) {
    a <= |t| && CountGate(t[a..], NonReset) == 0 && s.resetPolls <= CountGate(t[a..], ResetPoll)
  }

  /** What the gate's own counters mean in terms of what the polls showed. */
  ghost predicate GateCounts(n: nat, start: LateState, s: Signal, t: seq<Seen>) {
    if s.late.None? then exists r: nat :: OpenedAt(n, start, s, t, r)
    else
      && s.breachCount == 0 && !s.state.Triggered?
      && match s.late.value
         case AwaitingFirstTruth => start.AwaitingFirstTruth? && Untruthful(t)
         case WithinContinuation => s.confirmPolls <= CountGate(t, Within)
         case WaitingReset => exists a: nat :: ResetSince(s, t, a)
  }

  /** The breach path counts at most the observation it just made. */
  lemma SettleCounts(c: Config, s: Signal, p: Poll)
    ensures s.state.Pending? ==>
            var s' := Settle(c, s, p);
            var o := ObsLabel(c, s, p);
            && s'.late == s.late
            && s'.breachCount <= s.breachCount + (if o.Some? && o.value.breach then 1 else 0)
            && (s'.state.Triggered? ==> s'.breachCount >= c.polls)
  {
  }

  /** Behind the gate a poll only moves the gate, unless it is the one let through. */
  lemma GatedStepShape(c: Config, s: Signal, p: Poll)
    requires s.state.Pending? && s.late.Some? && s.breachCount == 0 && p.now < c.expireAt && !DriftedAway(c, p)
    ensures var held := s.(lastObs := HoldEvidence(s, p.now, EntryMissing(c, p)).lastObs);
            var g, x := Gate(c, held, p.late), Label(c, s, Polled(p));
            && Step(c, s, p) == (if g.Through? then Settle(c, g.s, p) else g.s)
            && x.gate == GateLabel(s, p.late)
            && x.obs == (if g.Through? then ObsLabel(c, g.s, p) else None)
  {
    assert HoldEvidence(s, p.now, EntryMissing(c, p))
        == s.(lastObs := HoldEvidence(s, p.now, EntryMissing(c, p)).lastObs);
  }

  lemma AwaitingStep(c: Config, start: LateState, s: Signal, s': Signal, a: LateAnswer, t: seq<Seen>, x: Seen)
    requires ValidConfig(c) && s.state.Pending? && s.late == Some(AwaitingFirstTruth)
        && GateCounts(c.polls, start, s, t)
    requires x.gate == GateLabel(s, a) && s' == Gate(c, s, a).s && x.obs.None?
    ensures GateCounts(c.polls, start, s', t + [x])
  {
    SnocSlices(t, x, |t|);
    if s'.late == Some(WaitingReset) { ResetStart(s', t + [x]); }
    if s'.late.None? { OpensNow(c.polls, start, s', t, x); }
  }

  lemma WithinStep(c: Config, start: LateState, s: Signal, s': Signal, a: LateAnswer, t: seq<Seen>, x: Seen)
    requires ValidConfig(c) && s.state.Pending? && s.late == Some(WithinContinuation)
        && GateCounts(c.polls, start, s, t)
    requires x.gate == GateLabel(s, a)
    requires var g := Gate(c, s, a);
             if g.Through?
             then s'.late.None? && s'.breachCount <= (if IsBreach(x) then 1 else 0)
                 && (s'.state.Triggered? ==> s'.breachCount >= c.polls)
             else s' == g.s
    ensures GateCounts(c.polls, start, s', t + [x])
  {
    CountSnoc(t, x, Within);
    SnocSlices(t, x, |t|);
    if s'.late == Some(WaitingReset) { ResetStart(s', t + [x]); }
    if s'.late.None? { OpensNow(c.polls, start, s', t, x); }
  }

  lemma WaitingStep(c: Config, start: LateState, s: Signal, s': Signal, a: LateAnswer, t: seq<Seen>, x: Seen)
    requires ValidConfig(c) && s.state.Pending? && s.late == Some(WaitingReset) && GateCounts(c.polls, start, s, t)
    requires x.gate == GateLabel(s, a) && s' == Gate(c, s, a).s && x.obs.None?
    ensures GateCounts(c.polls, start, s', t + [x])
  {
    var t' := t + [x];
    var b: nat :| ResetSince(s, t, b);
    SnocSlices(t, x, b);
    CountSnoc(t[b..], x, NonReset);
    CountSnoc(t[b..], x, ResetPoll);
    if x.gate.NonReset? {
      ResetStart(s', t');
    } else if s'.late.None? {
      assert t'[b..|t| + 1] == t'[b..];
      assert ResetRun(c.polls, t', b, |t|);
      OpensNow(c.polls, start, s', t, x);
    } else {
      assert ResetSince(s', t', b);
    }
  }

  lemma GatedStep(c: Config, start: LateState, s: Signal, p: Poll, t: seq<Seen>)
    requires ValidConfig(c) && s.state.Pending? && s.late.Some? && GateCounts(c.polls, start, s, t)
    requires p.now < c.expireAt && !DriftedAway(c, p)
    ensures GateCounts(c.polls, start, Step(c, s, p), t + [Label(c, s, Polled(p))])
  {
    GatedStepShape(c, s, p);
    var held := s.(lastObs := HoldEvidence(s, p.now, EntryMissing(c, p)).lastObs);
    var x, s', g := Label(c, s, Polled(p)), Step(c, s, p), Gate(c, held, p.late);
    SettleCounts(c, g.s, p);
    match s.late.value
    case AwaitingFirstTruth => AwaitingStep(c, start, held, s', p.late, t, x);
    case WithinContinuation => WithinStep(c, start, held, s', p.late, t, x);
    case WaitingReset =>
      var b: nat :| ResetSince(s, t, b);
      assert ResetSince(held, t, b);
      WaitingStep(c, start, held, s', p.late, t, x);
  }

  lemma ResetStart(s: Signal, t: seq<Seen>)
    requires s.resetPolls == 0
    ensures ResetSince(s, t, |t|)
  {
    assert t[|t|..] == [];
  }

  lemma OpensNow(n: nat, start: LateState, s: Signal, t: seq<Seen>, x: Seen)
    requires Opens(n, start, t + [x], |t|)
    requires s.breachCount <= (if IsBreach(x) then 1 else 0) && (s.state.Triggered? ==> s.breachCount >= n)
    ensures OpenedAt(n, start, s, t + [x], |t|)
  {
    SnocSlices(t, x, |t|);
    assert t[|t|..] == [];
    CountSnoc([], x, Within);
  }

  /** Past the gate: the count since the opening keeps up with the watcher's own. */
  lemma OpenStep(c: Config, start: LateState, s: Signal, e: Event, t: seq<Seen>)
    requires ValidConfig(c) && s.late.None? && GateCounts(c.polls, start, s, t)
    ensures GateCounts(c.polls, start, Next(c, s, e), t + [Label(c, s, e)])
  {
    var x, s' := Label(c, s, e), Next(c, s, e);
    var r: nat :| OpenedAt(c.polls, start, s, t, r);
    OpensStays(c.polls, start, t, r, x);
    SnocSlices(t, x, r);
    CountSnoc(t[r..], x, Within);
    if e.Polled? && s.state.Pending? && e.p.now < c.expireAt && !DriftedAway(c, e.p) {
      var held := HoldEvidence(s, e.p.now, EntryMissing(c, e.p));
      SettleCounts(c, held, e.p);
      assert s' == Settle(c, held, e.p);
    }
    assert OpenedAt(c.polls, start, s', t + [x], r);
  }

  lemma QuietKeepsReset(s: Signal, s': Signal, t: seq<Seen>, x: Seen)
    requires (x.gate.NotReached? || x.gate.Held?) && s'.resetPolls == s.resetPolls
    requires exists a: nat :: ResetSince(s, t, a)
    ensures exists a: nat :: ResetSince(s', t + [x], a)
  {
    var a: nat :| ResetSince(s, t, a);
    SnocSlices(t, x, a);
    CountSnoc(t[a..], x, NonReset);
    CountSnoc(t[a..], x, ResetPoll);
    assert ResetSince(s', t + [x], a);
  }

  /** An event that is no judged poll leaves the gate and its counters alone. */
  lemma IdleShape(c: Config, s: Signal, e: Event)
    requires s.late.Some? && s.breachCount == 0
    requires !e.Polled? || !s.state.Pending? || e.p.now >= c.expireAt || DriftedAway(c, e.p)
    ensures var s' := Next(c, s, e);
            && s'.late == s.late && s'.breachCount == 0
            && s'.confirmPolls == s.confirmPolls && s'.resetPolls == s.resetPolls
            && (s'.state.Triggered? ==> s.state.Triggered?)
    ensures Label(c, s, e) == Seen(NotReached, None)
  {
  }

  lemma IdleStep(c: Config, start: LateState, s: Signal, e: Event, t: seq<Seen>)
    requires s.late.Some? && GateCounts(c.polls, start, s, t)
    requires !e.Polled? || !s.state.Pending? || e.p.now >= c.expireAt || DriftedAway(c, e.p)
    ensures GateCounts(c.polls, start, Next(c, s, e), t + [Label(c, s, e)])
  {
    IdleShape(c, s, e);
    IdleCounts(c.polls, start, s, Next(c, s, e), t, Label(c, s, e));
  }

  lemma IdleCounts(n: nat, start: LateState, s: Signal, s': Signal, t: seq<Seen>, x: Seen)
    requires s.late.Some? && GateCounts(n, start, s, t) && x.gate.NotReached?
    requires s'.late == s.late && s'.breachCount == 0 && s'.confirmPolls == s.confirmPolls
        && s'.resetPolls == s.resetPolls
    requires s'.state.Triggered? ==> s.state.Triggered?
    ensures GateCounts(n, start, s', t + [x])
  {
    match s.late.value
    case AwaitingFirstTruth =>
    case WithinContinuation => CountSnoc(t, x, Within);
    case WaitingReset => QuietKeepsReset(s, s', t, x);
  }

  lemma {:induction false} RunGateCounts(c: Config, s0: Signal, es: seq<Event>)
    requires ValidConfig(c) && Gated(s0)
    ensures GateCounts(c.polls, s0.late.value, Run(c, s0, es), Trace(c, s0, es))
  {
    if |es| == 0 {
      if s0.late == Some(WaitingReset) { ResetStart(s0, []); }
    } else {
      var s, e, t := Run(c, s0, es[..|es| - 1]), es[|es| - 1], Trace(c, s0, es[..|es| - 1]);
      RunGateCounts(c, s0, es[..|es| - 1]);
      if s.late.None? {
        OpenStep(c, s0.late.value, s, e, t);
      } else if !e.Polled? || !s.state.Pending? || e.p.now >= c.expireAt || DriftedAway(c, e.p) {
        IdleStep(c, s0.late.value, s, e, t);
      } else {
        GatedStep(c, s0.late.value, s, e.p, t);
      }
    }
  }

  ghost predicate EarnedFrom(n: nat, start: LateState, t: seq<Seen>, r: nat) {
    Opens(n, start, t, r) && CountBreaches(t[r..]) >= n
  }

  /** Late gate: a gated run that triggers opened its gate at some poll for one of the three
      reasons, and made at least `polls` breach observations at or after that poll. */
  lemma GatedTriggerIsEarned(c: Config, s0: Signal, es: seq<Event>)
    requires ValidConfig(c) && Gated(s0) && Run(c, s0, es).state.Triggered?
    ensures exists r: nat :: EarnedFrom(c.polls, s0.late.value, Trace(c, s0, es), r)
  {
    RunGateCounts(c, s0, es);
    EarnedWhenTriggered(c.polls, s0.late.value, Run(c, s0, es), Trace(c, s0, es));
  }

  lemma EarnedWhenTriggered(n: nat, start: LateState, s: Signal, t: seq<Seen>)
    requires GateCounts(n, start, s, t) && s.state.Triggered?
    ensures exists r: nat :: EarnedFrom(n, start, t, r)
  {
    var r: nat :| OpenedAt(n, start, s, t, r);
    assert EarnedFrom(n, start, t, r);
  }

  // ---- And only an earned opening keeps the gate shut ----

  /** Some poll completed one of the three openings. */
  ghost predicate EverOpens(n: nat, start: LateState, t: seq<Seen>) {
    exists r: nat :: Opens(n, start, t, r)
  }

  /** No stretch without a valid non-reset poll up to now holds more than `k` reset polls. */
  ghost predicate ResetsAtMost(t: seq<Seen>, k: nat) {
    forall a: nat :: a <= |t| && CountGate(t[a..], NonReset) == 0 ==> CountGate(t[a..], ResetPoll) <= k
  }

  /** A shut gate: nothing so far opens it, and its counters are exact. */
  ghost predicate Shut(n: nat, start: LateState, s: Signal, t: seq<Seen>) {
    && s.late.Some? && !EverOpens(n, start, t)
    && match s.late.value
       case AwaitingFirstTruth => start.AwaitingFirstTruth? && Untruthful(t) && CountGate(t, Within) == 0
           && ResetsAtMost(t, 0)
       case WithinContinuation => s.confirmPolls == CountGate(t, Within) && ResetsAtMost(t, 0)
       case WaitingReset => ResetsAtMost(t, s.resetPolls)
  }

  lemma OpensBefore(n: nat, start: LateState, t: seq<Seen>, x: Seen, r: nat)
    requires r < |t| && Opens(n, start, t + [x], r)
    ensures Opens(n, start, t, r)
  {
    var t' := t + [x];
    assert t'[..r + 1] == t[..r + 1] && t'[..r] == t[..r];
    if t[r].gate.ResetPoll? {
      var a: nat :| ResetRun(n, t', a, r);
      assert t'[a..r + 1] == t[a..r + 1];
      assert ResetRun(n, t, a, r);
    }
  }

  /** One more poll keeps the gate unopened unless that poll opens it. */
  lemma StillUnopened(n: nat, start: LateState, t: seq<Seen>, x: Seen)
    requires !EverOpens(n, start, t) && !Opens(n, start, t + [x], |t|)
    ensures !EverOpens(n, start, t + [x])
  {
    forall r: nat ensures !Opens(n, start, t + [x], r) {
      if r < |t| && Opens(n, start, t + [x], r) {
        OpensBefore(n, start, t, x, r);
      }
    }
  }

  lemma ResetsSnoc(t: seq<Seen>, x: Seen, k: nat)
    requires ResetsAtMost(t, k)
    ensures ResetsAtMost(t + [x], if x.gate.NonReset? then 0 else if x.gate.ResetPoll? then k + 1 else k)
  {
    forall a: nat | a <= |t + [x]| && CountGate((t + [x])[a..], NonReset) == 0
      ensures CountGate((t + [x])[a..], ResetPoll) <=
          if x.gate.NonReset? then 0 else if x.gate.ResetPoll? then k + 1 else k
    {
      if a <= |t| {
        SnocSlices(t, x, a);
        CountSnoc(t[a..], x, NonReset);
        CountSnoc(t[a..], x, ResetPoll);
      } else {
        assert (t + [x])[a..] == [];
      }
    }
  }

  /** The poll just made opens a shut gate only by completing one of the three counts. */
  lemma OpensOnlyByCount(n: nat, start: LateState, t: seq<Seen>, x: Seen, k: nat)
    requires ResetsAtMost(t, k) && Opens(n, start, t + [x], |t|)
    ensures || (x.gate.Within? && CountGate(t, Within) + 1 >= n)
            || (x.gate.ResetPoll? && k + 1 >= n)
            || (x.gate.PreTrigger? && start.AwaitingFirstTruth? && Untruthful(t))
  {
    SnocSlices(t, x, |t|);
    CountSnoc(t, x, Within);
    if x.gate.ResetPoll? {
      var t' := t + [x];
      var a: nat :| ResetRun(n, t', a, |t|);
      assert t'[a..|t| + 1] == t'[a..];
      SnocSlices(t, x, a);
      CountSnoc(t[a..], x, NonReset);
      CountSnoc(t[a..], x, ResetPoll);
    }
  }

  lemma GateStaysShut(c: Config, start: LateState, s: Signal, a: LateAnswer, t: seq<Seen>, x: Seen)
    requires ValidConfig(c) && s.state.Pending? && Shut(c.polls, start, s, t) && x.gate == GateLabel(s, a)
    ensures var s' := Gate(c, s, a).s; s'.late.None? || Shut(c.polls, start, s', t + [x])
  {
    var k := if s.late.value.WaitingReset? then s.resetPolls else 0;
    if Opens(c.polls, start, t + [x], |t|) {
      OpensOnlyByCount(c.polls, start, t, x, k);
    } else {
      StillUnopened(c.polls, start, t, x);
    }
    ResetsSnoc(t, x, k);
    CountSnoc(t, x, Within);
  }

  lemma IdleStaysShut(n: nat, start: LateState, s: Signal, s': Signal, t: seq<Seen>, x: Seen)
    requires Shut(n, start, s, t) && x.gate.NotReached?
    requires s'.late == s.late && s'.confirmPolls == s.confirmPolls && s'.resetPolls == s.resetPolls
    ensures Shut(n, start, s', t + [x])
  {
    StillUnopened(n, start, t, x);
    ResetsSnoc(t, x, if s.late.value.WaitingReset? then s.resetPolls else 0);
    CountSnoc(t, x, Within);
  }

  lemma PolledStaysShut(c: Config, start: LateState, s: Signal, p: Poll, t: seq<Seen>)
    requires ValidConfig(c) && s.state.Pending? && s.breachCount == 0 && Shut(c.polls, start, s, t)
    requires p.now < c.expireAt && !DriftedAway(c, p)
    ensures var s', x := Step(c, s, p), Label(c, s, Polled(p)); s'.late.None? || Shut(c.polls, start, s', t + [x])
  {
    GatedStepShape(c, s, p);
    var held := s.(lastObs := HoldEvidence(s, p.now, EntryMissing(c, p)).lastObs);
    GateStaysShut(c, start, held, p.late, t, Label(c, s, Polled(p)));
    SettleCounts(c, Gate(c, held, p.late).s, p);
  }

  lemma NothingIsShut(n: nat, s0: Signal)
    requires Gated(s0)
    ensures Shut(n, s0.late.value, s0, [])
  {
    var none: seq<Seen> := [];
    forall a: nat | a <= |none| ensures CountGate(none[a..], ResetPoll) == 0 {
      assert none[a..] == [];
    }
  }

  lemma {:induction false} RunStaysShut(c: Config, s0: Signal, es: seq<Event>)
    requires ValidConfig(c) && Gated(s0)
    ensures Run(c, s0, es).late.None? || Shut(c.polls, s0.late.value, Run(c, s0, es), Trace(c, s0, es))
  {
    if |es| == 0 {
      NothingIsShut(c.polls, s0);
    } else {
      var s, e, t := Run(c, s0, es[..|es| - 1]), es[|es| - 1], Trace(c, s0, es[..|es| - 1]);
      RunStaysShut(c, s0, es[..|es| - 1]);
      RunGateCounts(c, s0, es[..|es| - 1]);
      if s.late.None? {
        OpenStep(c, s0.late.value, s, e, t);
        LateStaysOpen(c, s, e);
      } else if !e.Polled? || !s.state.Pending? || e.p.now >= c.expireAt || DriftedAway(c, e.p) {
        IdleShape(c, s, e);
        IdleStaysShut(c.polls, s0.late.value, s, Next(c, s, e), t, Label(c, s, e));
      } else {
        PolledStaysShut(c, s0.late.value, s, e.p, t);
      }
    }
  }

  lemma LateStaysOpen(c: Config, s: Signal, e: Event)
    requires s.late.None?
    ensures Next(c, s, e).late.None?
  {
    if e.Polled? && s.state.Pending? {
      SettleCounts(c, HoldEvidence(s, e.p.now, EntryMissing(c, e.p)), e.p);
    }
  }

  /** The exact law of the gate: over any run of a freshly gated watcher it stands open exactly
      when some poll so far completed one of the three openings. */
  lemma GateOpensIff(c: Config, s0: Signal, es: seq<Event>)
    requires ValidConfig(c) && Gated(s0)
    ensures Run(c, s0, es).late.None? <==> EverOpens(c.polls, s0.late.value, Trace(c, s0, es))
  {
    RunStaysShut(c, s0, es);
    RunGateCounts(c, s0, es);
    OpenOrShut(c.polls, s0.late.value, Run(c, s0, es), Trace(c, s0, es));
  }

  lemma OpenOrShut(n: nat, start: LateState, s: Signal, t: seq<Seen>)
    requires GateCounts(n, start, s, t) && (s.late.None? || Shut(n, start, s, t))
    ensures s.late.None? <==> EverOpens(n, start, t)
  {
    if s.late.None? {
      var r: nat :| OpenedAt(n, start, s, t, r);
      assert Opens(n, start, t, r);
    }
  }
}
