/**
 When and how a trigger becomes confirmed, for any quotes, any late-gate answers and any
 clock, including one that steps backwards.
 */
module StreakSoundness {
  import opened Common
  import opened SignalMachine

  /** A watcher whose process holds no breach evidence yet. */
  ghost predicate Unconfirmed(s: Signal) {
    s.crossedAt.None? && s.breachCount == 0
  }

  predicate Continues(x: Observation, y: Observation) {
    x.breach && y.breach && 0 <= y.t - x.t <= CONTINUITY_MAX_GAP
  }

  /** Consecutive valid breach observations, each 0 to 45 seconds after the one before. */
  ghost predicate Streak(xs: seq<Observation>) {
    |xs| > 0 ==>
      xs[|xs| - 1].breach && (|xs| > 1 ==> Continues(xs[|xs| - 2], xs[|xs| - 1])) && Streak(xs[..|xs| - 1])
  }

  ghost function Tail<T>(xs: seq<T>, k: nat): seq<T>
    requires k <= |xs|
  {
    xs[|xs| - k..]
  }

  /** The valid observations, breach or not, that reached the breach path, in order. */
  ghost function Observations(c: Config, s: Signal, es: seq<Event>): seq<Observation> {
    if |es| == 0 then [] else
    var last := Label(c, Run(c, s, es[..|es| - 1]), es[|es| - 1]).obs;
    if last.None? then Observations(c, s, es[..|es| - 1]) else Observations(c, s, es[..|es| - 1]) + [last.value]
  }

  /** The latest `k` observations are one streak of fewer than `n`, starting at `first` and ending at `last`. */
  ghost predicate Partial(n: nat, k: nat, first: Option<int>, last: Option<int>, obs: seq<Observation>) {
    && k < n && k <= |obs| && Streak(Tail(obs, k))
    && (k > 0 ==> first == Some(obs[|obs| - k].t) && last == Some(obs[|obs| - 1].t))
  }

  /** What an unconfirmed watcher's counters mean. */
  ghost predicate Counted(c: Config, s: Signal, obs: seq<Observation>) {
    Partial(c.polls, s.breachCount, s.pendingFirst, s.lastObs, obs)
  }

  /** One step on: still counted, or confirmed by the last `polls` observations. */
  ghost predicate After(c: Config, s: Signal, seen: Option<Observation>, obs: seq<Observation>) {
    var obs' := if seen.None? then obs else obs + [seen.value];
    if s.crossedAt.None? then Counted(c, s, obs')
    else
      && seen.Some? && seen.value.breach && c.polls <= |obs'| && Streak(Tail(obs', c.polls)) && c.polls > 0
      && s.crossedAt == Some(obs'[|obs'| - c.polls].t)
  }

  lemma StreakSnoc(xs: seq<Observation>, t: int)
    requires Streak(xs)
    requires |xs| > 0 ==> Continues(xs[|xs| - 1], Observation(true, t))
    ensures Streak(xs + [Observation(true, t)])
  {
    assert (xs + [Observation(true, t)])[..|xs|] == xs;
  }

  lemma TailSnoc<T>(xs: seq<T>, k: nat, x: T)
    requires k <= |xs|
    ensures Tail(xs + [x], k + 1) == Tail(xs, k) + [x]
  {
  }

  lemma {:induction false} StreakIsBreaches(xs: seq<Observation>)
    requires Streak(xs)
    ensures forall i :: 0 <= i < |xs| ==> xs[i].breach
  {
    if |xs| > 0 {
      StreakIsBreaches(xs[..|xs| - 1]);
    }
  }

  lemma {:induction false} StreakSpan(xs: seq<Observation>)
    requires Streak(xs) && |xs| > 0
    ensures xs[0].breach && xs[|xs| - 1].breach
    ensures 0 <= xs[|xs| - 1].t - xs[0].t <= CONTINUITY_MAX_GAP * (|xs| - 1)
  {
    StreakIsBreaches(xs);
    if |xs| > 1 {
      StreakSpan(xs[..|xs| - 1]);
    }
  }

  /** The gate and the evidence hold never extend a streak, only keep it or clear it. */
  lemma PreludeKeepsCounted(c: Config, s: Signal, p: Poll, obs: seq<Observation>)
    requires ValidConfig(c) && s.crossedAt.None? && Counted(c, s, obs)
    ensures var held := HoldEvidence(s, p.now, EntryMissing(c, p));
            var g := Gate(c, held, p.late);
            held.crossedAt.None? && Counted(c, held, obs) && g.s.crossedAt.None? && Counted(c, g.s, obs)
  {
    var held := HoldEvidence(s, p.now, EntryMissing(c, p));
    assert Tail(obs, 0) == [];
    assert Counted(c, held, obs);
  }

  /** How many observations a new breach observation can build on. */
  function Carried(s: Signal, now: int): nat {
    if s.breachCount > 0 && Fresh(s.lastObs, now) then s.breachCount else 0
  }

  lemma CountBreachEffect(c: Config, s: Signal, now: int, q: real, bid: real, ask: real)
    requires s.crossedAt.None?
    ensures var s', k := CountBreach(c, s, now, q, bid, ask), Carried(s, now);
            var first := if k > 0 then s.pendingFirst else Some(now);
            && s'.breachCount == k + 1 && s'.lastObs == Some(now) && s'.late == s.late
            && (if k + 1 < c.polls then s'.crossedAt.None? && s'.pendingFirst == first && s'.state == s.state
                else s'.crossedAt == (if first.Some? then first else Some(now)))
  {
  }

  lemma PartialSnoc(n: nat, k: nat, first: Option<int>, last: Option<int>, obs: seq<Observation>, now: int)
    requires Partial(n, k, first, last, obs) && (k > 0 ==> Fresh(last, now))
    ensures var obs' := obs + [Observation(true, now)];
            && Streak(Tail(obs', k + 1))
            && obs'[|obs'| - k - 1].t == (if k > 0 then first.value else now)
  {
    StreakIsBreaches(Tail(obs, k));
    assert k > 0 ==> Tail(obs, k)[k - 1] == obs[|obs| - 1];
    StreakSnoc(Tail(obs, k), now);
    TailSnoc(obs, k, Observation(true, now));
  }

  /** An unconfirmed streak, after one valid breach observation: longer, or started afresh. */
  lemma CountBreachStep(c: Config, s: Signal, now: int, q: real, bid: real, ask: real, obs: seq<Observation>)
    requires ValidConfig(c) && s.crossedAt.None? && Counted(c, s, obs)
    ensures After(c, CountBreach(c, s, now, q, bid, ask), Some(Observation(true, now)), obs)
  {
    var k := Carried(s, now);
    CountBreachEffect(c, s, now, q, bid, ask);
    if k == 0 {
      assert Tail(obs, 0) == [];
    }
    PartialSnoc(c.polls, k, s.pendingFirst, s.lastObs, obs, now);
  }

  /** The breach path and the stop checks behind it. */
  lemma SettleKeepsCounted(c: Config, s: Signal, p: Poll, obs: seq<Observation>)
    requires ValidConfig(c) && s.crossedAt.None? && Counted(c, s, obs)
    ensures After(c, Settle(c, s, p), ObsLabel(c, s, p), obs)
  {
    var judged := JudgeBreach(c, s, p);
    if Suppressed(c, s, p) {
      assert judged == s;
    } else if Breaches(c, EntryQuote(c, p).value) {
      CountBreachStep(c, s, p.now, EntryQuote(c, p).value, OrZero(BidQuote(p)), OrZero(AskQuote(p)), obs);
    } else {
      assert Tail(obs + [Observation(false, p.now)], 0) == [];
    }
    assert After(c, judged, ObsLabel(c, s, p), obs);
  }

  lemma StepKeepsCounted(c: Config, s: Signal, e: Event, obs: seq<Observation>)
    requires ValidConfig(c) && s.crossedAt.None? && Counted(c, s, obs)
    ensures After(c, Next(c, s, e), Label(c, s, e).obs, obs)
  {
    if e.Polled? && s.state.Pending? && e.p.now < c.expireAt {
      PreludeKeepsCounted(c, s, e.p, obs);
      var g := Gate(c, HoldEvidence(s, e.p.now, EntryMissing(c, e.p)), e.p.late);
      if !DriftedAway(c, e.p) && g.Through? {
        SettleKeepsCounted(c, g.s, e.p, obs);
      }
    } else {
      assert Tail(obs, 0) == [];
    }
  }

  lemma {:induction false} RunKeepsCounted(c: Config, s0: Signal, es: seq<Event>)
    requires ValidConfig(c) && Unconfirmed(s0) && Run(c, s0, es).crossedAt.None?
    ensures Counted(c, Run(c, s0, es), Observations(c, s0, es))
  {
    if |es| > 0 {
      var before := Run(c, s0, es[..|es| - 1]);
      if before.crossedAt.Some? {
        CrossingMovesIff(c, before, es[|es| - 1]);
        assert Tail(Observations(c, s0, es), 0) == [];
      } else {
        RunKeepsCounted(c, s0, es[..|es| - 1]);
        StepKeepsCounted(c, before, es[|es| - 1], Observations(c, s0, es[..|es| - 1]));
      }
    }
  }

  predicate Rewinds(s: Signal, e: Event) {
    e.Rewound? && MayBeCalled(s)
  }

  lemma CrossingMovesIff(c: Config, s: Signal, e: Event)
    requires s.crossedAt.Some?
    ensures if Rewinds(s, e) then Next(c, s, e).crossedAt.None? && Next(c, s, e).breachCount == 0
            else Next(c, s, e).crossedAt == s.crossedAt
  {
    if e.Polled? && s.state.Pending? {
      var held := HoldEvidence(s, e.p.now, EntryMissing(c, e.p));
      GateKeepsCrossing(c, held, e.p.late);
      SettleKeepsCrossing(c, Gate(c, held, e.p.late).s, e.p);
    }
  }

  lemma GateKeepsCrossing(c: Config, s: Signal, a: LateAnswer)
    ensures Gate(c, s, a).s.crossedAt == s.crossedAt
  {
  }

  lemma SettleKeepsCrossing(c: Config, s: Signal, p: Poll)
    requires s.crossedAt.Some?
    ensures Settle(c, s, p).crossedAt == s.crossedAt
  {
  }

  /** Streak soundness: the poll that turns the crossing time on completes `polls` breach
      observations in a row with no stale gap; the crossing is dated by the first of them.  That
      holds of a second confirmation, after the watcher was started over, as of the first. */
  lemma ConfirmationIsSound(c: Config, s0: Signal, es: seq<Event>)
    requires ValidConfig(c) && Unconfirmed(s0) && |es| > 0
    requires Run(c, s0, es[..|es| - 1]).crossedAt.None? && Run(c, s0, es).crossedAt.Some?
    ensures var obs := Observations(c, s0, es);
            && c.polls <= |obs| && Streak(Tail(obs, c.polls))
            && Run(c, s0, es).crossedAt == Some(obs[|obs| - c.polls].t)
            && es[|es| - 1].Polled? && es[|es| - 1].p.now == obs[|obs| - 1].t
            && 0 <= es[|es| - 1].p.now - Run(c, s0, es).crossedAt.value <= CONTINUITY_MAX_GAP * (c.polls - 1)
  {
    var before := es[..|es| - 1];
    RunKeepsCounted(c, s0, before);
    StepKeepsCounted(c, Run(c, s0, before), es[|es| - 1], Observations(c, s0, before));
    StreakSpan(Tail(Observations(c, s0, es), c.polls));
  }

  /** The crossing time is the same after every event so far. */
  ghost predicate CrossingKept(c: Config, s: Signal, es: seq<Event>) {
    |es| > 0 ==> CrossingKept(c, s, es[..|es| - 1]) && Run(c, s, es).crossedAt == s.crossedAt
  }

  ghost predicate EverRewinds(c: Config, s: Signal, es: seq<Event>) {
    |es| > 0 && (EverRewinds(c, s, es[..|es| - 1]) || Rewinds(Run(c, s, es[..|es| - 1]), es[|es| - 1]))
  }

  /** Once confirmed, the crossing time survives every poll and callback of a run exactly when no
      callback in it starts the watcher over. */
  lemma {:induction false} CrossingStaysIff(c: Config, s: Signal, es: seq<Event>)
    requires s.crossedAt.Some?
    ensures CrossingKept(c, s, es) <==> !EverRewinds(c, s, es)
  {
    if |es| > 0 {
      CrossingStaysIff(c, s, es[..|es| - 1]);
      if CrossingKept(c, s, es[..|es| - 1]) {
        KeptToTheEnd(c, s, es[..|es| - 1]);
        CrossingMovesIff(c, Run(c, s, es[..|es| - 1]), es[|es| - 1]);
      }
    }
  }

  lemma KeptToTheEnd(c: Config, s: Signal, es: seq<Event>)
    requires CrossingKept(c, s, es)
    ensures Run(c, s, es).crossedAt == s.crossedAt
  {
  }

  lemma SettleKeepsDating(c: Config, s: Signal, p: Poll)
    requires s.state.Triggered? ==> s.crossedAt.Some?
    ensures Settle(c, s, p).state.Triggered? ==> Settle(c, s, p).crossedAt.Some?
  {
  }

  lemma GateKeepsDating(c: Config, s: Signal, a: LateAnswer)
    requires !s.state.Triggered?
    ensures !Gate(c, s, a).s.state.Triggered?
  {
  }

  lemma NextKeepsDating(c: Config, s: Signal, e: Event)
    requires s.state.Triggered? ==> s.crossedAt.Some?
    ensures Next(c, s, e).state.Triggered? ==> Next(c, s, e).crossedAt.Some?
  {
    if e.Polled? && s.state.Pending? {
      var held := HoldEvidence(s, e.p.now, EntryMissing(c, e.p));
      GateKeepsDating(c, held, e.p.late);
      SettleKeepsDating(c, Gate(c, held, e.p.late).s, e.p);
    }
  }

  /** Nothing else confirms: a triggered watcher always has a dated crossing. */
  lemma {:induction false} TriggeredMeansConfirmed(c: Config, s0: Signal, es: seq<Event>)
    requires s0.state.Triggered? ==> s0.crossedAt.Some?
    ensures Run(c, s0, es).state.Triggered? ==> Run(c, s0, es).crossedAt.Some?
  {
    if |es| > 0 {
      TriggeredMeansConfirmed(c, s0, es[..|es| - 1]);
      NextKeepsDating(c, Run(c, s0, es[..|es| - 1]), es[|es| - 1]);
    }
  }
}
