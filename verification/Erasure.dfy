/**
 Quotes that carry no evidence do not decide a trigger: with a clock that never steps
 back, deleting them changes neither when the trigger is first confirmed nor what that
 poll decides.  What remains decides it by one rule, the first streak.
 */
module Erasure {
  import opened Common
  import opened SignalMachine
  import opened StreakSoundness

  /** The watcher right after the first poll that confirms the trigger. */
  function FirstConfirmed(c: Config, s: Signal, ps: seq<Poll>): Option<Signal>
    decreases |ps|
  {
    if |ps| == 0 then None else
    var s' := Step(c, s, ps[0]);
    if s'.crossedAt.Some? then Some(s') else FirstConfirmed(c, s', ps[1..])
  }

  function Informative(c: Config, ps: seq<Poll>): seq<Poll> {
    if |ps| == 0 then [] else
    if EntryMissing(c, ps[0]) then Informative(c, ps[1..]) else [ps[0]] + Informative(c, ps[1..])
  }

  /** No poll expires the watcher or finds the move already gone. */
  ghost predicate Quiet(c: Config, ps: seq<Poll>) {
    forall p :: p in ps ==> p.now < c.expireAt && !DriftedAway(c, p)
  }

  ghost predicate NonDecreasing(now: int, ps: seq<Poll>)
    decreases |ps|
  {
    |ps| > 0 ==> now <= ps[0].now && NonDecreasing(ps[0].now, ps[1..])
  }

  /** An ordinary unconfirmed watcher at time `now`. */
  ghost predicate Waiting(s: Signal, now: int) {
    && s.state.Pending? && s.late.None? && s.crossedAt.None? && s.triggerPrice.None?
    && (if s.breachCount == 0 then s.lastObs.None? else s.lastObs.Some? && s.lastObs.value <= now)
  }

  /** Without a streak the noted prices are leftovers. */
  function Essence(s: Signal): Signal {
    if s.breachCount == 0 then ResetStreak(s) else s
  }

  /** `s` saw every poll, `t` only the informative ones: alike, or `s` has already dropped a
      streak that is too old for `t` to continue. */
  ghost predicate Alike(s: Signal, t: Signal, now: int) {
    || Essence(s) == Essence(t)
    || (t.breachCount > 0 && t.lastObs.Some? && now - t.lastObs.value > CONTINUITY_MAX_GAP
        && Essence(s) == ResetStreak(t))
  }

  lemma SkipUninformative(c: Config, s: Signal, t: Signal, p: Poll, now: int)
    requires Waiting(s, now) && Waiting(t, now) && Alike(s, t, now) && now <= p.now < c.expireAt
    requires !DriftedAway(c, p) && EntryMissing(c, p)
    ensures Waiting(Step(c, s, p), p.now) && Waiting(t, p.now) && Alike(Step(c, s, p), t, p.now)
  {
    var held := HoldEvidence(s, p.now, true);
    assert Step(c, s, p) == held;
  }

  lemma CountAlike(c: Config, s: Signal, t: Signal, p: Poll, now: int, q: real, bid: real, ask: real)
    requires ValidConfig(c) && Waiting(s, now) && Waiting(t, now) && Alike(s, t, now) && now <= p.now
    ensures CountBreach(c, s, p.now, q, bid, ask) == CountBreach(c, t, p.now, q, bid, ask)
  {
  }

  lemma SettleWaits(c: Config, s: Signal, p: Poll, now: int)
    requires ValidConfig(c) && Waiting(s, now) && now <= p.now
    ensures Settle(c, s, p).crossedAt.None? ==> Waiting(Settle(c, s, p), p.now)
  {
  }

  /** A valid observation inside the trigger clears both streaks. */
  lemma ClearedAlike(c: Config, s: Signal, t: Signal, p: Poll, now: int)
    requires Waiting(s, now) && Waiting(t, now) && Alike(s, t, now)
    requires !EntryMissing(c, p) && !Breaches(c, EntryQuote(c, p).value)
    ensures Essence(Settle(c, s, p)) == Essence(Settle(c, t, p)) && Settle(c, s, p).crossedAt.None?
  {
    assert JudgeBreach(c, s, p) == s.(breachCount := 0, lastObs := None);
    assert JudgeBreach(c, t, p) == t.(breachCount := 0, lastObs := None);
  }

  lemma BothInformed(c: Config, s: Signal, t: Signal, p: Poll, now: int)
    requires ValidConfig(c) && Waiting(s, now) && Waiting(t, now) && Alike(s, t, now) && now <= p.now < c.expireAt
    requires !DriftedAway(c, p) && !EntryMissing(c, p)
    ensures var s', t' := Step(c, s, p), Step(c, t, p);
            if s'.crossedAt.Some? then s' == t' else Waiting(s', p.now) && Waiting(t', p.now) && Alike(s', t', p.now)
  {
    var q := EntryQuote(c, p).value;
    assert Step(c, s, p) == Settle(c, s, p) && Step(c, t, p) == Settle(c, t, p);
    if Breaches(c, q) {
      CountAlike(c, s, t, p, now, q, OrZero(BidQuote(p)), OrZero(AskQuote(p)));
      assert JudgeBreach(c, s, p) == JudgeBreach(c, t, p);
    } else {
      ClearedAlike(c, s, t, p, now);
      SettleWaits(c, t, p, now);
    }
    SettleWaits(c, s, p, now);
  }

  lemma {:induction false} EraseFrom(c: Config, s: Signal, t: Signal, ps: seq<Poll>, now: int)
    requires ValidConfig(c) && Quiet(c, ps) && NonDecreasing(now, ps)
    requires Waiting(s, now) && Waiting(t, now) && Alike(s, t, now)
    ensures FirstConfirmed(c, s, ps) == FirstConfirmed(c, t, Informative(c, ps))
    decreases |ps|
  {
    if |ps| > 0 {
      var p, rest := ps[0], ps[1..];
      if EntryMissing(c, p) {
        SkipUninformative(c, s, t, p, now);
        EraseFrom(c, Step(c, s, p), t, rest, p.now);
      } else {
        BothInformed(c, s, t, p, now);
        assert Informative(c, ps)[0] == p && Informative(c, ps)[1..] == Informative(c, rest);
        if Step(c, s, p).crossedAt.None? {
          EraseFrom(c, Step(c, s, p), Step(c, t, p), rest, p.now);
        }
      }
    }
  }

  /** Unusable polls are erasable: the same first confirmation, with the same dates, prices
      and verdict, whether or not the polls without entry evidence ever happened. */
  lemma UnusablePollsAreErasable(c: Config, s: Signal, ps: seq<Poll>, now: int)
    requires ValidConfig(c) && Quiet(c, ps) && NonDecreasing(now, ps) && Waiting(s, now)
    ensures FirstConfirmed(c, s, ps) == FirstConfirmed(c, s, Informative(c, ps))
  {
    EraseFrom(c, s, s, ps, now);
  }

  /** The clock condition is needed: an unusable poll far ahead drops a streak that, after
      the clock steps back, would have been continued. */
  lemma BackwardClockBreaksErasure(c: Config, s: Signal, up: Poll, blank: Poll, again: Poll)
    requires c == Config(Call, 10.0, None, 2, 1000, 45.0, 0.15)
    requires s == Signal(Pending, 0, None, None, None, None, 0.0, 0.0, 0.0, None, false, None, 0, 0)
    requires up == Poll(0, Some(9.9), Some(10.0), 0.0, false, false, false, Unavailable)
    requires blank == up.(now := 100, bid := None, ask := None) && again == up.(now := 10)
    ensures Quiet(c, [up, blank, again]) && Waiting(s, 0)
    ensures FirstConfirmed(c, s, [up, blank, again]) == None
    ensures FirstConfirmed(c, s, Informative(c, [up, blank, again])).Some?
  {
    var s1 := Step(c, s, up);
    assert s1.breachCount == 1 && s1.lastObs == Some(0) && s1.crossedAt.None?;
    var s2 := Step(c, s1, blank);
    assert s2 == ResetStreak(s1);
    assert Step(c, s2, again).crossedAt.None?;
    assert [up, blank, again][1..] == [blank, again] && [blank, again][1..] == [again] && [again][1..] == [];
    assert FirstConfirmed(c, s2, [again]) == None;
    assert Informative(c, [blank, again]) == Informative(c, [again]) == [again];
    assert Informative(c, [up, blank, again]) == [up] + [again];
    assert ([up] + [again])[1..] == [again];
    assert Step(c, s1, again).crossedAt == Some(0);
  }

  // ---- When one unusable poll matters, for any clock ----

  /** An ordinary unconfirmed watcher with a streak of fewer than the required breaches. */
  ghost predicate Standing(c: Config, s: Signal) {
    && s.state.Pending? && s.late.None? && s.crossedAt.None? && s.breachCount < c.polls
    && (s.breachCount > 0 ==> s.lastObs.Some? && s.lastObs.value < c.expireAt)
  }

  /** Inserting the poll changes no later first confirmation, whatever quiet polls follow. */
  ghost predicate Harmless(c: Config, s: Signal, blank: Poll) {
    forall ps :: Quiet(c, ps) ==> FirstConfirmed(c, s, [blank] + ps) == FirstConfirmed(c, s, ps)
  }

  /** The same, except perhaps for the anchor of a streak that has no observation. */
  ghost predicate SameStreak(s: Signal, t: Signal) {
    s == t || (s.breachCount == 0 && t == s.(lastObs := t.lastObs))
  }

  lemma {:induction false} SameStreakSameEnd(c: Config, s: Signal, t: Signal, ps: seq<Poll>)
    requires ValidConfig(c) && Quiet(c, ps) && Standing(c, s) && Standing(c, t) && SameStreak(s, t)
    ensures FirstConfirmed(c, s, ps) == FirstConfirmed(c, t, ps)
    decreases |ps|
  {
    if |ps| > 0 && s != t {
      assert ps[0] in ps;
      SameStreakStep(c, s, t, ps[0]);
      if Step(c, s, ps[0]).crossedAt.None? {
        SameStreakSameEnd(c, Step(c, s, ps[0]), Step(c, t, ps[0]), ps[1..]);
      }
    }
  }

  lemma SameStreakStep(c: Config, s: Signal, t: Signal, p: Poll)
    requires ValidConfig(c) && p.now < c.expireAt && !DriftedAway(c, p) && Standing(c, s) && Standing(c, t)
    requires s.breachCount == 0 && t == s.(lastObs := t.lastObs)
    ensures var s', t' := Step(c, s, p), Step(c, t, p);
            if s'.crossedAt.Some? then s' == t' else Standing(c, s') && Standing(c, t') && SameStreak(s', t')
  {
    if EntryMissing(c, p) {
      assert Step(c, s, p) == s.(lastObs := None) && Step(c, t, p) == t.(lastObs := None);
    } else {
      StepIsSettle(c, s, p);
      StepIsSettle(c, t, p);
      assert JudgeBreach(c, s, p) == JudgeBreach(c, t, p);
    }
  }

  /** A poll at the trigger price, at time `t`. */
  function AtTrigger(c: Config, t: int): Poll {
    Poll(t, Some(c.trigger), Some(c.trigger), 0.0, true, false, false, Unavailable)
  }

  function Repeat(p: Poll, n: nat): (ps: seq<Poll>)
    ensures |ps| == n && forall x :: x in ps ==> x == p
  {
    if n == 0 then [] else [p] + Repeat(p, n - 1)
  }

  lemma AtTriggerCounts(c: Config, s: Signal, t: int)
    requires ValidConfig(c) && c.trigger > 0.0 && Standing(c, s) && t < c.expireAt
    requires s.breachCount > 0 ==> s.lastObs == Some(t)
    ensures var s' := Step(c, s, AtTrigger(c, t));
            && (s'.crossedAt.Some? <==> s.breachCount + 1 >= c.polls)
            && (s'.crossedAt.None? ==> Standing(c, s') && s'.breachCount == s.breachCount + 1 && s'.lastObs == Some(t))
  {
    StepIsSettle(c, s, AtTrigger(c, t));
  }

  lemma {:induction false} RepeatsConfirmIff(c: Config, s: Signal, t: int, n: nat)
    requires ValidConfig(c) && c.trigger > 0.0 && Standing(c, s) && t < c.expireAt
    requires s.breachCount > 0 ==> s.lastObs == Some(t)
    ensures FirstConfirmed(c, s, Repeat(AtTrigger(c, t), n)).Some? <==> s.breachCount + n >= c.polls
    decreases n
  {
    if n > 0 {
      var p, s' := AtTrigger(c, t), Step(c, s, AtTrigger(c, t));
      AtTriggerCounts(c, s, t);
      assert Repeat(p, n)[0] == p && Repeat(p, n)[1..] == Repeat(p, n - 1);
      if s'.crossedAt.None? {
        RepeatsConfirmIff(c, s', t, n - 1);
      }
    }
  }

  lemma {:induction false} NothingConfirmsWithoutTrigger(c: Config, s: Signal, ps: seq<Poll>)
    requires Quiet(c, ps) && c.trigger <= 0.0 && s.state.Pending? && s.late.None? && s.crossedAt.None?
    ensures FirstConfirmed(c, s, ps) == None
    decreases |ps|
  {
    if |ps| > 0 {
      assert ps[0] in ps;
      assert Step(c, s, ps[0]) == HoldEvidence(s, ps[0].now, true);
      NothingConfirmsWithoutTrigger(c, Step(c, s, ps[0]), ps[1..]);
    }
  }

  lemma BlankStep(c: Config, s: Signal, blank: Poll, ps: seq<Poll>)
    requires Standing(c, s) && EntryMissing(c, blank) && blank.now < c.expireAt && !DriftedAway(c, blank)
    ensures Step(c, s, blank) == HoldEvidence(s, blank.now, true) && Standing(c, Step(c, s, blank))
    ensures FirstConfirmed(c, s, [blank] + ps) == FirstConfirmed(c, HoldEvidence(s, blank.now, true), ps)
  {
    assert ([blank] + ps)[1..] == ps;
  }

  /** The exact condition, for any clock: an unusable poll is harmless to an ordinary watcher with a
      positive trigger exactly when there is no streak to lose or the streak is still fresh. */
  lemma UnusablePollIsHarmlessIff(c: Config, s: Signal, blank: Poll)
    requires ValidConfig(c) && Standing(c, s)
    requires EntryMissing(c, blank) && blank.now < c.expireAt && !DriftedAway(c, blank)
    ensures Harmless(c, s, blank) <==> c.trigger <= 0.0 || s.breachCount == 0 || Fresh(s.lastObs, blank.now)
  {
    var held := HoldEvidence(s, blank.now, true);
    if c.trigger <= 0.0 || s.breachCount == 0 || Fresh(s.lastObs, blank.now) {
      forall ps | Quiet(c, ps) ensures FirstConfirmed(c, s, [blank] + ps) == FirstConfirmed(c, s, ps) {
        BlankStep(c, s, blank, ps);
        if c.trigger <= 0.0 {
          NothingConfirmsWithoutTrigger(c, s, ps);
          NothingConfirmsWithoutTrigger(c, held, ps);
        } else {
          SameStreakSameEnd(c, s, held, ps);
        }
      }
    } else {
      var t := s.lastObs.value;
      var ps := Repeat(AtTrigger(c, t), c.polls - s.breachCount);
      BlankStep(c, s, blank, ps);
      RepeatsConfirmIff(c, s, t, c.polls - s.breachCount);
      RepeatsConfirmIff(c, held, t, c.polls - s.breachCount);
      assert Quiet(c, ps);
    }
  }

  // ---- The rule that remains ----

  function Reading(c: Config, p: Poll): Observation {
    Observation(!EntryMissing(c, p) && Breaches(c, EntryQuote(c, p).value), p.now)
  }

  function Readings(c: Config, ps: seq<Poll>): (rs: seq<Observation>)
    ensures |rs| == |ps|
  {
    if |ps| == 0 then [] else [Reading(c, ps[0])] + Readings(c, ps[1..])
  }

  lemma {:induction false} ReadingAt(c: Config, ps: seq<Poll>, i: nat)
    requires i < |ps|
    ensures Readings(c, ps)[i] == Reading(c, ps[i])
  {
    if i > 0 {
      ReadingAt(c, ps[1..], i - 1);
    }
  }

  /** The `n` observations ending at index `j` are one streak. */
  ghost predicate EndsStreak(rs: seq<Observation>, n: nat, j: nat) {
    1 <= n <= j + 1 <= |rs| && Streak(rs[j + 1 - n..j + 1])
  }

  ghost predicate NoStreakBefore(rs: seq<Observation>, n: nat, j: nat) {
    forall i: nat :: i < j ==> !EndsStreak(rs, n, i)
  }

  ghost predicate FirstStreakEnd(rs: seq<Observation>, n: nat, j: nat) {
    EndsStreak(rs, n, j) && NoStreakBefore(rs, n, j)
  }

  /** How many of the latest observations form one streak. */
  function TailLen(rs: seq<Observation>): (k: nat)
    ensures k <= |rs|
  {
    if |rs| == 0 || !rs[|rs| - 1].breach then 0
    else if |rs| > 1 && Continues(rs[|rs| - 2], rs[|rs| - 1]) then TailLen(rs[..|rs| - 1]) + 1
    else 1
  }

  /** `TailLen` is the longest streak suffix: exactly the shorter suffixes are streaks too. */
  lemma {:induction false} TailLenExact(rs: seq<Observation>, k: nat)
    requires 1 <= k <= |rs|
    ensures Streak(Tail(rs, k)) <==> k <= TailLen(rs)
    decreases |rs|
  {
    var init, suffix := rs[..|rs| - 1], Tail(rs, k);
    assert suffix[k - 1] == rs[|rs| - 1] && suffix[..k - 1] == Tail(init, k - 1);
    if k > 1 {
      assert suffix[k - 2] == rs[|rs| - 2];
      TailLenExact(init, k - 1);
    }
  }

  /** An ordinary unconfirmed watcher counts exactly its latest streak. */
  ghost predicate Tracks(c: Config, s: Signal, rs: seq<Observation>) {
    s.state.Pending? && s.late.None? && s.crossedAt.None? && Counted(c, s, rs) && s.breachCount == TailLen(rs)
  }

  /** The length of the latest streak after one more observation is what the watcher counts. */
  lemma TailLenStep(n: nat, s: Signal, rs: seq<Observation>, x: Observation)
    requires Partial(n, s.breachCount, s.pendingFirst, s.lastObs, rs) && s.breachCount == TailLen(rs)
    ensures TailLen(rs + [x]) == if x.breach then Carried(s, x.t) + 1 else 0
  {
    assert (rs + [x])[..|rs|] == rs;
    if |rs| > 0 && rs[|rs| - 1].breach {
      assert s.breachCount > 0;
    }
  }

  /** An informative ordinary poll goes straight to the breach path. */
  lemma StepIsSettle(c: Config, s: Signal, p: Poll)
    requires s.late.None? && !EntryMissing(c, p) && p.now < c.expireAt && !DriftedAway(c, p)
    ensures Step(c, s, p) == Settle(c, s, p)
  {
  }

  /** What the breach path leaves of an unconfirmed watcher that counts exactly its latest streak. */
  ghost predicate StillTracks(c: Config, s: Signal, rs: seq<Observation>) {
    && (s.crossedAt.Some? <==> c.polls <= TailLen(rs))
    && (if s.crossedAt.None? then Tracks(c, s, rs)
        else 1 <= c.polls <= |rs| && s.crossedAt == Some(rs[|rs| - c.polls].t))
  }

  lemma SettleTracks(c: Config, s: Signal, rs: seq<Observation>, p: Poll)
    requires ValidConfig(c) && Tracks(c, s, rs) && !EntryMissing(c, p)
    ensures StillTracks(c, Settle(c, s, p), rs + [Reading(c, p)])
  {
    SettleKeepsCounted(c, s, p, rs);
    TailLenStep(c.polls, s, rs, Reading(c, p));
    if Reading(c, p).breach {
      CountBreachEffect(c, s, p.now, EntryQuote(c, p).value, OrZero(BidQuote(p)), OrZero(AskQuote(p)));
    }
  }

  lemma TracksStep(c: Config, s: Signal, rs: seq<Observation>, p: Poll)
    requires ValidConfig(c) && Tracks(c, s, rs) && !EntryMissing(c, p) && p.now < c.expireAt && !DriftedAway(c, p)
    ensures StillTracks(c, Step(c, s, p), rs + [Reading(c, p)])
  {
    StepIsSettle(c, s, p);
    SettleTracks(c, s, rs, p);
  }

  ghost predicate OrdinaryPolls(c: Config, ps: seq<Poll>) {
    Quiet(c, ps) && forall p :: p in ps ==> !EntryMissing(c, p)
  }

  lemma EndsStreakByLength(rs: seq<Observation>, n: nat, i: nat)
    requires n >= 1 && i < |rs|
    ensures EndsStreak(rs, n, i) <==> n <= TailLen(rs[..i + 1])
  {
    if n <= i + 1 {
      TailLenExact(rs[..i + 1], n);
      assert Tail(rs[..i + 1], n) == rs[i + 1 - n..i + 1];
    }
  }

  lemma Advance(c: Config, s: Signal, ps: seq<Poll>, i: nat)
    requires ValidConfig(c) && OrdinaryPolls(c, ps) && i < |ps| && Tracks(c, s, Readings(c, ps)[..i])
    ensures var s', rs := Step(c, s, ps[i]), Readings(c, ps);
            && (s'.crossedAt.Some? <==> EndsStreak(rs, c.polls, i))
            && (if s'.crossedAt.Some? then s'.crossedAt == Some(rs[i + 1 - c.polls].t) else Tracks(c, s', rs[..i + 1]))
  {
    var rs := Readings(c, ps);
    assert ps[i] in ps;
    ReadingAt(c, ps, i);
    assert rs[..i + 1] == rs[..i] + [rs[i]];
    TracksStep(c, s, rs[..i], ps[i]);
    EndsStreakByLength(rs, c.polls, i);
  }

  /** The verdict `r` is the one the first streak in `rs` gives. */
  ghost predicate DecidedByFirstStreak(n: nat, rs: seq<Observation>, r: Option<Signal>) {
    if r.Some? then exists j: nat :: FirstStreakEnd(rs, n, j) && r.value.crossedAt == Some(rs[j + 1 - n].t)
    else NoStreakBefore(rs, n, |rs|)
  }

  lemma NoStreakExtends(rs: seq<Observation>, n: nat, i: nat)
    requires NoStreakBefore(rs, n, i) && !EndsStreak(rs, n, i)
    ensures NoStreakBefore(rs, n, i + 1)
  {
  }

  lemma FirstStreakFound(n: nat, rs: seq<Observation>, i: nat, s: Signal)
    requires FirstStreakEnd(rs, n, i) && s.crossedAt == Some(rs[i + 1 - n].t)
    ensures DecidedByFirstStreak(n, rs, Some(s))
  {
  }

  lemma Unfold(c: Config, s: Signal, ps: seq<Poll>, i: nat, rs: seq<Observation>) returns (s': Signal)
    requires ValidConfig(c) && OrdinaryPolls(c, ps) && i < |ps| && rs == Readings(c, ps) && Tracks(c, s, rs[..i])
    ensures s'.crossedAt.Some? <==> EndsStreak(rs, c.polls, i)
    ensures if s'.crossedAt.Some?
            then FirstConfirmed(c, s, ps[i..]) == Some(s') && s'.crossedAt == Some(rs[i + 1 - c.polls].t)
            else FirstConfirmed(c, s, ps[i..]) == FirstConfirmed(c, s', ps[i + 1..]) && Tracks(c, s', rs[..i + 1])
  {
    s' := Step(c, s, ps[i]);
    assert ps[i..][0] == ps[i] && ps[i..][1..] == ps[i + 1..];
    Advance(c, s, ps, i);
  }

  lemma NothingLeft(c: Config, s: Signal, ps: seq<Poll>, i: nat, rs: seq<Observation>)
    requires i == |ps| == |rs| && NoStreakBefore(rs, c.polls, i)
    ensures DecidedByFirstStreak(c.polls, rs, FirstConfirmed(c, s, ps[i..]))
  {
    assert ps[i..] == [];
  }

  lemma {:induction false} ConfirmsFrom(c: Config, s: Signal, ps: seq<Poll>, i: nat, rs: seq<Observation>,
      r: Option<Signal>)
    requires ValidConfig(c) && OrdinaryPolls(c, ps) && i <= |ps| && rs == Readings(c, ps)
    requires Tracks(c, s, rs[..i]) && NoStreakBefore(rs, c.polls, i)
    requires r == FirstConfirmed(c, s, ps[i..])
    ensures DecidedByFirstStreak(c.polls, rs, r)
    decreases |ps| - i
  {
    if i < |ps| {
      var s' := Unfold(c, s, ps, i, rs);
      if s'.crossedAt.Some? {
        FirstStreakFound(c.polls, rs, i, s');
      } else {
        NoStreakExtends(rs, c.polls, i);
        ConfirmsFrom(c, s', ps, i + 1, rs, r);
      }
    } else {
      NothingLeft(c, s, ps, i, rs);
    }
  }

  /** On polls that all carry entry evidence, and for any clock, the trigger is confirmed
      exactly when some `polls` consecutive observations form a streak, and the crossing is
      dated by the start of the earliest such streak. */
  lemma ConfirmsExactlyAtFirstStreak(c: Config, s: Signal, ps: seq<Poll>)
    requires ValidConfig(c) && OrdinaryPolls(c, ps) && s.state.Pending? && s.late.None? && Unconfirmed(s)
    ensures DecidedByFirstStreak(c.polls, Readings(c, ps), FirstConfirmed(c, s, ps))
  {
    assert ps[0..] == ps;
    ConfirmsFrom(c, s, ps, 0, Readings(c, ps), FirstConfirmed(c, s, ps));
  }

  lemma InformativePolls(c: Config, ps: seq<Poll>)
    requires Quiet(c, ps)
    ensures OrdinaryPolls(c, Informative(c, ps))
  {
    if |ps| > 0 {
      InformativePolls(c, ps[1..]);
    }
  }

  /** Both laws together: with a clock that never steps back, over any polls at all, the
      first streak among the polls that carry evidence decides the confirmation. */
  lemma FirstInformativeStreakDecides(c: Config, s: Signal, ps: seq<Poll>, now: int)
    requires ValidConfig(c) && Quiet(c, ps) && NonDecreasing(now, ps) && Waiting(s, now) && Unconfirmed(s)
    ensures DecidedByFirstStreak(c.polls, Readings(c, Informative(c, ps)), FirstConfirmed(c, s, ps))
  {
    UnusablePollsAreErasable(c, s, ps, now);
    InformativePolls(c, ps);
    ConfirmsExactlyAtFirstStreak(c, s, Informative(c, ps));
  }
}
