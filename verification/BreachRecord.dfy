/**
 What a confirmed watcher records of the prices: the quotes of the poll its streak began with, and the
 entry price and time of the poll that confirmed it.
 */
module BreachRecord {
  import opened Common
  import opened SignalMachine
  import opened StreakSoundness

  /** The two quotes of a poll as the source keeps them, 0 for one that is no evidence. */
  ghost function KeptBid(p: Poll): real {
    if p.bid.Some? && p.bid.value > 0.0 && !Inverted(p) then p.bid.value else 0.0
  }

  ghost function KeptAsk(p: Poll): real {
    if p.ask.Some? && p.ask.value > 0.0 && !Inverted(p) then p.ask.value else 0.0
  }

  ghost predicate Inverted(p: Poll) {
    p.bid.Some? && p.ask.Some? && p.bid.value > p.ask.value > 0.0
  }

  ghost function EntryPrice(c: Config, p: Poll): real {
    if c.side.Call? then KeptAsk(p) else KeptBid(p)
  }

  /** The watcher's first-breach fields are those of this poll. */
  ghost predicate Records(c: Config, s: Signal, p: Poll) {
    s.breachPrice == EntryPrice(c, p) && s.firstBid == KeptBid(p) && s.firstAsk == KeptAsk(p)
  }

  /** The poll at `i` began the streak the watcher counts, or was confirmed by. */
  ghost predicate BeganAt(c: Config, s: Signal, es: seq<Event>, i: nat) {
    && i < |es| && es[i].Polled? && Records(c, s, es[i].p)
    && (if s.crossedAt.Some? then s.crossedAt else s.pendingFirst) == Some(es[i].p.now)
  }

  ghost predicate Begun(c: Config, s: Signal, es: seq<Event>) {
    exists i :: BeganAt(c, s, es, i)
  }

  /** One step of an unconfirmed watcher: a streak goes on with the same record, or begins with this poll. */
  ghost predicate GoesOn(c: Config, s: Signal, e: Event, s': Signal) {
    if s'.crossedAt.None? && s'.breachCount == 0 then true
    else
      || (s.breachCount > 0 && s'.breachPrice == s.breachPrice && s'.firstBid == s.firstBid && s'.firstAsk == s.firstAsk
          && s.pendingFirst.Some?
          && (if s'.crossedAt.Some? then s'.crossedAt else s'.pendingFirst) == s.pendingFirst)
      || (e.Polled? && Records(c, s', e.p)
          && (if s'.crossedAt.Some? then s'.crossedAt else s'.pendingFirst) == Some(e.p.now))
  }

  /** A counted streak has a date. */
  ghost predicate Dated(s: Signal) {
    s.crossedAt.None? && s.breachCount > 0 ==> s.pendingFirst.Some?
  }

  lemma CountGoesOn(c: Config, s: Signal, p: Poll, q: real)
    requires s.crossedAt.None? && Dated(s) && q == EntryPrice(c, p)
    ensures GoesOn(c, s, Polled(p), CountBreach(c, s, p.now, q, KeptBid(p), KeptAsk(p)))
    ensures Dated(CountBreach(c, s, p.now, q, KeptBid(p), KeptAsk(p)))
  {
  }

  lemma SettleGoesOn(c: Config, s: Signal, p: Poll)
    requires s.crossedAt.None? && Dated(s)
    ensures GoesOn(c, s, Polled(p), Settle(c, s, p)) && Dated(Settle(c, s, p))
  {
    if !Suppressed(c, s, p) && Breaches(c, EntryQuote(c, p).value) {
      assert OrZero(BidQuote(p)) == KeptBid(p) && OrZero(AskQuote(p)) == KeptAsk(p);
      CountGoesOn(c, s, p, EntryQuote(c, p).value);
    }
  }

  ghost predicate SameStreak(s: Signal, t: Signal) {
    && s.breachCount == t.breachCount && s.breachPrice == t.breachPrice && s.firstBid == t.firstBid
    && s.firstAsk == t.firstAsk && s.pendingFirst == t.pendingFirst
  }

  lemma PreludeKeeps(c: Config, s: Signal, p: Poll)
    requires s.crossedAt.None? && Dated(s)
    ensures var held := HoldEvidence(s, p.now, EntryMissing(c, p));
            && held.crossedAt.None? && Dated(held) && GoesOn(c, s, Polled(p), held)
            && var g := Gate(c, held, p.late).s;
               g.crossedAt.None? && Dated(g) && GoesOn(c, s, Polled(p), g) && (g.breachCount > 0 ==> SameStreak(g, s))
  {
  }

  lemma StepGoesOn(c: Config, s: Signal, e: Event)
    requires s.crossedAt.None? && Dated(s)
    ensures GoesOn(c, s, e, Next(c, s, e)) && Dated(Next(c, s, e))
  {
    if e.Polled? && s.state.Pending? {
      PreludeKeeps(c, s, e.p);
      var g := Gate(c, HoldEvidence(s, e.p.now, EntryMissing(c, e.p)), e.p.late);
      SettleGoesOn(c, g.s, e.p);
    }
  }

  lemma OneMore(c: Config, s: Signal, es: seq<Event>, e: Event, s': Signal)
    requires s.crossedAt.None? && (s.breachCount > 0 ==> Begun(c, s, es)) && GoesOn(c, s, e, s')
    requires s'.crossedAt.Some? || s'.breachCount > 0
    ensures Begun(c, s', es + [e])
  {
    if e.Polled? && Records(c, s', e.p)
       && (if s'.crossedAt.Some? then s'.crossedAt else s'.pendingFirst) == Some(e.p.now) {
      assert BeganAt(c, s', es + [e], |es|);
    } else {
      var i :| BeganAt(c, s, es, i);
      assert BeganAt(c, s', es + [e], i);
    }
  }

  lemma {:induction false} StreakIsRecorded(c: Config, s0: Signal, es: seq<Event>)
    requires Unconfirmed(s0) && Run(c, s0, es).crossedAt.None?
    ensures Dated(Run(c, s0, es)) && (Run(c, s0, es).breachCount > 0 ==> Begun(c, Run(c, s0, es), es))
  {
    if |es| > 0 {
      var init, last := es[..|es| - 1], es[|es| - 1];
      var before := Run(c, s0, init);
      if before.crossedAt.Some? {
        CrossingMovesIff(c, before, last);
      } else {
        StreakIsRecorded(c, s0, init);
        StepGoesOn(c, before, last);
        if Run(c, s0, es).breachCount > 0 {
          OneMore(c, before, init, last, Run(c, s0, es));
          assert init + [last] == es;
        }
      }
    }
  }

  /** At every confirmation, the first or a later one: the crossing time and the recorded quotes are those
      of one poll, with which the streak began; and the entry price and time of the trigger are the
      confirming poll's. */
  lemma ConfirmationRecordsItsPolls(c: Config, s0: Signal, es: seq<Event>) returns (i: nat)
    requires Unconfirmed(s0) && |es| > 0
    requires Run(c, s0, es[..|es| - 1]).crossedAt.None? && Run(c, s0, es).crossedAt.Some?
    ensures i < |es| && es[i].Polled? && es[|es| - 1].Polled?
    ensures var s, first, last := Run(c, s0, es), es[i].p, es[|es| - 1].p;
            && s.crossedAt == Some(first.now)
            && s.breachPrice == EntryPrice(c, first) && s.firstBid == KeptBid(first) && s.firstAsk == KeptAsk(first)
            && s.triggeredAt == Some(last.now) && s.triggerPrice == Some(EntryPrice(c, last))
  {
    var init, last := es[..|es| - 1], es[|es| - 1];
    var before := Run(c, s0, init);
    StreakIsRecorded(c, s0, init);
    StepGoesOn(c, before, last);
    OneMore(c, before, init, last, Run(c, s0, es));
    assert init + [last] == es;
    i :| BeganAt(c, Run(c, s0, es), es, i);
    ConfirmingPoll(c, before, last);
  }

  lemma ConfirmingPoll(c: Config, s: Signal, e: Event)
    requires s.crossedAt.None? && Next(c, s, e).crossedAt.Some?
    ensures e.Polled? && Next(c, s, e).triggeredAt == Some(e.p.now)
    ensures Next(c, s, e).triggerPrice == Some(EntryPrice(c, e.p))
  {
    if e.Polled? && s.state.Pending? {
      assert OrZero(BidQuote(e.p)) == KeptBid(e.p) && OrZero(AskQuote(e.p)) == KeptAsk(e.p);
      var held := HoldEvidence(s, e.p.now, EntryMissing(c, e.p));
      var g := Gate(c, held, e.p.late);
      assert g.s.crossedAt.None?;
      SettleConfirms(c, g.s, e.p);
    }
  }

  lemma SettleConfirms(c: Config, s: Signal, p: Poll)
    requires s.crossedAt.None? && Settle(c, s, p).crossedAt.Some?
    ensures !EntryMissing(c, p) && Settle(c, s, p).triggeredAt == Some(p.now)
    ensures Settle(c, s, p).triggerPrice == EntryQuote(c, p)
  {
  }

  /** What the three callbacks do to a watcher, and when: a kept trigger waits again; a direction reversal
      forgets crossing, streak and prices of a watcher it may be called for, but neither the last
      observation nor the gate; a revival takes an invalidation back without its count. */
  lemma CallbacksAre(c: Config, s: Signal)
    ensures Next(c, s, Retained) == if s.state == Triggered then s.(state := Pending) else s
    ensures Next(c, s, Revived) == if s.state == Invalidated then s.(state := Pending, breachCount := 0) else s
    ensures Next(c, s, Rewound) ==
              if s.state == Triggered || (s.state == Pending && s.crossedAt != None)
              then Signal(Pending, 0, None, s.lastObs, None, None, 0.0, 0.0, 0.0, None, false,
                          s.late, s.confirmPolls, s.resetPolls)
              else s
  {
  }
}
