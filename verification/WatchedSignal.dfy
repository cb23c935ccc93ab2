/**
 The mutable watched signal.  `Check` follows the source statement by statement, with its
 CALL and PUT branches spelled out, and is proved equal to the side-neutral `Step`.
 */
module WatchedSignals {
  import opened Common
  import opened SignalMachine

  class WatchedSignal {
    const config: Config
    var state: WatchState
    var breachCount: nat
    var pendingFirst: Option<int>
    var lastObs: Option<int>
    var crossedAt: Option<int>
    var triggeredAt: Option<int>
    var breachPrice: real
    var firstBid: real
    var firstAsk: real
    var triggerPrice: Option<real>
    var collision: bool
    var late: Option<LateState>
    var confirmPolls: nat
    var resetPolls: nat

    ghost function View(): Signal
      reads this
    {
      Signal(state, breachCount, pendingFirst, lastObs, crossedAt, triggeredAt, breachPrice,
             firstBid, firstAsk, triggerPrice, collision, late, confirmPolls, resetPolls)
    }

    constructor (config: Config, durableCrossing: Option<int>, seed: Option<LateState>)
      ensures this.config == config
      ensures View() == Signal(Pending, 0, None, None, durableCrossing, None, 0.0, 0.0, 0.0, None, false, seed, 0, 0)
    {
      this.config := config;
      state, breachCount, pendingFirst, lastObs := Pending, 0, None, None;
      crossedAt, triggeredAt, triggerPrice := durableCrossing, None, None;
      breachPrice, firstBid, firstAsk, collision := 0.0, 0.0, 0.0, false;
      late, confirmPolls, resetPolls := seed, 0, 0;
    }

    method ResetContinuity()
      modifies this
      ensures View() == ResetStreak(old(View()))
    {
      breachCount, pendingFirst, breachPrice := 0, None, 0.0;
      firstBid, firstAsk, triggerPrice, lastObs := 0.0, 0.0, None, None;
    }

    /** Returns whether the poll may go on to the ordinary breach path. */
    method ApplyGate(a: LateAnswer) returns (through: bool)
      modifies this
      ensures through == Gate(config, old(View()), a).Through?
      ensures View() == Gate(config, old(View()), a).s
    {
      if late.None? { return true; }
      if a.Unavailable? || (a.cls.TruthRetry? && a.quote.None?) { return false; }
      if IsTerminalClass(a.cls) {
        state, breachCount := Invalidated, 0;
        return false;
      }
      match late.value
      case AwaitingFirstTruth =>
        match a.cls {
          case ZoneWithin => late, confirmPolls := Some(WithinContinuation), 0;
          case ZonePast => late, resetPolls := Some(WaitingReset), 0;
          case TruthRetry => late := None;
          case _ =>
        }
        return false;
      case WithinContinuation =>
        if a.cls.ZoneWithin? {
          confirmPolls := confirmPolls + 1;
          if confirmPolls >= config.polls {
            late := None;
            return true;
          }
        } else if a.cls.ZonePast? {
          late, confirmPolls, resetPolls := Some(WaitingReset), 0, 0;
        }
        return false;
      case WaitingReset =>
        if a.reset {
          resetPolls := resetPolls + 1;
          if resetPolls >= config.polls {
            late, resetPolls, breachCount := None, 0, 0;
          }
        } else {
          resetPolls := 0;
        }
        return false;
    }

    /** A stale anchor cannot carry an unconfirmed streak into the next observation. */
    method DropStaleStreak(now: int)
      modifies this
      ensures View() == if old(crossedAt.None? && breachCount > 0 && !Fresh(lastObs, now))
          then ResetStreak(old(View())) else old(View())
    {
      if crossedAt.None? && breachCount > 0 {
        if lastObs.None? || now - lastObs.value < 0 || now - lastObs.value > CONTINUITY_MAX_GAP {
          ResetContinuity();
        }
      }
    }

    method Confirm(now: int, quote: real)
      modifies this
      ensures View() == Confirmed(old(View()), now, quote)
    {
      if crossedAt.None? {
        crossedAt := if pendingFirst.Some? then pendingFirst else Some(now);
      }
      pendingFirst, state, triggeredAt, triggerPrice := None, Triggered, Some(now), Some(quote);
    }

    /** One valid observation at or through the trigger. */
    method Observe(now: int, quote: real, bid: real, ask: real)
      modifies this
      ensures View() == CountBreach(config, old(View()), now, quote, bid, ask)
    {
      DropStaleStreak(now);
      if breachCount == 0 {
        breachPrice, pendingFirst := quote, Some(now);
        firstBid, firstAsk := bid, ask;
      }
      breachCount := breachCount + 1;
      lastObs := Some(now);
      if breachCount >= config.polls {
        Confirm(now, quote);
      }
    }

    method StopOut()
      modifies this
      ensures View() == old(View()).(
          collision := old(collision) || old(state).Triggered?, state := Invalidated, breachCount := 0)
    {
      if state.Triggered? { collision := true; }
      state, breachCount := Invalidated, 0;
    }

    method JudgeCall(p: Poll, bidQ: Option<real>, askQ: Option<real>, suppress: bool)
      requires config.side.Call? && bidQ == BidQuote(p) && askQ == AskQuote(p)
      requires suppress == Suppressed(config, View(), p)
      modifies this
      ensures View() == JudgeStop(config, JudgeBreach(config, old(View()), p), p)
    {
      if !suppress {
        if askQ.value >= config.trigger {
          Observe(p.now, askQ.value, OrZero(bidQ), OrZero(askQ));
        } else {
          breachCount, lastObs := 0, None;
        }
      }
      assert View() == JudgeBreach(config, old(View()), p);
      var preOpenSkip := (p.overnight || p.daily) && p.preMarket && crossedAt.None?;
      if config.stop.Some? && crossedAt.Some? && bidQ.Some?
         && bidQ.value <= config.stop.value * (1.0 - WRONG_DIR_BUFFER) && !preOpenSkip {
        StopOut();
      }
    }

    method JudgePut(p: Poll, bidQ: Option<real>, askQ: Option<real>, suppress: bool)
      requires config.side.Put? && bidQ == BidQuote(p) && askQ == AskQuote(p)
      requires suppress == Suppressed(config, View(), p)
      modifies this
      ensures View() == JudgeStop(config, JudgeBreach(config, old(View()), p), p)
    {
      if !suppress {
        if bidQ.value <= config.trigger {
          Observe(p.now, bidQ.value, OrZero(bidQ), OrZero(askQ));
        } else {
          breachCount, lastObs := 0, None;
        }
      }
      assert View() == JudgeBreach(config, old(View()), p);
      var preOpenSkip := (p.overnight || p.daily) && p.preMarket && crossedAt.None?;
      if config.stop.Some? && crossedAt.Some? && askQ.Some?
         && askQ.value >= config.stop.value * (1.0 + WRONG_DIR_BUFFER) && !preOpenSkip {
        StopOut();
      }
    }

    /** An unusable poll keeps a fresh partial streak and discards a stale one. */
    method HoldOrDrop(now: int, missing: bool)
      modifies this
      ensures View() == HoldEvidence(old(View()), now, missing)
    {
      if missing && crossedAt.None? {
        if breachCount == 0 {
          lastObs := None;
        } else if !Fresh(lastObs, now) {
          ResetContinuity();
        }
      }
    }

    /** The ordinary breach path: judge the entry side, then the stop, then demand stop truth. */
    method Evaluate(p: Poll, bidQ: Option<real>, askQ: Option<real>, suppress: bool)
      requires bidQ == BidQuote(p) && askQ == AskQuote(p) && suppress == Suppressed(config, View(), p)
      modifies this
      ensures View() == Settle(config, old(View()), p)
    {
      if config.side.Call? {
        JudgeCall(p, bidQ, askQ, suppress);
      } else {
        JudgePut(p, bidQ, askQ, suppress);
      }
      var stopQ := if config.side.Call? then bidQ else askQ;
      if state.Triggered? && crossedAt.Some? && config.stop.Some? && stopQ.None? {
        state := Pending;
      }
    }

    method Check(p: Poll) returns (outcome: WatchState)
      modifies this
      ensures View() == Step(config, old(View()), p)
      ensures outcome == state
    {
      var bidQ, askQ := Usable(p.bid), Usable(p.ask);
      if bidQ.Some? && askQ.Some? && bidQ.value > askQ.value {
        bidQ, askQ := None, None;
      }
      if p.now >= config.expireAt {
        state := Expired;
        return state;
      }
      var missing := config.trigger <= 0.0 || (if config.side.Call? then askQ else bidQ).None?;
      HoldOrDrop(p.now, missing);
      var stopQ := if config.side.Call? then bidQ else askQ;
      var suppress := missing || (crossedAt.Some? && config.stop.Some? && stopQ.None?);
      if DriftedAway(config, p) {
        state := Expired;
        return state;
      }
      var through := ApplyGate(p.late);
      if through {
        Evaluate(p, bidQ, askQ, suppress);
      }
      return state;
    }
  }
}
