/**
 When cleanup releases a watcher: what each claim must find in the row, field by field, and at which
 times a quarantined watcher can and cannot leave.
 */
module CleanupRetries {
  import opened Common
  import SignalMachine
  import opened Registry
  import opened Completion

  // ---- What a claim must find ----

  /** The row is of this order and, where the watcher names them, of its client and mode. */
  ghost predicate OfWatcher(w: Watcher, r: Row) {
    r.order == w.order && w.order != "" && (w.client in {"", r.client}) && (w.mode in {"", r.mode})
  }

  /** A terminal claim on this order, and a closed row of exactly this order, client and mode that
      nobody owns for submission and that stores the claimed reason, if one is claimed. */
  ghost predicate ProvenEnd(w: Watcher, c: Claim, a: Answer) {
    && c.Typed? && c.outcome == Terminalized && c.order == w.order && a.Answer?
    && OfWatcher(w, a.row) && w.client != "" && w.mode != ""
    && (a.row.status == Canceled || a.row.status == RowExpired || a.row.status == Rejected || a.row.status == Error)
    && !a.row.owned && (c.reason == "" || c.reason in a.row.reasons)
  }

  /** A retry claim of a listed watcher on a row that waits for its trigger and records owner, reason,
      attempt and exactly the claimed times. */
  ghost predicate NotedRetry(reg: Reg, w: Watcher, c: Claim, a: Answer) {
    && c.Typed? && c.outcome == RetryOwned && c.order != "" && a.Answer?
    && w in reg.pending && w.id in reg.dedup && w.id != ""
    && OfWatcher(w, a.row) && a.row.status == PendingTrigger
    && a.row.retry.owner != "" && a.row.retry.reason != "" && a.row.retry.attempt
    && a.row.retry.nextAt == c.nextAt != "" && a.row.retry.deadline == c.deadline != ""
  }

  /** A rearm claim of a listed watcher that waits to be rearmed, on a row that waits for its trigger and
      records reason, attempt and deadline. */
  ghost predicate NotedRearm(reg: Reg, w: Watcher, c: Claim, a: Answer) {
    && c.Typed? && c.outcome == Rearmed && c.order != "" && a.Answer?
    && w in reg.pending && w.id in reg.dedup && w.id != "" && w.rearm
    && OfWatcher(w, a.row) && a.row.status == PendingTrigger
    && a.row.rearm.reason != "" && a.row.rearm.attempt && a.row.rearm.deadline != ""
  }

  lemma VerifiedIs(reg: Reg, w: Watcher, c: Claim, a: Answer)
    ensures Verify(reg, w, c, a) ==
              if ProvenEnd(w, c, a) then Terminalized
              else if NotedRetry(reg, w, c, a) then RetryOwned
              else if NotedRearm(reg, w, c, a) then Rearmed
              else Failed
  {
  }

  // ---- The fates, with their times ----

  /** Into quarantine at `now`: the first time sets the deadline, every time counts and sets the next
      attempt. */
  ghost predicate EntersQuarantine(t: Timing, v: Watcher, f: Fate, now: int) {
    f == Stays(v.(quarantined := true, cleanups := v.cleanups + 1, retryAt := Some(now + t.retryDelay),
                  deadline := if v.cleanups == 0 then Some(now + t.deadlineAfter) else v.deadline))
  }

  /** A dispatch: out on a proven end, kept as the callback left it on a noted retry or rearm, and else
      into quarantine. */
  lemma DispatchIs(t: Timing, reg: Reg, w: Watcher, revived: bool, c: Claim, a: Answer, now: int)
    ensures var f := DispatchFate(t, reg, w, revived, c, a, now);
            var v := if revived && w.state == SignalMachine.Invalidated then w.(state := SignalMachine.Pending) else w;
            if ProvenEnd(w, c, a) then f == Leaves
            else if NotedRetry(reg, w, c, a) || NotedRearm(reg, w, c, a) then f == Stays(v)
            else EntersQuarantine(t, v, f, now)
  {
    VerifiedIs(reg, w, c, a);
  }

  /** A raised trigger callback: kept with one more failure up to the second; the third ends the watcher
      if the terminal write was acknowledged and the row proves the exhaustion, and else puts it, as
      expired if it was acknowledged, into quarantine. */
  lemma FailureIs(t: Timing, reg: Reg, w: Watcher, written: bool, a: Answer, now: int)
    ensures var f, v := FailureFate(t, reg, w, written, a, now), w.(failures := w.failures + 1);
            var claim := Typed(Terminalized, "on_trigger_exhausted_3_attempts", w.order, "", "");
            if w.failures < 2 then f == Stays(v)
            else if !written then EntersQuarantine(t, v, f, now)
            else if ProvenEnd(w, claim, a) then f == Leaves
            else EntersQuarantine(t, v.(state := SignalMachine.Expired), f, now)
  {
    if written && w.failures >= 2 {
      var claim := Typed(Terminalized, "on_trigger_exhausted_3_attempts", w.order, "", "");
      DispatchIs(t, reg, w.(failures := w.failures + 1, state := SignalMachine.Expired), false, claim, a, now);
    }
  }

  /** A retry: nothing before its time, only a later next look after the deadline, out on a proven end in
      between, and else one more attempt. */
  lemma RetryIs(t: Timing, reg: Reg, w: Watcher, revived: bool, c: Claim, a: Answer, now: int)
    ensures RetryFate(t, reg, w, revived, c, a, now) ==
              if !w.quarantined || w.retryAt == None || now < w.retryAt.value then Stays(w)
              else if w.deadline.Some? && now > w.deadline.value then Stays(w.(retryAt := Some(now + 300)))
              else if ProvenEnd(w, c, a) then Leaves
              else
                Stays(w.(cleanups := w.cleanups + 1, retryAt := Some(now + t.retryDelay),
                         state := if revived && w.state == SignalMachine.Invalidated then SignalMachine.Pending
                                  else w.state))
  {
    VerifiedIs(reg, w, c, a);
  }

  /** Nobody leaves through cleanup without a proven end. */
  lemma LeavingIsProven(t: Timing, reg: Reg, w: Watcher, revived: bool, written: bool, c: Claim, a: Answer, now: int)
    ensures DispatchFate(t, reg, w, revived, c, a, now).Leaves? ==> ProvenEnd(w, c, a)
    ensures RetryFate(t, reg, w, revived, c, a, now).Leaves? ==> ProvenEnd(w, c, a)
    ensures FailureFate(t, reg, w, written, a, now).Leaves? ==> ProvenEnd(w, ExhaustionClaim(w), a)
  {
    DispatchIs(t, reg, w, revived, c, a, now);
    RetryIs(t, reg, w, revived, c, a, now);
    FailureIs(t, reg, w, written, a, now);
  }

  // ---- Liveness ----

  /** Since it first entered quarantine at `now`, a watcher with a proven end is released exactly from
      one retry delay later to the deadline; before that it waits, after that it is only looked at again. */
  lemma QuarantineReleases(t: Timing, reg: Reg, w: Watcher, revived: bool, c: Claim, a: Answer, now: int, later: int)
    requires w.cleanups == 0 && ProvenEnd(w, c, a)
    ensures var v := Quarantine(t, w, now);
            RetryFate(t, reg, v, revived, c, a, later) ==
              if later < now + t.retryDelay then Stays(v)
              else if later <= now + t.deadlineAfter then Leaves
              else Stays(v.(retryAt := Some(later + 300)))
  {
    RetryIs(t, reg, Quarantine(t, w, now), revived, c, a, later);
  }

  /** The same after an attempt that failed at `now`: one retry delay later the next one can release. */
  lemma FailedAttemptIsRepeated(
      t: Timing, reg: Reg, w: Watcher, failed: Claim, row: Answer, c: Claim, a: Answer, now: int, later: int)
    requires w.quarantined && w.retryAt.Some? && w.retryAt.value <= now
    requires w.deadline.Some? ==> now <= w.deadline.value
    requires !ProvenEnd(w, failed, row) && ProvenEnd(w, c, a)
    ensures var f := RetryFate(t, reg, w, false, failed, row, now);
            && f.Stays? && f.w.deadline == w.deadline
            && RetryFate(t, reg, f.w, false, c, a, later) ==
                 if later < now + t.retryDelay then Stays(f.w)
                 else if w.deadline.None? || later <= w.deadline.value then Leaves
                 else Stays(f.w.(retryAt := Some(later + 300)))
  {
    RetryIs(t, reg, w, false, failed, row, now);
    var f := RetryFate(t, reg, w, false, failed, row, now);
    RetryIs(t, reg, f.w, false, c, a, later);
  }

  /** One poll's look at a quarantined watcher. */
  datatype Look = Look(revived: bool, c: Claim, a: Answer, now: int)

  function Looks(t: Timing, reg: Reg, w: Watcher, ls: seq<Look>): Fate {
    if |ls| == 0 then Stays(w)
    else
      match Looks(t, reg, w, ls[..|ls| - 1])
      case Leaves => Leaves
      case Stays(v) =>
        var l := ls[|ls| - 1];
        RetryFate(t, reg, v, l.revived, l.c, l.a, l.now)
  }

  /** Looks at least one retry delay apart, the first one due, and none after the deadline. */
  ghost predicate Timely(t: Timing, w: Watcher, ls: seq<Look>) {
    |ls| > 0 ==>
      var init, l := ls[..|ls| - 1], ls[|ls| - 1];
      && Timely(t, w, init) && (w.deadline.Some? ==> l.now <= w.deadline.value)
      && (if |init| == 0 then w.retryAt.Some? && w.retryAt.value <= l.now
          else init[|init| - 1].now + t.retryDelay <= l.now)
  }

  ghost predicate Unproven(w: Watcher, ls: seq<Look>) {
    forall l :: l in ls ==> !ProvenEnd(w, l.c, l.a)
  }

  /** What failed looks leave: the same watcher of the same order, waiting one delay from the last. */
  lemma {:induction false} FailedLooks(t: Timing, reg: Reg, w: Watcher, ls: seq<Look>)
    requires w.quarantined && Timely(t, w, ls) && Unproven(w, ls)
    ensures var f := Looks(t, reg, w, ls);
            && f.Stays? && f.w.quarantined && f.w.deadline == w.deadline && f.w.cleanups == w.cleanups + |ls|
            && f.w.order == w.order && f.w.client == w.client && f.w.mode == w.mode
            && f.w.retryAt == (if |ls| == 0 then w.retryAt else Some(ls[|ls| - 1].now + t.retryDelay))
  {
    if |ls| > 0 {
      var init, l := ls[..|ls| - 1], ls[|ls| - 1];
      assert l in ls && forall x :: x in init ==> x in ls;
      FailedLooks(t, reg, w, init);
      RetryIs(t, reg, Looks(t, reg, w, init).w, l.revived, l.c, l.a, l.now);
    }
  }

  /** Liveness over a run: however many attempts failed, the first timely look that finds the end proven
      releases the watcher. */
  lemma FirstProvenLookReleases(t: Timing, reg: Reg, w: Watcher, ls: seq<Look>, last: Look)
    requires w.quarantined && Timely(t, w, ls + [last]) && Unproven(w, ls) && ProvenEnd(w, last.c, last.a)
    ensures Looks(t, reg, w, ls).Stays? && Looks(t, reg, w, ls + [last]) == Leaves
  {
    var all := ls + [last];
    assert all[..|all| - 1] == ls;
    FailedLooks(t, reg, w, ls);
    RetryIs(t, reg, Looks(t, reg, w, ls).w, last.revived, last.c, last.a, last.now);
  }

  /** And past the deadline nothing does, whatever it finds. */
  lemma {:induction false} NothingReleasesAfterTheDeadline(t: Timing, reg: Reg, w: Watcher, ls: seq<Look>)
    requires w.quarantined && w.deadline.Some? && forall l :: l in ls ==> l.now > w.deadline.value
    ensures var f := Looks(t, reg, w, ls);
            f.Stays? && f.w == w.(retryAt := f.w.retryAt)
  {
    if |ls| > 0 {
      var init, l := ls[..|ls| - 1], ls[|ls| - 1];
      assert l in ls && forall x :: x in init ==> x in ls;
      NothingReleasesAfterTheDeadline(t, reg, w, init);
      RetryIs(t, reg, Looks(t, reg, w, init).w, l.revived, l.c, l.a, l.now);
    }
  }
}
