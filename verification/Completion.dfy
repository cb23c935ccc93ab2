/**
 How a watcher is allowed to leave: a cleanup callback only claims an outcome; the claim is
 checked against the re-read order row, and whatever cannot be proved ends in quarantine.
 */
module Completion {
  import opened Common
  import opened SignalMachine
  import opened Registry

  const MAX_FAILURES: nat := 3
  const ESCALATION_DELAY: int := 300
  const EXHAUSTED := "on_trigger_exhausted_3_attempts"

  // ---- The durable order row ----

  datatype Status =
    | Created | PendingTrigger | Submitted | Acknowledged | PartialFill | Filled
    | ExitRequested | ExitSubmitted | ExitAcknowledged | ExitPartialFill | ExitFilled
    | Rejected | Canceled | RowExpired | Error

  predicate IsClosed(s: Status) {
    s.Canceled? || s.RowExpired? || s.Rejected? || s.Error?
  }

  /** The order state machine's transition table. */
  predicate CanTransition(a: Status, b: Status) {
    match a
    case Created => b.PendingTrigger? || b.Submitted? || IsClosed(b)
    case PendingTrigger => b.Submitted? || IsClosed(b)
    case Submitted => b.Acknowledged? || b.PartialFill? || b.Filled? || IsClosed(b)
    case Acknowledged => b.PartialFill? || b.Filled? || IsClosed(b)
    case PartialFill => b.Filled? || IsClosed(b)
    case Filled => b.ExitRequested?
    case ExitRequested => b.ExitSubmitted? || IsClosed(b)
    case ExitSubmitted => b.ExitAcknowledged? || b.ExitPartialFill? || b.ExitFilled? || IsClosed(b)
    case ExitAcknowledged => b.ExitPartialFill? || b.ExitFilled? || IsClosed(b)
    case ExitPartialFill => b.ExitFilled? || IsClosed(b)
    case _ => false
  }

  /** How far an order has come. */
  function Stage(s: Status): nat {
    match s
    case Created => 0
    case PendingTrigger => 1
    case Submitted => 2
    case Acknowledged => 3
    case PartialFill => 4
    case Filled => 5
    case ExitRequested => 6
    case ExitSubmitted => 7
    case ExitAcknowledged => 8
    case ExitPartialFill => 9
    case _ => 10
  }

  predicate Skips(a: Status, b: Status, gate: Status) {
    Stage(a) < Stage(gate) < Stage(b)
  }

  /** The table in two rules: an order moves forward and skips neither its submission, nor its fill, nor
      the request or the submission of its exit; and it may be closed from everywhere but its fill and
      its end. */
  lemma TransitionsSkipNoGate(a: Status, b: Status)
    ensures CanTransition(a, b) <==>
              && !IsClosed(a) && a != ExitFilled
              && (if IsClosed(b) then a != Filled
                  else
                    && Stage(a) < Stage(b)
                    && !Skips(a, b, Submitted) && !Skips(a, b, Filled)
                    && !Skips(a, b, ExitRequested) && !Skips(a, b, ExitSubmitted))
    ensures IsClosed(b) <==> b == Canceled || b == RowExpired || b == Rejected || b == Error
  {
  }

  /** What a retry or rearm claim must find in the row; an empty text is a missing one. */
  datatype RetryNote = RetryNote(owner: string, reason: string, attempt: bool, nextAt: string, deadline: string)
  datatype RearmNote = RearmNote(reason: string, attempt: bool, deadline: string)

  /** `reasons` are the non-empty durable reason texts; `owned` is a submit or recovery owner. */
  datatype Row = Row(
    order: string, client: string, mode: string, status: Status, owned: bool, reasons: set<string>,
    retry: RetryNote, rearm: RearmNote)

  /** The answer to the re-read, if there is one. */
  datatype Answer = NoAnswer | Answer(row: Row)

  // ---- The callback's claim ----

  datatype Outcome = Terminalized | RetryOwned | Rearmed | Failed | Unrecognised

  /** A typed acknowledgment, or an exception or anything else. */
  datatype Claim = Untyped | Typed(outcome: Outcome, reason: string, order: string, nextAt: string, deadline: string)

  predicate SameOrder(w: Watcher, r: Row) {
    r.order != "" && r.order == w.order
  }

  /** The row is this watcher's, is closed, has no broker-side owner, and records the reason. */
  predicate ProvesTerminal(w: Watcher, c: Claim, r: Row)
    requires c.Typed?
  {
    && SameOrder(w, r) && c.order == w.order
    && w.client != "" && r.client == w.client && w.mode != "" && r.mode == w.mode
    && IsClosed(r.status) && !r.owned
    && (c.reason != "" ==> c.reason in r.reasons)
  }

  predicate SameOwner(w: Watcher, r: Row) {
    SameOrder(w, r) && (w.client != "" ==> r.client == w.client) && (w.mode != "" ==> r.mode == w.mode)
  }

  predicate ProvesRetry(w: Watcher, c: Claim, r: Row)
    requires c.Typed?
  {
    && c.nextAt != "" && c.deadline != "" && SameOwner(w, r) && r.status.PendingTrigger?
    && r.retry.owner != "" && r.retry.reason != "" && r.retry.attempt
    && r.retry.nextAt == c.nextAt && r.retry.deadline == c.deadline
  }

  predicate ProvesRearm(w: Watcher, r: Row) {
    && w.rearm && SameOwner(w, r) && r.status.PendingTrigger?
    && r.rearm.reason != "" && r.rearm.attempt && r.rearm.deadline != ""
  }

  predicate Registered(reg: Reg, w: Watcher) {
    w in reg.pending && w.id != "" && w.id in reg.dedup
  }

  /** The verified outcome: the claim itself when the row proves it, `Failed` otherwise. */
  function Verify(reg: Reg, w: Watcher, c: Claim, a: Answer): (o: Outcome)
    ensures !o.Unrecognised?
  {
    if c.Untyped? || c.outcome.Unrecognised? || c.outcome.Failed? || c.order == "" || a.NoAnswer? then Failed
    else
      match c.outcome
      case Terminalized => if ProvesTerminal(w, c, a.row) then Terminalized else Failed
      case RetryOwned => if Registered(reg, w) && ProvesRetry(w, c, a.row) then RetryOwned else Failed
      case Rearmed => if Registered(reg, w) && ProvesRearm(w, a.row) then Rearmed else Failed
      case _ => Failed
  }

  // ---- Dispatcher, quarantine and trigger callback ----

  /** Delays the environment sets once. */
  datatype Timing = Timing(retryDelay: nat, deadlineAfter: nat)

  function Quarantine(t: Timing, w: Watcher, now: int): Watcher {
    w.(quarantined := true, deadline := if w.cleanups == 0 then Some(now + t.deadlineAfter) else w.deadline,
       cleanups := w.cleanups + 1, retryAt := Some(now + t.retryDelay))
  }

  /** What becomes of one watcher: it leaves with its id released, or stays as `w`. */
  datatype Fate = Leaves | Stays(w: Watcher)

  function ApplyFate(reg: Reg, id: string, f: Fate): Reg {
    match f
    case Leaves => Remove(reg, id)
    case Stays(w) => reg.(pending := Replace(reg.pending, w))
  }

  /** The callback may have taken a benign invalidation of a deferred order back by then. */
  function AfterCallback(w: Watcher, revived: bool): Watcher {
    if revived && w.state.Invalidated? then w.(state := SignalMachine.Pending) else w
  }

  /** Completion dispatch: removal only when verified, quarantine on failure, otherwise kept as the
      callback left it. */
  function DispatchFate(t: Timing, reg: Reg, w: Watcher, revived: bool, c: Claim, a: Answer, now: int): Fate {
    match Verify(reg, w, c, a)
    case Terminalized => Leaves
    case Failed => Stays(Quarantine(t, AfterCallback(w, revived), now))
    case _ => Stays(AfterCallback(w, revived))
  }

  predicate Due(w: Watcher, now: int) {
    w.quarantined && w.retryAt.Some? && now >= w.retryAt.value
  }

  function Retried(t: Timing, w: Watcher, now: int): Watcher {
    w.(cleanups := w.cleanups + 1, retryAt := Some(now + t.retryDelay))
  }

  function Escalated(w: Watcher, now: int): Watcher {
    w.(retryAt := Some(now + ESCALATION_DELAY))
  }

  /** A due cleanup retry.  Past the deadline it only escalates; it never gives up ownership. */
  function RetryFate(t: Timing, reg: Reg, w: Watcher, revived: bool, c: Claim, a: Answer, now: int): Fate {
    if !Due(w, now) then Stays(w)
    else if w.deadline.Some? && now > w.deadline.value then Stays(Escalated(w, now))
    else if Verify(reg, w, c, a).Terminalized? then Leaves
    else Stays(Retried(t, AfterCallback(w, revived), now))
  }

  /** What the exhausted trigger path claims once its own terminal write was acknowledged. */
  function ExhaustionClaim(w: Watcher): Claim {
    Typed(Terminalized, EXHAUSTED, w.order, "", "")
  }

  /** A trigger callback that raised: two honest retries, then a verified end or quarantine.
      `written` is whether the terminal write was acknowledged. */
  function FailureFate(t: Timing, reg: Reg, w: Watcher, written: bool, a: Answer, now: int): Fate {
    var failed := w.(failures := w.failures + 1);
    if failed.failures < MAX_FAILURES then Stays(failed)
    else if written then DispatchFate(t, reg, failed.(state := Expired), false, ExhaustionClaim(w), a, now)
    else Stays(Quarantine(t, failed, now))
  }

  // ---- What the verifier lets through ----

  /** The third failed callback ends in removal exactly when the terminal write was acknowledged
      and the re-read row proves it, with the exhaustion reason; otherwise in quarantine. */
  lemma ExhaustionRemovesOnlyProven(t: Timing, reg: Reg, w: Watcher, written: bool, a: Answer, now: int)
    requires w.failures == MAX_FAILURES - 1
    ensures var f := FailureFate(t, reg, w, written, a, now);
            && (f.Leaves? <==>
                  written && w.order != "" && a.Answer? && EXHAUSTED in a.row.reasons && SameOrder(w, a.row)
                  && w.client != "" && a.row.client == w.client && w.mode != "" && a.row.mode == w.mode
                  && IsClosed(a.row.status) && !a.row.owned)
            && (f.Stays? ==> f.w.quarantined && f.w.failures == MAX_FAILURES)
  {
  }

  /** Staying without quarantine needs as much proof as leaving: the claimed retry or rearm must be
      recorded in a PENDING_TRIGGER row of the same order for a registered watcher. */
  lemma RetentionIsProven(t: Timing, reg: Reg, w: Watcher, revived: bool, c: Claim, a: Answer, now: int)
    requires !w.quarantined
    ensures var f := DispatchFate(t, reg, w, revived, c, a, now);
            f.Stays? && !f.w.quarantined <==>
              && c.Typed? && c.order != "" && a.Answer? && Registered(reg, w)
              && ((c.outcome.RetryOwned? && ProvesRetry(w, c, a.row)) || (c.outcome.Rearmed? && ProvesRearm(w, a.row)))
    ensures var f := DispatchFate(t, reg, w, revived, c, a, now);
            f.Stays? && !f.w.quarantined ==> a.row.status.PendingTrigger? && a.row.order == w.order && w.order != ""
  {
  }

  /** Whoever stays is the watcher as the callback left it, or that watcher in quarantine, which
      cannot trigger; it can trigger only if the callback revived it. */
  lemma DispatchKeepsOwner(t: Timing, reg: Reg, w: Watcher, revived: bool, c: Claim, a: Answer, now: int)
    requires Ended(w)
    ensures var f, v := DispatchFate(t, reg, w, revived, c, a, now), AfterCallback(w, revived);
            f.Stays? ==>
              && f.w.id == w.id && f.w.order == w.order && (f.w == v || f.w == Quarantine(t, v, now))
              && (Active(f.w) ==> revived && w.state.Invalidated? && f.w == v)
  {
  }

  // ---- No fate changes whose watcher it is ----

  lemma DispatchKeepsId(t: Timing, reg: Reg, w: Watcher, revived: bool, c: Claim, a: Answer, now: int)
    ensures var f := DispatchFate(t, reg, w, revived, c, a, now); f.Stays? ==> f.w.id == w.id && f.w.order == w.order
  {
  }

  lemma RetryKeepsId(t: Timing, reg: Reg, w: Watcher, revived: bool, c: Claim, a: Answer, now: int)
    ensures var f := RetryFate(t, reg, w, revived, c, a, now);
            f.Stays? ==> f.w.id == w.id && f.w.order == w.order && f.w.quarantined == w.quarantined
  {
  }

  lemma FailureKeepsId(t: Timing, reg: Reg, w: Watcher, written: bool, a: Answer, now: int)
    ensures var f := FailureFate(t, reg, w, written, a, now); f.Stays? ==> f.w.id == w.id && f.w.order == w.order
  {
    var last := w.(failures := w.failures + 1, state := Expired);
    DispatchKeepsId(t, reg, last, false, ExhaustionClaim(w), a, now);
  }

  lemma RetryReleasesOnlyInTime(t: Timing, reg: Reg, w: Watcher, revived: bool, c: Claim, a: Answer, now: int)
    requires RetryFate(t, reg, w, revived, c, a, now).Leaves?
    ensures Due(w, now) && Verify(reg, w, c, a).Terminalized? && (w.deadline.Some? ==> now <= w.deadline.value)
  {
  }
}
