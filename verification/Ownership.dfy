/**
 No ownerless row, end to end: over whole histories, what a watcher left on was a real value of
 its own row that proves the row closed, the broker's, or leased to someone else.
 */
module Ownership {
  import opened Common
  import opened Registry
  import opened Completion
  import opened CleanupRetries
  import opened Histories
  import D = DeferredClaims

  // ---- Reads return what the row held at some time ----

  ghost predicate Truthful(st: State, a: Answer) {
    a.Answer? ==> exists d :: d in st.past && d.row == a.row
  }

  ghost predicate WasRead(past: set<Durable>, order: string, read: D.Read) {
    read.Found? ==> exists d :: d in past && d.row.order == order && d.full == read.row
  }

  ghost predicate TruthfulReads(st: State, id: string, seen: Reads) {
    forall w :: w in st.reg.pending && w.id == id ==>
      WasRead(st.past, w.order, seen.probe) && WasRead(st.past, w.order, seen.fallback)
          && WasRead(st.past, w.order, seen.recheck)
  }

  /** Callbacks may claim anything; reads may be stale or missing, but not invented. */
  ghost predicate TruthfulEvent(st: State, e: Event) {
    && (e.Decided? || e.CallbackRaised? || e.Dispatch? || e.RetryCleanup? ==> Truthful(st, e.a))
    && (e.CallbackDone? ==> TruthfulReads(st, e.id, e.seen))
    && (e.Converged? ==> TruthfulReads(st, e.id, Reads(e.read, D.Unreadable, D.Unreadable)))
  }

  ghost predicate TruthfulRun(st: State, es: seq<Event>) {
    |es| > 0 ==> TruthfulRun(st, es[..|es| - 1]) && TruthfulEvent(Run(st, es[..|es| - 1]), es[|es| - 1])
  }

  // ---- What a departure rests on ----

  /** The row is past waiting for its trigger, which it then stays. */
  predicate Begun(s: Status) {
    !s.Created? && !s.PendingTrigger?
  }

  /** A row that bears a deferred order's departure out. */
  ghost predicate Bears(subject: D.Subject, r: D.Row, clock: D.Clock) {
    || ProvedTerminal(subject, r)
    || D.BrokerOwns(r)
    || D.LeaseHeld(r, clock)
  }

  ghost predicate ProvedTerminal(subject: D.Subject, r: D.Row) {
    subject.id.Known? && exists reason :: D.ExactTerminal(subject.id, r, reason)
  }

  ghost predicate RestsOn(past: set<Durable>, d: Departure) {
    match d
    case ByCleanup(w, c, a) => ProvenEnd(w, c, a) && exists v :: v in past && v.row == a.row
    case ByCallback(w, subject, _, _, clock) =>
      subject.deferred ==> exists v :: v in past && v.row.order == w.order && Bears(subject, v.full, clock)
    case ByConvergence(w, subject, _) =>
      exists v :: v in past && v.row.order == w.order && ProvedTerminal(subject, v.full)
  }

  /** Where the departed watcher's row stands now. */
  ghost predicate Settled(st: State, d: Departure) {
    match d
    case ByCleanup(w, _, _) => w.order in st.rows && IsClosed(st.rows[w.order].row.status)
    case ByConvergence(w, _, _) => w.order in st.rows && IsClosed(st.rows[w.order].row.status)
    case ByCallback(w, subject, _, _, clock) =>
      subject.deferred ==>
        && w.order in st.rows
        && (Begun(st.rows[w.order].row.status)
            || exists v :: v in st.past && v.row.order == w.order && D.LeaseHeld(v.full, clock))
  }

  // ---- Rows keep what they have reached ----

  /** `v` is an earlier value of its row, and what it had reached still holds. */
  ghost predicate StillHolds(rows: map<string, Durable>, v: Durable) {
    && v.row.order in rows && v.full.status == Some(v.row.status)
    && (IsClosed(v.row.status) ==> IsClosed(rows[v.row.order].row.status))
    && (Begun(v.row.status) ==> Begun(rows[v.row.order].row.status))
  }

  ghost predicate PastInv(st: State) {
    && (forall v :: v in st.past ==> StillHolds(st.rows, v))
    && (forall k :: k in st.rows ==> st.rows[k].row.order == k && st.rows[k] in st.past)
  }

  ghost predicate OwnerInv(st: State) {
    PastInv(st) && forall d :: d in st.gone ==> RestsOn(st.past, d)
  }

  lemma RowMovesKeepsPast(st: State, v: Durable)
    requires PastInv(st) && LegalMove(st.rows, v)
    ensures PastInv(st.(rows := st.rows[v.row.order := v], past := st.past + {v}))
  {
    forall u | u in st.past ensures StillHolds(st.rows[v.row.order := v], u) {
      MoveStillHolds(st.rows, v, u);
    }
  }

  lemma MoveStillHolds(rows: map<string, Durable>, v: Durable, u: Durable)
    requires LegalMove(rows, v) && StillHolds(rows, u)
    requires v.row.order in rows ==> rows[v.row.order].row.order == v.row.order
    ensures StillHolds(rows[v.row.order := v], u)
  {
  }

  lemma RestsOnMore(past: set<Durable>, v: Durable, d: Departure)
    requires RestsOn(past, d)
    ensures RestsOn(past + {v}, d)
  {
    match d
    case ByCleanup(w, c, a) =>
      var u :| u in past && u.row == a.row;
      assert u in past + {v};
    case ByCallback(w, subject, _, _, clock) =>
      if subject.deferred {
        var u :| u in past && u.row.order == w.order && Bears(subject, u.full, clock);
        assert u in past + {v};
      }
    case ByConvergence(w, subject, _) =>
      var u :| u in past && u.row.order == w.order && ProvedTerminal(subject, u.full);
      assert u in past + {v};
  }

  /** What rests on a real row value is settled now. */
  lemma RestingIsSettled(st: State, d: Departure)
    requires PastInv(st) && RestsOn(st.past, d)
    ensures Settled(st, d)
  {
    match d
    case ByCleanup(w, c, a) =>
      var v :| v in st.past && v.row == a.row;
      assert StillHolds(st.rows, v);
    case ByCallback(w, subject, _, _, clock) =>
      if subject.deferred {
        var v :| v in st.past && v.row.order == w.order && Bears(subject, v.full, clock);
        assert StillHolds(st.rows, v);
        if !D.LeaseHeld(v.full, clock) { BearingHasBegun(subject, v, clock); }
      }
    case ByConvergence(w, subject, _) =>
      var v :| v in st.past && v.row.order == w.order && ProvedTerminal(subject, v.full);
      assert StillHolds(st.rows, v);
  }

  lemma BearingHasBegun(subject: D.Subject, v: Durable, clock: D.Clock)
    requires v.full.status == Some(v.row.status) && Bears(subject, v.full, clock) && !D.LeaseHeld(v.full, clock)
    ensures Begun(v.row.status)
  {
  }

  // ---- Every departure rests on something ----

  /** A claim that removed a deferred watcher was borne out by a row that was really read. */
  lemma AcceptedCallbackRests(past: set<Durable>, w: Watcher, subject: D.Subject, claim: D.Disposition, seen: Reads,
      clock: D.Clock)
    requires D.TriggerFate(subject, claim, seen.probe, seen.fallback, seen.recheck, clock).Removed?
    requires WasRead(past, w.order, seen.probe) && WasRead(past, w.order, seen.fallback)
    ensures RestsOn(past, ByCallback(w, subject, claim, seen, clock))
  {
    if subject.deferred {
      D.ClaimsAreNeverProof(subject, claim, seen.probe, seen.fallback, seen.recheck, clock);
      if subject.id.Known? && D.Probe(subject, seen.probe).TerminalDurable? {
        D.ProbeProvesExactTerminal(subject, seen.probe, D.Probe(subject, seen.probe).reason);
        ReadBears(past, w, subject, seen.probe, clock);
      } else if subject.id.Known? {
        ReadBears(past, w, subject, seen.probe, clock);
      } else {
        ReadBears(past, w, subject, seen.fallback, clock);
      }
    }
  }

  /** Convergence removes only on the exact terminal proof. */
  lemma ConvergenceRests(past: set<Durable>, w: Watcher, subject: D.Subject, read: D.Read)
    requires D.ConvergeFate(subject, read).Removed? && WasRead(past, w.order, read)
    ensures RestsOn(past, ByConvergence(w, subject, read))
  {
    D.ProbeProvesExactTerminal(subject, read, D.Probe(subject, read).reason);
    var v :| v in past && v.row.order == w.order && v.full == read.row;
    assert ProvedTerminal(subject, v.full);
  }

  lemma ReadBears(past: set<Durable>, w: Watcher, subject: D.Subject, read: D.Read, clock: D.Clock)
    requires read.Found? && WasRead(past, w.order, read) && Bears(subject, read.row, clock)
    ensures exists v :: v in past && v.row.order == w.order && Bears(subject, v.full, clock)
  {
    var v :| v in past && v.row.order == w.order && v.full == read.row;
  }

  /** The cleanup departures of one event rest on its answer. */
  lemma LeavingRests(st: State, e: Event, w: Watcher, d: Departure)
    requires TruthfulEvent(st, e) && w in st.reg.pending && Names(e) && w.id == e.id
    requires OnWatcher(st, e, w).gone == st.gone + [d]
    ensures RestsOn(st.past, d)
  {
    match e
    case Decided(_, outcome, revived, c, a, t, now) =>
      var ended := w.(state := outcome);
      LeavingIsProven(t, Changed(st, ended).reg, ended, revived, false, c, a, now);
      SameLast(st.gone, d, ByCleanup(ended, c, a));
    case Converged(_, subject, read) =>
      ConvergenceRests(st.past, w, subject, read);
      SameLast(st.gone, d, ByConvergence(w, subject, read));
    case CallbackDone(_, subject, claim, seen, clock) =>
      AcceptedCallbackRests(st.past, w, subject, claim, seen, clock);
      SameLast(st.gone, d, ByCallback(w, subject, claim, seen, clock));
    case CallbackRaised(_, written, a, t, now) =>
      LeavingIsProven(t, st.reg, w, false, written, Untyped, a, now);
      SameLast(st.gone, d, ByCleanup(w, ExhaustionClaim(w), a));
    case Dispatch(_, c, a, t, now) =>
      LeavingIsProven(t, st.reg, w, false, false, c, a, now);
      SameLast(st.gone, d, ByCleanup(w, c, a));
    case RetryCleanup(_, revived, c, a, t, now) =>
      LeavingIsProven(t, st.reg, w, revived, false, c, a, now);
      SameLast(st.gone, d, ByCleanup(w, c, a));
    case _ => assert false;
  }

  lemma SameLast(gone: seq<Departure>, d: Departure, u: Departure)
    ensures gone + [d] == gone + [u] ==> d == u
    ensures gone + [d] != gone
  {
    assert (gone + [d])[|gone|] == d && (gone + [u])[|gone|] == u;
  }

  /** An event about one watcher adds at most one departure and touches no row. */
  lemma OneDeparture(st: State, e: Event, w: Watcher)
    requires Names(e)
    ensures var s := OnWatcher(st, e, w);
            s.rows == st.rows && s.past == st.past && (s.gone == st.gone || exists d :: s.gone == st.gone + [d])
  {
  }

  lemma NextKeepsOwners(st: State, e: Event)
    requires OwnerInv(st) && TruthfulEvent(st, e)
    ensures OwnerInv(Next(st, e))
  {
    if Names(e) {
      var w := Get(st.reg.pending, e.id);
      if w.Some? {
        OneDeparture(st, e, w.value);
        if OnWatcher(st, e, w.value).gone != st.gone {
          var d :| OnWatcher(st, e, w.value).gone == st.gone + [d];
          LeavingRests(st, e, w.value, d);
        }
      }
    } else if e.RowMoves? && LegalMove(st.rows, e.row) {
      RowMovesKeepsPast(st, e.row);
      forall d | d in st.gone ensures RestsOn(st.past + {e.row}, d) {
        RestsOnMore(st.past, e.row, d);
      }
    }
  }

  lemma {:induction false} RunKeepsOwners(st: State, es: seq<Event>)
    requires Start(st) && TruthfulRun(st, es)
    ensures OwnerInv(Run(st, es))
  {
    if |es| > 0 {
      RunKeepsOwners(st, es[..|es| - 1]);
      NextKeepsOwners(Run(st, es[..|es| - 1]), es[|es| - 1]);
    }
  }

  /** No ownerless row: whatever callbacks return and however stale the reads are, every departure
      rests on a value its own row really had.  By cleanup: the answered row matched order, client and
      mode, was closed and unowned and stored the claimed reason, and the row is closed for good.  By
      convergence before a dispatch: the row was terminal for that exact identity, and is closed for
      good.  By an accepted trigger callback of a deferred order: the row was terminal for that exact identity,
      the broker's, or leased; and unless it was leased it is past its trigger for good. */
  lemma NoOwnerlessRow(st: State, es: seq<Event>)
    requires Start(st) && TruthfulRun(st, es)
    ensures forall d :: d in Run(st, es).gone ==> RestsOn(Run(st, es).past, d) && Settled(Run(st, es), d)
  {
    RunKeepsOwners(st, es);
    forall d | d in Run(st, es).gone ensures Settled(Run(st, es), d) {
      RestingIsSettled(Run(st, es), d);
    }
  }
}
