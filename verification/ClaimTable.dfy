/**
 What becomes of a triggered watcher, as a table over the fields of the row its claim is checked
 against and the clock.
 */
module ClaimTable {
  import opened Common
  import opened Texts
  import opened Identity
  import opened DeferredClaims
  import Completion

  // ---- What the row shows ----

  ghost predicate SentStatus(r: Row) {
    || r.status == Some(Completion.Submitted) || r.status == Some(Completion.Acknowledged)
    || r.status == Some(Completion.PartialFill) || r.status == Some(Completion.Filled)
  }

  ghost predicate ClosedStatus(r: Row) {
    || r.status == Some(Completion.Rejected) || r.status == Some(Completion.Canceled)
    || r.status == Some(Completion.RowExpired) || r.status == Some(Completion.Error)
  }

  /** The status text names a submitted status without blanks around it, and a broker order id is set. */
  ghost predicate AtBroker(r: Row) {
    SentStatus(r) && !r.padded && Trim(OrBlank(r.brokerOrder)) != ""
  }

  /** An owner, a token and a generation are named, and the lease ends at an instant after `now`. */
  ghost predicate LeasedAfter(m: Meta, clock: Clock) {
    && Trim(OrBlank(m.owner)) != "" && Trim(OrBlank(m.token)) != "" && m.generation != Missing
    && Truthy(m.leaseUntil) && Shown(m.leaseUntil) in clock.instants
    && clock.now < clock.instants[Shown(m.leaseUntil)]
  }

  /** Nothing in the row tells what a callback without a claim has done. */
  ghost predicate Inexplicable(r: Row) {
    var m := if r.meta.Readable? then r.meta.meta else EMPTY_META;
    && !(SentStatus(r) && !r.padded && (Trim(OrBlank(r.brokerOrder)) != "" || Truthy(m.surface.intentAt)))
    && !(m.lifecycle == RetryWaiting && Truthy(m.nextRetry)) && m.lifecycle != Materializing
  }

  // ---- The table ----

  /** A text that is neither blank nor the trigger audit's own marker. */
  ghost predicate NamesReason(f: Field) {
    f.Text? && Trim(f.s) != "" && Lower(Trim(f.s)) != "trigger_ready"
  }

  /** Some field of the row gives a reason why it is closed. */
  ghost predicate GivesReason(r: Row) {
    || NamesReason(r.lastError)
    || (r.meta.Readable?
        && (NamesReason(r.meta.meta.legacyReason) || exists f :: f in r.meta.meta.reasons && NamesReason(f)))
  }

  lemma ReasonAmong(last: Field, reasons: seq<Field>, legacy: Field)
    ensures (exists f :: f in [last] + reasons + [legacy] && IsReason(f)) <==>
              NamesReason(last) || NamesReason(legacy) || exists f :: f in reasons && NamesReason(f)
  {
    var fields := [last] + reasons + [legacy];
    assert last in fields && legacy in fields;
    if f :| f in reasons && NamesReason(f) { assert f in fields && IsReason(f); }
    if f :| f in fields && IsReason(f) { assert NamesReason(f); }
  }

  lemma ReasonsAre(r: Row)
    ensures (exists f :: f in ReasonFields(r) + [MetaOf(r).legacyReason] && IsReason(f)) <==> GivesReason(r)
  {
    ReasonAmong(r.lastError, MetaOf(r).reasons, MetaOf(r).legacyReason);
    if !r.meta.Readable? { assert MetaOf(r).reasons == [] && !NamesReason(Missing); }
  }

  lemma TerminalIsVerifiedIff(r: Row)
    ensures VerifyTerminal(r) == TerminalClaim <==> ClosedStatus(r) && !r.padded && GivesReason(r)
  {
    ReasonsAre(r);
  }

  lemma ClaimOnRow(w: Subject, claim: Disposition, r: Row, proved: bool, clock: Clock)
    requires w.deferred && (proved ==> !ClosedStatus(r))
    ensures FateOf(w, VerifyClaim(claim, r, clock), proved) ==
              if (claim == Submitted || claim == Unknown) && AtBroker(r) then Removed
              else if claim == OwnershipTransferred && r.meta.Readable? && LeasedAfter(r.meta.meta, clock) then Removed
              else if claim == Unknown && Inexplicable(r) && !(ClosedStatus(r) && !r.padded && GivesReason(r))
              then Failed
              else Retained
  {
    TerminalIsVerifiedIff(r);
  }

  /** The whole fate of a deferred order whose identity is known: two terminal proofs remove it, one
      does not; an open row lets it go only to the broker, or to the holder of a running lease that the
      callback transferred it to; what cannot be read or explained fails like a raised callback; all
      else keeps it. */
  lemma FateOfKnown(w: Subject, claim: Disposition, probe: Read, fallback: Read, recheck: Read, clock: Clock)
    requires w.deferred && w.id.Known?
    ensures TriggerFate(w, claim, probe, fallback, recheck, clock) ==
              match Probe(w, probe)
              case TerminalDurable(_) => if Probe(w, recheck).TerminalDurable? then Removed else Retained
              case NoAnswer => Failed
              case Hold(_) => Retained
              case NotTerminal =>
                if (claim == Submitted || claim == Unknown) && AtBroker(probe.row) then Removed
                else if claim == OwnershipTransferred && probe.row.meta.Readable?
                        && LeasedAfter(probe.row.meta.meta, clock) then Removed
                else if claim == Unknown && Inexplicable(probe.row) then Failed
                else Retained
  {
    if Probe(w, probe).NotTerminal? {
      ClaimOnRow(w, claim, probe.row, Probe(w, recheck).TerminalDurable?, clock);
    }
  }

  /** Transfer in time: with an owner, a token and a generation on record and a lease to the instant
      `until`, a transfer claim removes the watcher exactly before that instant. */
  lemma TransferRunsOut(
      w: Subject, probe: Row, fallback: Read, recheck: Read, instants: map<string, int>, until: int, now: int)
    requires w.deferred && w.id.Known? && Probe(w, Found(probe)).NotTerminal? && probe.meta.Readable?
    requires var m := probe.meta.meta;
             && Trim(OrBlank(m.owner)) != "" && Trim(OrBlank(m.token)) != "" && !m.generation.Missing?
             && Truthy(m.leaseUntil) && Shown(m.leaseUntil) in instants && instants[Shown(m.leaseUntil)] == until
    ensures TriggerFate(w, OwnershipTransferred, Found(probe), fallback, recheck, Clock(now, instants))
         == if now < until then Removed else Retained
  {
    FateOfKnown(w, OwnershipTransferred, Found(probe), fallback, recheck, Clock(now, instants));
  }

  /** Without a known identity there is no proof: such an order goes only to the broker or to the holder
      of a running lease, on its own row. */
  lemma FateOfUnknown(w: Subject, claim: Disposition, probe: Read, fallback: Read, recheck: Read, clock: Clock)
    requires w.deferred && w.id.Unproven?
    ensures TriggerFate(w, claim, probe, fallback, recheck, clock) ==
              if !w.hasOrder || fallback.Unreadable? || (fallback.row.meta.Garbled? && !fallback.row.meta.empty)
              then Failed
              else if (claim == Submitted || claim == Unknown) && AtBroker(fallback.row) then Removed
              else if claim == OwnershipTransferred && fallback.row.meta.Readable?
                      && LeasedAfter(fallback.row.meta.meta, clock) then Removed
              else if claim == Unknown && Inexplicable(fallback.row)
                      && !(ClosedStatus(fallback.row) && !fallback.row.padded && GivesReason(fallback.row))
              then Failed
              else Retained
  {
    if fallback.Found? { ClaimOnRow(w, claim, fallback.row, false, clock); }
  }

  /** Orders that are not deferred: the callback's word counts, and no word means done. */
  lemma FateOfOrdinary(w: Subject, claim: Disposition, probe: Read, fallback: Read, recheck: Read, clock: Clock)
    requires !w.deferred
    ensures TriggerFate(w, claim, probe, fallback, recheck, clock) ==
              if claim == RetryWait || claim == KeepWatcher || claim == ReconcileIntent then Retained else Removed
    ensures ConvergeFate(w, probe) == Retained
  {
  }

  // ---- What the probe lets through ----

  ghost predicate Silent(r: Row, names: seq<Key>) {
    !SomeSays(r.ids, names) && (r.meta.Readable? ==> !SomeSays(r.meta.meta.ids, names))
  }

  /** The identity fields in order agree up to the first the row is silent on. */
  ghost predicate AgreesAsFarAsItSpeaks(id: WatcherId, r: Row)
    requires id.Known?
  {
    || Silent(r, [LocalOrderId])
    || (Confirmed(r, [LocalOrderId], false, id.order)
        && (|| Silent(r, [ClientId, ClientEmail])
            || (Confirmed(r, [ClientId, ClientEmail], true, id.client)
                && (|| Silent(r, [ExecutionMode])
                    || (Confirmed(r, [ExecutionMode], true, id.mode)
                        && (Silent(r, [SignalId]) || Confirmed(r, [SignalId], false, id.signal)))))))
  }

  lemma GroupIsSilent(r: Row, names: seq<Key>, lower: bool, expected: string)
    ensures MatchGroup(Spoken(r, names, lower), expected).NoValue? <==> Silent(r, names)
  {
    ListedIsEmpty(r.ids, names, lower);
    ListedIsEmpty(MetaOf(r).ids, names, lower);
  }

  /** An open row the claims are checked against: of this order as far as it speaks, with readable
      metadata, an entry, in no closed status, and if it still waits for its trigger, untouched. */
  lemma OpenRowIff(w: Subject, read: Read)
    ensures Probe(w, read).NotTerminal? <==>
              && w.id.Known? && read.Found? && (read.row.meta.NoMeta? || read.row.meta.Readable?)
              && AgreesAsFarAsItSpeaks(w.id, read.row)
              && Unanimous(read.row, [CanonicalSignalId], false, w.id.canonical)
              && read.row.kind != OtherKind && !ClosedStatus(read.row)
              && (read.row.status == Some(Completion.PendingTrigger) ==> Untouched(read.row))
    ensures Probe(w, read).NoAnswer? <==> w.id.Known? && read == Unreadable
  {
    if w.id.Known? && read.Found? {
      var id, r := w.id, read.row;
      UntouchedIff(r);
      GroupIsUnanimous(r, CANONICAL, false, id.canonical);
      MatchIsAgreement(id, r);
    }
  }

  /** The row is held for reconciliation with the broker exactly when it is this order's, touched by the
      broker, and either still waits for its trigger or is closed with its whole identity on record. */
  lemma ReconciledIff(w: Subject, claim: Disposition, probe: Read, fallback: Read, clock: Clock)
    requires w.deferred && w.id.Known? && !Probe(w, probe).NotTerminal?
    ensures Resolved(w, claim, probe, fallback, clock) == ReconcileIntent <==>
              && probe.Found? && (probe.row.meta.NoMeta? || probe.row.meta.Readable?)
              && AgreesAsFarAsItSpeaks(w.id, probe.row)
              && Unanimous(probe.row, [CanonicalSignalId], false, w.id.canonical)
              && probe.row.kind != OtherKind && !Untouched(probe.row)
              && (probe.row.status == Some(Completion.PendingTrigger)
                  || (ClosedStatus(probe.row) && ExactIdentity(w.id, probe.row)))
  {
    if probe.Found? {
      UntouchedIff(probe.row);
      GroupIsUnanimous(probe.row, CANONICAL, false, w.id.canonical);
      MatchIsAgreement(w.id, probe.row);
      IdentityIsMatched(w.id, probe.row);
    }
  }

  lemma MatchIsAgreement(id: WatcherId, r: Row)
    requires id.Known?
    ensures !MatchRow(id, r).Mismatch? <==> AgreesAsFarAsItSpeaks(id, r)
  {
    GroupIsUnanimous(r, ORDER, false, id.order);
    GroupIsUnanimous(r, CLIENT, true, id.client);
    GroupIsUnanimous(r, MODE, true, id.mode);
    GroupIsUnanimous(r, SIGNAL, false, id.signal);
    GroupIsSilent(r, ORDER, false, id.order);
    GroupIsSilent(r, CLIENT, true, id.client);
    GroupIsSilent(r, MODE, true, id.mode);
    GroupIsSilent(r, SIGNAL, false, id.signal);
  }

  /** Convergence before a dispatch: out on the exact proof, on as usual on an open row, else held. */
  lemma ConvergenceIs(w: Subject, read: Read)
    requires w.deferred
    ensures ConvergeFate(w, read).Removed? <==>
              w.id.Known? && read.Found? && exists reason :: ExactTerminal(w.id, read.row, reason)
    ensures ConvergeFate(w, read).Retained? <==> Probe(w, read).NotTerminal?
  {
    if Probe(w, read).TerminalDurable? {
      ProbeProvesExactTerminal(w, read, Probe(w, read).reason);
    }
    if w.id.Known? && read.Found? {
      if reason :| ExactTerminal(w.id, read.row, reason) { ProbeProvesExactTerminal(w, read, reason); }
    }
  }

  // ---- Retry and reconcile claims ----

  /** A retry claim is accepted as such exactly on an untransmitted row in RETRY_WAIT with its retry
      pending, a time, an attempt and a limit. */
  lemma RetryIsVerifiedIff(r: Row, clock: Clock)
    ensures VerifyClaim(RetryWait, r, clock) == RetryWait <==>
              && r.meta.Readable? && !r.padded
              && (r.status == Some(Completion.PendingTrigger) || r.status == Some(Completion.Created))
              && var m := r.meta.meta;
                 && m.lifecycle == RetryWaiting && m.retryPending && Truthy(m.nextRetry)
                 && m.retryAttempt != Missing && m.retryLimit != Missing
                 && m.surface.brokerReady != Flag(true) && Trim(OrBlank(r.brokerOrder)) == ""
                 && r.submittedAt == Missing
    ensures VerifyClaim(RetryWait, r, clock) in [RetryWait, KeepWatcher]
    ensures VerifyClaim(ReconcileIntent, r, clock) ==
              if r.meta.Readable? && Truthy(r.meta.meta.surface.intentAt) then ReconcileIntent else KeepWatcher
  {
  }

  // ---- Whose order it is ----

  /** An identity is known exactly when order, client, mode and signal are each said by some source and
      contradicted by none, the mode is live or paper, and no source contradicts another on the
      canonical id. */
  lemma KnownIff(deferred: bool, signal: Record, meta: Record)
    ensures var w := SubjectOf(deferred, signal, meta);
            && w.deferred == deferred
            && (w.hasOrder <==> Trim(OrBlank(Get(signal, LocalOrderId))) != "")
            && (w.id.Known? <==>
                  exists o, c, m, i :: o != "" && c != "" && m in {"live", "paper"} && i != ""
                    && SpokenFor(signal, meta, [LocalOrderId], false, o)
                    && SpokenFor(signal, meta, [ClientId, ClientEmail], true, c)
                    && SpokenFor(signal, meta, [ExecutionMode], true, m)
                    && SpokenFor(signal, meta, [SignalId], false, i)
                    && OneCanonical(signal, meta))
  {
    var w := SubjectOf(deferred, signal, meta);
    forall names: seq<Key>, lower: bool, v: string ensures
      SpokenFor(signal, meta, names, lower, v) <==> Says(signal, meta, names, lower, v)
    {
      SpokenIff(signal, meta, names, lower, v);
    }
    CanonicalIff(signal, meta);
    if w.id.Known? {
      assert Says(signal, meta, ORDER, false, w.id.order) && Says(signal, meta, CLIENT, true, w.id.client);
      assert Says(signal, meta, MODE, true, w.id.mode) && Says(signal, meta, SIGNAL, false, w.id.signal);
    }
  }

  ghost predicate OneCanonical(signal: Record, meta: Record) {
    exists k :: EverySays(signal, [CanonicalSignalId], false, k) && EverySays(meta, [CanonicalSignalId], false, k)
  }

  ghost predicate Says(signal: Record, meta: Record, names: seq<Key>, lower: bool, v: string) {
    var values := Listed(signal, names, lower) + Listed(meta, names, lower);
    |values| > 0 && Agreeing(values) && One(values) == v
  }

  lemma SpokenIff(signal: Record, meta: Record, names: seq<Key>, lower: bool, v: string)
    ensures SpokenFor(signal, meta, names, lower, v) <==> Says(signal, meta, names, lower, v)
  {
    var here, there := Listed(signal, names, lower), Listed(meta, names, lower);
    EveryIsListed(signal, names, lower, v);
    EveryIsListed(meta, names, lower, v);
    ListedIsEmpty(signal, names, lower);
    ListedIsEmpty(meta, names, lower);
    assert forall x :: x in here + there <==> x in here || x in there;
    if |here + there| > 0 { assert (here + there)[0] in here + there; }
  }

  lemma CanonicalIff(signal: Record, meta: Record)
    ensures OneCanonical(signal, meta) <==> Agreeing(Listed(signal, CANONICAL, false) + Listed(meta, CANONICAL, false))
  {
    var here, there := Listed(signal, CANONICAL, false), Listed(meta, CANONICAL, false);
    assert forall x :: x in here + there <==> x in here || x in there;
    if Agreeing(here + there) {
      EveryIsListed(signal, CANONICAL, false, One(here + there));
      EveryIsListed(meta, CANONICAL, false, One(here + there));
    }
    if k :| EverySays(signal, [CanonicalSignalId], false, k) && EverySays(meta, [CanonicalSignalId], false, k) {
      EveryIsListed(signal, CANONICAL, false, k);
      EveryIsListed(meta, CANONICAL, false, k);
      if |here + there| > 0 { assert (here + there)[0] in here + there; }
    }
  }
}
