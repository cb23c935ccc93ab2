/**
 What a trigger callback may claim about a deferred order, and what the re-read order row must
 show before the claim removes the watcher.
 */
module DeferredClaims {
  import opened Common
  import opened Texts
  import opened Identity
  import Completion

  // ---- The order row ----

  /** The fields that betray a handoff to the broker; the row, its meta and the nested
      materialization record each carry a set. */
  datatype Surface = Surface(
    brokerReady: Field, intentAt: Field, submitKey: Field, payloadHash: Field, intentOwner: Field, recoveryOwner: Field)

  datatype Lifecycle = RetryWaiting | Materializing | OtherLifecycle

  /** `reasons` are the five canonical reason keys in the order the source lists them;
      `retryPending` is the materialization status RETRY_PENDING.  Where the source falls back
      to a second key (retry time, owner, token, generation, lease), the field is the one it picks. */
  datatype Meta = Meta(
    ids: Record, surface: Surface, materialization: Option<Surface>, reasons: seq<Field>, legacyReason: Field,
    lifecycle: Lifecycle, retryPending: bool, nextRetry: Field, retryAttempt: Field, retryLimit: Field,
    owner: Field, token: Field, generation: Field, leaseUntil: Field)

  /** `Garbled` is a text or value that does not hold a record; `empty` when it is falsy. */
  datatype MetaShape = NoMeta | Unparsable | Garbled(empty: bool) | Readable(meta: Meta)

  datatype Kind = NoKind | Entry | OtherKind

  /** `status` is the status the text names in any letter case, and `padded` whether blanks
      surround it. */
  datatype Row = Row(
    ids: Record, kind: Kind, status: Option<Completion.Status>, padded: bool,
    brokerOrder: Field, submittedAt: Field, lastError: Field,
    surface: Surface, meta: MetaShape)

  /** A row read: no reader, an exception and a result that is no row are all unreadable. */
  datatype Read = Unreadable | Found(row: Row)

  const BARE := Surface(Missing, Missing, Missing, Missing, Missing, Missing)
  const EMPTY_META := Meta(map[], BARE, None, [], Missing, OtherLifecycle, false, Missing, Missing, Missing,
      Missing, Missing, Missing, Missing)

  function MetaOf(r: Row): Meta {
    if r.meta.Readable? then r.meta.meta else EMPTY_META
  }

  // ---- Identities ----

  /** The present values under some names, normalised. */
  function Listed(r: Record, names: seq<Key>, lower: bool): seq<string> {
    if |names| == 0 then []
    else
      var rest := Listed(r, names[1..], lower);
      if Present(Get(r, names[0])) then [Normal(Shown(Get(r, names[0])), lower)] + rest else rest
  }

  datatype WatcherId = Unproven | Known(order: string, client: string, mode: string, signal: string, canonical: string)

  function One(values: seq<string>): string {
    if |values| == 0 then "" else values[0]
  }

  /** The identity a signal and its metadata agree on. */
  function IdOf(signal: Record, meta: Record): WatcherId {
    var order := Listed(signal, ORDER, false) + Listed(meta, ORDER, false);
    var client := Listed(signal, CLIENT, true) + Listed(meta, CLIENT, true);
    var mode := Listed(signal, MODE, true) + Listed(meta, MODE, true);
    var id := Listed(signal, SIGNAL, false) + Listed(meta, SIGNAL, false);
    var canonical := Listed(signal, CANONICAL, false) + Listed(meta, CANONICAL, false);
    if !Agreeing(order) || !Agreeing(client) || !Agreeing(mode) || !Agreeing(id) || !Agreeing(canonical) then Unproven
    else if One(order) == "" || One(client) == "" || One(mode) !in {"live", "paper"} || One(id) == "" then Unproven
    else Known(One(order), One(client), One(mode), One(id),
               if One(canonical) != "" then One(canonical) else Strip(One(id)))
  }

  /** A triggered watcher: whether its order is deferred, its identity, and whether the signal
      itself names an order. */
  datatype Subject = Subject(deferred: bool, id: WatcherId, hasOrder: bool)

  function SubjectOf(deferred: bool, signal: Record, meta: Record): Subject {
    Subject(deferred, IdOf(signal, meta), Trim(OrBlank(Get(signal, LocalOrderId))) != "")
  }

  datatype Match = Matched | NoValue | Mismatch

  function Spoken(r: Row, names: seq<Key>, lower: bool): seq<string> {
    Listed(r.ids, names, lower) + Listed(MetaOf(r).ids, names, lower)
  }

  function MatchGroup(values: seq<string>, expected: string): Match {
    if |values| == 0 then NoValue
    else if !Agreeing(values) || values[0] != expected then Mismatch
    else Matched
  }

  /** The first identity field that does not match decides. */
  function MatchRow(id: WatcherId, r: Row): Match
    requires id.Known?
  {
    var order := MatchGroup(Spoken(r, ORDER, false), id.order);
    var client := MatchGroup(Spoken(r, CLIENT, true), id.client);
    var mode := MatchGroup(Spoken(r, MODE, true), id.mode);
    if !order.Matched? then order else if !client.Matched? then client else if !mode.Matched? then mode
    else MatchGroup(Spoken(r, SIGNAL, false), id.signal)
  }

  predicate SaysFalse(f: Field) {
    (f.Flag? && !f.b) || (f.Text? && Lower(Trim(f.s)) == "false")
  }

  predicate HandedOver(s: Surface) {
    || (Present(s.brokerReady) && !SaysFalse(s.brokerReady))
    || Present(s.intentAt) || Present(s.submitKey) || Present(s.payloadHash) || Present(s.intentOwner)
        || Present(s.recoveryOwner)
  }

  predicate BrokerHandoff(r: Row) {
    var m := MetaOf(r);
    || Present(r.brokerOrder) || Present(r.submittedAt)
    || HandedOver(r.surface) || HandedOver(m.surface)
        || (m.materialization.Some? && HandedOver(m.materialization.value))
  }

  // ---- Terminal reasons ----

  predicate Malformed(f: Field) {
    Present(f) && !f.Text?
  }

  /** A reason text; the trigger audit's own marker is none. */
  predicate IsReason(f: Field) {
    f.Text? && Trim(f.s) != "" && Lower(Trim(f.s)) != "trigger_ready"
  }

  function Reasons(fields: seq<Field>): seq<string> {
    if |fields| == 0 then []
    else
      var rest := Reasons(fields[1..]);
      if IsReason(fields[0]) then [Trim(fields[0].s)] + rest else rest
  }

  function ReasonFields(r: Row): seq<Field> {
    [r.lastError] + MetaOf(r).reasons
  }

  // ---- The shared terminal probe ----

  predicate Closed(s: Option<Completion.Status>) {
    s.Some? && Completion.IsClosed(s.value)
  }

  /** The claim verifiers below do not trim the status text, the probe does. */
  function ClaimStatus(r: Row): Option<Completion.Status> {
    if r.padded then None else r.status
  }

  datatype Truth = TerminalDurable(reason: string) | NotTerminal | Hold(handoff: bool) | NoAnswer

  function ReasonTruth(r: Row): Truth {
    var canonical := Reasons(ReasonFields(r));
    if exists f :: f in ReasonFields(r) && Malformed(f) then Hold(false)
    else if !Agreeing(canonical) then Hold(false)
    else if |canonical| > 0 then TerminalDurable(canonical[0])
    else if IsReason(MetaOf(r).legacyReason) then TerminalDurable(Trim(MetaOf(r).legacyReason.s))
    else Hold(false)
  }

  function RowTruth(id: WatcherId, r: Row): Truth
    requires id.Known?
  {
    var identity := MatchRow(id, r);
    var canonical := Spoken(r, CANONICAL, false);
    if r.meta.Unparsable? || r.meta.Garbled? then Hold(false)
    else if identity.Mismatch? then Hold(false)
    else if MatchGroup(canonical, id.canonical).Mismatch? then Hold(false)
    else if r.kind.OtherKind? then Hold(false)
    else if !Closed(r.status) then
      if r.status == Some(Completion.PendingTrigger) && BrokerHandoff(r) then Hold(true) else NotTerminal
    else if identity.NoValue? then Hold(false)
    else if BrokerHandoff(r) then Hold(true)
    else ReasonTruth(r)
  }

  function Probe(w: Subject, read: Read): (t: Truth)
    ensures w.id.Unproven? ==> t == Hold(false)
    ensures t.TerminalDurable? || t.NotTerminal? ==> read.Found?
    ensures t.TerminalDurable? ==> Closed(read.row.status)
    ensures t.NotTerminal? ==> !Closed(read.row.status)
  {
    if w.id.Unproven? then Hold(false)
    else if read.Unreadable? then NoAnswer
    else RowTruth(w.id, read.row)
  }

  // ---- Verifying a claim ----

  /** A callback's claim, or the resolver's verdict; `Unknown` is no recognisable claim, and
      as a verdict raises like any other callback failure. */
  datatype Disposition = RetryWait | KeepWatcher | TerminalClaim | Submitted | OwnershipTransferred
      | ReconcileIntent | Unknown

  /** The wall clock, and the instants that well-formed timestamps denote. */
  datatype Clock = Clock(now: int, instants: map<string, int>)

  predicate SubmittedFamily(r: Row) {
    var s := ClaimStatus(r);
    s.Some? && (s.value.Submitted? || s.value.Acknowledged? || s.value.PartialFill? || s.value.Filled?)
  }

  predicate HasBrokerOrder(r: Row) {
    Trim(OrBlank(r.brokerOrder)) != ""
  }

  function VerifySubmitted(r: Row): Disposition {
    if !SubmittedFamily(r) then KeepWatcher
    else if HasBrokerOrder(r) then Submitted
    else if Truthy(MetaOf(r).surface.intentAt) then ReconcileIntent
    else KeepWatcher
  }

  function VerifyTerminal(r: Row): Disposition {
    if Closed(ClaimStatus(r)) && (exists f :: f in ReasonFields(r) + [MetaOf(r).legacyReason] && IsReason(f))
        then TerminalClaim
    else KeepWatcher
  }

  function VerifyRetry(r: Row): Disposition {
    var m, s := MetaOf(r), ClaimStatus(r);
    if (s != Some(Completion.PendingTrigger) && s != Some(Completion.Created))
       || !m.lifecycle.RetryWaiting? || !m.retryPending
       || !Truthy(m.nextRetry) || m.retryAttempt.Missing? || m.retryLimit.Missing?
       || m.surface.brokerReady == Flag(true) || HasBrokerOrder(r) || !r.submittedAt.Missing?
    then KeepWatcher else RetryWait
  }

  /** An ownership lease that names owner, token and generation and has not run out. */
  predicate LeaseHeld(r: Row, clock: Clock) {
    var m := MetaOf(r);
    && Trim(OrBlank(m.owner)) != "" && Trim(OrBlank(m.token)) != "" && !m.generation.Missing?
    && Truthy(m.leaseUntil) && Shown(m.leaseUntil) in clock.instants && clock.instants[Shown(m.leaseUntil)] > clock.now
  }

  function VerifyClaim(claim: Disposition, r: Row, clock: Clock): Disposition {
    match claim
    case Submitted => VerifySubmitted(r)
    case TerminalClaim => VerifyTerminal(r)
    case RetryWait => VerifyRetry(r)
    case OwnershipTransferred => if LeaseHeld(r, clock) then OwnershipTransferred else KeepWatcher
    case KeepWatcher => KeepWatcher
    case ReconcileIntent => if Truthy(MetaOf(r).surface.intentAt) then ReconcileIntent else KeepWatcher
    case Unknown => Infer(r)
  }

  /** Without a claim the row alone decides. */
  function Infer(r: Row): Disposition {
    var m := MetaOf(r);
    if VerifySubmitted(r) != KeepWatcher then VerifySubmitted(r)
    else if VerifyTerminal(r).TerminalClaim? then TerminalClaim
    else if m.lifecycle.RetryWaiting? && Truthy(m.nextRetry) then RetryWait
    else if m.lifecycle.Materializing? then KeepWatcher
    else Unknown
  }

  predicate Crashes(r: Row) {
    r.meta.Garbled? && !r.meta.empty
  }

  /** The verdict once the terminal probe has spoken; `probe` is the probe's own read and
      `fallback` the one made when the probe had no row. */
  function Verdict(w: Subject, claim: Disposition, truth: Truth, probe: Read, fallback: Read, clock: Clock): Disposition
    requires truth.NotTerminal? ==> probe.Found?
  {
    if truth.TerminalDurable? then TerminalClaim
    else if w.id.Known? then
      match truth
      case Hold(handoff) => if handoff then ReconcileIntent else KeepWatcher
      case NotTerminal => VerifyClaim(claim, probe.row, clock)
      case _ => Unknown
    else if !w.hasOrder || fallback.Unreadable? || Crashes(fallback.row) then Unknown
    else VerifyClaim(claim, fallback.row, clock)
  }

  function Resolved(w: Subject, claim: Disposition, probe: Read, fallback: Read, clock: Clock): Disposition {
    if w.deferred then Verdict(w, claim, Probe(w, probe), probe, fallback, clock)
    else if claim.Unknown? then OwnershipTransferred
    else claim
  }

  datatype Fate = Removed | Retained | Failed

  function FateOf(w: Subject, verdict: Disposition, proved: bool): Fate {
    match verdict
    case Submitted => Removed
    case OwnershipTransferred => Removed
    case TerminalClaim => if w.deferred && !proved then Retained else Removed
    case Unknown => Failed
    case _ => Retained
  }

  /** What the poll loop does with the watcher; a terminal verdict is proved once more at removal. */
  function TriggerFate(w: Subject, claim: Disposition, probe: Read, fallback: Read, recheck: Read, clock: Clock): Fate {
    FateOf(w, Resolved(w, claim, probe, fallback, clock), Probe(w, recheck).TerminalDurable?)
  }

  /** Before any dispatch: a trigger of a deferred order whose row is proved terminal leaves,
      an unclear one is held back, the rest go on. */
  function ConvergeFate(w: Subject, read: Read): Fate {
    if !w.deferred then Retained
    else
      match Probe(w, read)
      case TerminalDurable(_) => Removed
      case NotTerminal => Retained
      case _ => Failed
  }

  // ---- What proves a terminal row, said without the probe ----

  ghost predicate EverySays(r: Record, names: seq<Key>, lower: bool, expected: string) {
    forall k :: k in names && Present(Get(r, k)) ==> Normal(Shown(Get(r, k)), lower) == expected
  }

  ghost predicate SomeSays(r: Record, names: seq<Key>) {
    exists k :: k in names && Present(Get(r, k))
  }

  ghost predicate Unanimous(r: Row, names: seq<Key>, lower: bool, expected: string) {
    EverySays(r.ids, names, lower, expected) && EverySays(MetaOf(r).ids, names, lower, expected)
  }

  ghost predicate Confirmed(r: Row, names: seq<Key>, lower: bool, expected: string) {
    Unanimous(r, names, lower, expected) && (SomeSays(r.ids, names) || SomeSays(MetaOf(r).ids, names))
  }

  ghost predicate ExactIdentity(id: WatcherId, r: Row)
    requires id.Known?
  {
    && Confirmed(r, ORDER, false, id.order) && Confirmed(r, CLIENT, true, id.client)
    && Confirmed(r, MODE, true, id.mode) && Confirmed(r, SIGNAL, false, id.signal)
    && Unanimous(r, CANONICAL, false, id.canonical)
  }

  /** Every reason the canonical fields give is `reason`; the legacy field speaks only when they do not. */
  ghost predicate OneReason(r: Row, reason: string) {
    var fields := [r.lastError] + (if r.meta.Readable? then r.meta.meta.reasons else []);
    && (forall f :: f in fields ==>
          f.Missing? || (f.Text? && (Trim(f.s) in {"", reason} || Lower(Trim(f.s)) == "trigger_ready")))
    && ((exists f :: f in fields && Gives(f, reason)) || (r.meta.Readable? && Gives(r.meta.meta.legacyReason, reason)))
  }

  /** A text that names this reason; the trigger audit's own marker names none. */
  ghost predicate Gives(f: Field, reason: string) {
    f.Text? && Trim(f.s) == reason && reason != "" && Lower(reason) != "trigger_ready"
  }

  /** A surface says nothing, or that the broker is not ready. */
  ghost predicate Quiet(s: Surface) {
    && (forall f :: f in [s.intentAt, s.submitKey, s.payloadHash, s.intentOwner, s.recoveryOwner] ==>
          f.Missing? || (f.Text? && Trim(f.s) == ""))
    && match s.brokerReady
       case Missing => true
       case Flag(b) => !b
       case Text(t) => Trim(t) == "" || Lower(Trim(t)) == "false"
       case Other(_, _) => false
  }

  /** No trace of the broker anywhere: neither in the order's own fields nor on any surface. */
  ghost predicate Untouched(r: Row) {
    && (forall f :: f in [r.brokerOrder, r.submittedAt] ==> f.Missing? || (f.Text? && Trim(f.s) == ""))
    && Quiet(r.surface)
    && (r.meta.Readable? ==>
          Quiet(r.meta.meta.surface)
          && (r.meta.meta.materialization.Some? ==> Quiet(r.meta.meta.materialization.value)))
  }

  lemma UntouchedIff(r: Row)
    ensures Untouched(r) <==> !BrokerHandoff(r)
  {
    QuietIff(r.surface);
    QuietIff(MetaOf(r).surface);
    if MetaOf(r).materialization.Some? { QuietIff(MetaOf(r).materialization.value); }
    assert r.brokerOrder in [r.brokerOrder, r.submittedAt] && r.submittedAt in [r.brokerOrder, r.submittedAt];
  }

  lemma QuietIff(s: Surface)
    ensures Quiet(s) <==> !HandedOver(s)
  {
    var fs := [s.intentAt, s.submitKey, s.payloadHash, s.intentOwner, s.recoveryOwner];
    assert fs[0] in fs && fs[1] in fs && fs[2] in fs && fs[3] in fs && fs[4] in fs;
  }

  ghost predicate ExactTerminal(id: WatcherId, r: Row, reason: string)
    requires id.Known?
  {
    && (r.meta.NoMeta? || r.meta.Readable?) && ExactIdentity(id, r) && !r.kind.OtherKind?
    && (r.status == Some(Completion.Rejected) || r.status == Some(Completion.Canceled)
        || r.status == Some(Completion.RowExpired) || r.status == Some(Completion.Error))
    && Untouched(r) && OneReason(r, reason)
  }

  lemma {:induction false} ListedIsPresent(r: Record, names: seq<Key>, lower: bool, v: string)
    ensures v in Listed(r, names, lower)
        <==> exists k :: k in names && Present(Get(r, k)) && Normal(Shown(Get(r, k)), lower) == v
  {
    if |names| > 0 {
      ListedIsPresent(r, names[1..], lower, v);
      assert forall k :: k in names <==> k == names[0] || k in names[1..];
    }
  }

  lemma {:induction false} ListedIsEmpty(r: Record, names: seq<Key>, lower: bool)
    ensures |Listed(r, names, lower)| == 0 <==> !SomeSays(r, names)
  {
    if |names| > 0 {
      ListedIsEmpty(r, names[1..], lower);
      assert forall k :: k in names <==> k == names[0] || k in names[1..];
    }
  }

  ghost predicate AllAre(values: seq<string>, expected: string) {
    forall v :: v in values ==> v == expected
  }

  lemma EveryIsListed(r: Record, names: seq<Key>, lower: bool, expected: string)
    ensures EverySays(r, names, lower, expected) <==> AllAre(Listed(r, names, lower), expected)
  {
    var listed := Listed(r, names, lower);
    if EverySays(r, names, lower, expected) {
      forall v | v in listed ensures v == expected {
        ListedIsPresent(r, names, lower, v);
      }
    }
    if AllAre(listed, expected) {
      forall k | k in names && Present(Get(r, k)) ensures Normal(Shown(Get(r, k)), lower) == expected {
        ListedIsPresent(r, names, lower, Normal(Shown(Get(r, k)), lower));
      }
    }
  }

  /** `v` is what every source says that speaks under these names, and some source does. */
  ghost predicate SpokenFor(signal: Record, meta: Record, names: seq<Key>, lower: bool, v: string) {
    && EverySays(signal, names, lower, v) && EverySays(meta, names, lower, v)
    && (SomeSays(signal, names) || SomeSays(meta, names))
  }

  lemma AgreementSpeaks(signal: Record, meta: Record, names: seq<Key>, lower: bool)
    requires var values := Listed(signal, names, lower) + Listed(meta, names, lower); Agreeing(values) && |values| > 0
    ensures SpokenFor(signal, meta, names, lower, One(Listed(signal, names, lower) + Listed(meta, names, lower)))
  {
    var here, there := Listed(signal, names, lower), Listed(meta, names, lower);
    var v := One(here + there);
    assert AllAre(here, v) by {
      forall x | x in here ensures x == v { assert x in here + there; }
    }
    assert AllAre(there, v) by {
      forall x | x in there ensures x == v { assert x in here + there; }
    }
    EveryIsListed(signal, names, lower, v);
    EveryIsListed(meta, names, lower, v);
    ListedIsEmpty(signal, names, lower);
    ListedIsEmpty(meta, names, lower);
  }

  /** A subject's identity is what all its sources say, wherever in the signal or its metadata; only
      the canonical id may be derived, from the signal id. */
  lemma SubjectSpeaksForItsSources(deferred: bool, signal: Record, meta: Record)
    requires SubjectOf(deferred, signal, meta).id.Known?
    ensures var id := SubjectOf(deferred, signal, meta).id;
            && SpokenFor(signal, meta, ORDER, false, id.order) && SpokenFor(signal, meta, CLIENT, true, id.client)
            && SpokenFor(signal, meta, MODE, true, id.mode) && SpokenFor(signal, meta, SIGNAL, false, id.signal)
            && (SpokenFor(signal, meta, CANONICAL, false, id.canonical) || id.canonical == Strip(id.signal))
  {
    AgreementSpeaks(signal, meta, ORDER, false);
    AgreementSpeaks(signal, meta, CLIENT, true);
    AgreementSpeaks(signal, meta, MODE, true);
    AgreementSpeaks(signal, meta, SIGNAL, false);
    if |Listed(signal, CANONICAL, false) + Listed(meta, CANONICAL, false)| > 0 {
      AgreementSpeaks(signal, meta, CANONICAL, false);
    }
  }

  lemma GroupIsUnanimous(r: Row, names: seq<Key>, lower: bool, expected: string)
    ensures MatchGroup(Spoken(r, names, lower), expected).Matched? <==> Confirmed(r, names, lower, expected)
    ensures MatchGroup(Spoken(r, names, lower), expected).Mismatch? <==> !Unanimous(r, names, lower, expected)
  {
    var here, there := Listed(r.ids, names, lower), Listed(MetaOf(r).ids, names, lower);
    EveryIsListed(r.ids, names, lower, expected);
    EveryIsListed(MetaOf(r).ids, names, lower, expected);
    ListedIsEmpty(r.ids, names, lower);
    ListedIsEmpty(MetaOf(r).ids, names, lower);
    assert forall v :: v in here + there <==> v in here || v in there;
    if |here + there| > 0 {
      assert (here + there)[0] in here + there;
    }
  }

  lemma {:induction false} ReasonsAreListed(fields: seq<Field>, v: string)
    ensures v in Reasons(fields) <==> exists f :: f in fields && IsReason(f) && Trim(f.s) == v
  {
    if |fields| > 0 {
      ReasonsAreListed(fields[1..], v);
      assert forall f :: f in fields <==> f == fields[0] || f in fields[1..];
    }
  }

  lemma ReasonTruthIs(r: Row, reason: string)
    ensures ReasonTruth(r) == TerminalDurable(reason) <==>
              && (forall f :: f in ReasonFields(r) ==> !Malformed(f) && (IsReason(f) ==> Trim(f.s) == reason))
              && ((exists f :: f in ReasonFields(r) && IsReason(f))
                  || (IsReason(MetaOf(r).legacyReason) && Trim(MetaOf(r).legacyReason.s) == reason))
  {
    var fields := ReasonFields(r);
    forall v ensures v in Reasons(fields) <==> exists f :: f in fields && IsReason(f) && Trim(f.s) == v {
      ReasonsAreListed(fields, v);
    }
    if |Reasons(fields)| > 0 {
      assert Reasons(fields)[0] in Reasons(fields);
    }
    forall f | f in fields && IsReason(f) ensures Trim(f.s) in Reasons(fields) {
    }
  }

  lemma FieldSays(f: Field, reason: string)
    ensures Gives(f, reason) <==> IsReason(f) && Trim(f.s) == reason
    ensures (exists g :: Gives(g, reason)) ==>
              (!Malformed(f) && (IsReason(f) ==> Trim(f.s) == reason) <==>
                f.Missing? || (f.Text? && (Trim(f.s) in {"", reason} || Lower(Trim(f.s)) == "trigger_ready")))
  {
  }

  lemma ReasonTruthIsOne(r: Row, reason: string)
    ensures ReasonTruth(r) == TerminalDurable(reason) <==> OneReason(r, reason)
  {
    ReasonTruthIs(r, reason);
    var fields, legacy := ReasonFields(r), MetaOf(r).legacyReason;
    assert fields == [r.lastError] + (if r.meta.Readable? then r.meta.meta.reasons else []);
    FieldSays(legacy, reason);
    forall f | f in fields ensures Gives(f, reason) <==> IsReason(f) && Trim(f.s) == reason {
      FieldSays(f, reason);
    }
    if exists g :: Gives(g, reason) {
      forall f | f in fields
        ensures !Malformed(f) && (IsReason(f) ==> Trim(f.s) == reason) <==>
                  f.Missing? || (f.Text? && (Trim(f.s) in {"", reason} || Lower(Trim(f.s)) == "trigger_ready"))
      {
        FieldSays(f, reason);
      }
    }
  }

  lemma RowIsExactTerminal(id: WatcherId, r: Row, reason: string)
    requires id.Known?
    ensures RowTruth(id, r) == TerminalDurable(reason) <==>
              && (r.meta.NoMeta? || r.meta.Readable?) && MatchRow(id, r).Matched?
              && !MatchGroup(Spoken(r, CANONICAL, false), id.canonical).Mismatch? && !r.kind.OtherKind?
              && Closed(r.status) && !BrokerHandoff(r) && ReasonTruth(r) == TerminalDurable(reason)
  {
  }

  lemma IdentityIsMatched(id: WatcherId, r: Row)
    requires id.Known?
    ensures ExactIdentity(id, r) <==>
              MatchRow(id, r).Matched? && !MatchGroup(Spoken(r, CANONICAL, false), id.canonical).Mismatch?
  {
    GroupIsUnanimous(r, ORDER, false, id.order);
    GroupIsUnanimous(r, CLIENT, true, id.client);
    GroupIsUnanimous(r, MODE, true, id.mode);
    GroupIsUnanimous(r, SIGNAL, false, id.signal);
    GroupIsUnanimous(r, CANONICAL, false, id.canonical);
  }

  /** The probe's one authorising answer is exactly a row with the watcher's whole identity, a
      closed status, no trace of the broker and one agreed reason. */
  lemma ProbeProvesExactTerminal(w: Subject, read: Read, reason: string)
    ensures Probe(w, read) == TerminalDurable(reason) <==>
              w.id.Known? && read.Found? && ExactTerminal(w.id, read.row, reason)
  {
    if w.id.Known? && read.Found? {
      RowIsExactTerminal(w.id, read.row, reason);
      IdentityIsMatched(w.id, read.row);
      ReasonTruthIsOne(read.row, reason);
      UntouchedIff(read.row);
    }
  }

  // ---- Claims are never proof ----

  /** A broker owns the row: submitted or beyond, with the broker's order id. */
  predicate BrokerOwns(r: Row) {
    SubmittedFamily(r) && HasBrokerOrder(r)
  }

  /** What a claim may achieve on a row that is not proved terminal. */
  predicate ClaimHolds(claim: Disposition, r: Row, clock: Clock) {
    ((claim.Submitted? || claim.Unknown?) && BrokerOwns(r)) || (claim.OwnershipTransferred? && LeaseHeld(r, clock))
  }

  lemma VerifiedClaims(claim: Disposition, r: Row, clock: Clock)
    ensures VerifyClaim(claim, r, clock).Submitted? || VerifyClaim(claim, r, clock).OwnershipTransferred?
        <==> ClaimHolds(claim, r, clock)
    ensures VerifyClaim(claim, r, clock).TerminalClaim? ==> Closed(r.status)
  {
  }

  /** The verdict alone: which truths, claims and rows let a watcher go. */
  lemma VerdictRemoves(w: Subject, claim: Disposition, truth: Truth, proved: bool, probe: Read, fallback: Read,
      clock: Clock)
    requires w.deferred && (truth.NotTerminal? ==> probe.Found? && !Closed(probe.row.status))
    requires w.id.Unproven? ==> truth == Hold(false) && !proved
    ensures FateOf(w, Verdict(w, claim, truth, probe, fallback, clock), proved).Removed? <==>
              if w.id.Known? then
                || (truth.TerminalDurable? && proved)
                || (truth.NotTerminal? && ClaimHolds(claim, probe.row, clock))
              else w.hasOrder && fallback.Found? && !Crashes(fallback.row) && ClaimHolds(claim, fallback.row, clock)
  {
    if truth.NotTerminal? { VerifiedClaims(claim, probe.row, clock); }
    if fallback.Found? { VerifiedClaims(claim, fallback.row, clock); }
  }

  /** For a deferred order, whatever the callback claims: the watcher is removed exactly when both
      reads prove the row terminal, or the row it was checked against is the broker's or is leased
      to another owner and the claim says so. */
  lemma ClaimsAreNeverProof(w: Subject, claim: Disposition, probe: Read, fallback: Read, recheck: Read, clock: Clock)
    requires w.deferred
    ensures TriggerFate(w, claim, probe, fallback, recheck, clock).Removed? <==>
              if w.id.Known? then
                || (Probe(w, probe).TerminalDurable? && Probe(w, recheck).TerminalDurable?)
                || (Probe(w, probe).NotTerminal? && ClaimHolds(claim, probe.row, clock))
              else w.hasOrder && fallback.Found? && !Crashes(fallback.row) && ClaimHolds(claim, fallback.row, clock)
  {
    VerdictRemoves(w, claim, Probe(w, probe), Probe(w, recheck).TerminalDurable?, probe, fallback, clock);
  }

  /** No ownerless row: a row still waiting for its trigger, and not leased to anyone, keeps its
      watcher against every claim, in the pre-dispatch sweep as well. */
  lemma WaitingRowKeepsItsWatcher(w: Subject, claim: Disposition, probe: Row, fallback: Row, recheck: Read,
      clock: Clock)
    requires w.deferred
    requires probe.status == Some(Completion.PendingTrigger) && !LeaseHeld(probe, clock)
    requires fallback.status == Some(Completion.PendingTrigger) && !LeaseHeld(fallback, clock)
    ensures !TriggerFate(w, claim, Found(probe), Found(fallback), recheck, clock).Removed?
    ensures !ConvergeFate(w, Found(probe)).Removed?
  {
    ClaimsAreNeverProof(w, claim, Found(probe), Found(fallback), recheck, clock);
  }

  /** Where the probe proves or withholds, the claim has no influence at all. */
  lemma ProbeOverrulesClaims(w: Subject, c: Disposition, d: Disposition, probe: Read, fallback: Read, recheck: Read,
      clock: Clock)
    requires w.deferred && w.id.Known? && !Probe(w, probe).NotTerminal?
    ensures TriggerFate(w, c, probe, fallback, recheck, clock) == TriggerFate(w, d, probe, fallback, recheck, clock)
    ensures TriggerFate(w, c, probe, fallback, recheck, clock).Removed? ==>
              exists reason :: ExactTerminal(w.id, probe.row, reason)
  {
    if Probe(w, probe).TerminalDurable? {
      ProbeProvesExactTerminal(w, probe, Probe(w, probe).reason);
    }
  }
}
