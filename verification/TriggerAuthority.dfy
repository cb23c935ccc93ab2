/**
 The durable trigger authority: any number of watchers race to record one crossing on one order row
 by compare-and-set, and an answer may be lost after the write has committed.  A materialization
 claim fills a missing authority in, and a direction-reversal rearm erases it.  Each database round
 trip is one step, so the steps of different parties interleave freely.
 */
module TriggerAuthority {
  import opened Common

  /** A recorded timestamp.  It is compared as text, and its text names one instant: `form`
      stands for how that instant happens to be written (zone suffix, precision). */
  datatype Stamp = Stamp(instant: int, form: string)
  /** The four-field provenance. */
  datatype Identity = Identity(canonical: string, client: string, mode: string, order: string)

  datatype Lifecycle = Blank | RetryWait | Materializing | OtherLifecycle

  /** `unsent`: no broker order id and no submit time; `intent`: a submit intent is recorded. */
  datatype Row = Row(
    pendingTrigger: bool, unsent: bool, intent: bool, ready: bool, signalId: string, who: Identity,
    lifecycle: Lifecycle, owner: string, generation: Option<nat>,
    crossed: Option<Stamp>, provenance: Option<Identity>)

  /** Where a watcher is within one dispatch of its trigger. */
  datatype Phase =
    | Idle
    | Unanswered                                  // a new-authority write was not confirmed
    | Adopting(stamp: Stamp, prov: Identity)      // a read-back matched; its own write is due
    | Cleared(stamp: Stamp)                       // this dispatch's compare-and-set succeeded
    | Calling                                     // inside on_trigger

  datatype Watcher = Watcher(
    crossedAt: Option<int>, iso: string, signalId: string, who: Identity, generation: Option<nat>,
    persisted: bool, raw: Option<Stamp>, rawBy: Option<Identity>, started: bool, phase: Phase)

  datatype Entry =
    | Wrote(writer: Option<nat>, at: Stamp, prov: Identity)  // the row gained its authority, `None`: by a claim
    | Won(w: nat, at: Stamp)                             // a compare-and-set reported success
    | Called(w: nat, at: Stamp, own: Option<int>)        // on_trigger was entered, at its own crossing `own`
    | Erased(inPlace: Option<nat>)                       // a rearm took effect, and on which live watcher

  datatype State = State(row: Row, ws: seq<Watcher>, log: seq<Entry>)

  /** What a claim or a rearm names: the owner token, the order's ids and a generation. */
  datatype Ask = Ask(owner: string, signalId: string, client: string, mode: string, order: string, generation: nat)

  /** `reached`: the statement got to the database; `heard`: its answer came back. */
  datatype Action =
    | Cross(w: nat, at: int, iso: string)         // polls confirm a crossing
    | Attempt(w: nat, reached: bool, heard: bool)
    | ReadBack(w: nat, heard: bool)
    | Adopt(w: nat, reached: bool, heard: bool)
    | Enter(w: nat)
    | Stop(w: nat)                                // the dispatch or the callback ends
    | Claim(a: Ask, dated: Stamp, leaseOver: bool, mirrorsFit: bool)
    | Rearm(a: Ask, caller: Option<nat>, heard: bool)  // from the callback of `caller`, or from a recovery
    | Other(r: Row)

  predicate CompleteIdentity(i: Identity) {
    i.canonical != "" && i.client != "" && (i.mode == "live" || i.mode == "paper") && i.order != ""
  }

  // ---- The predicates the statements carry ----

  predicate BrokerFree(r: Row) {
    r.unsent && !r.intent && !r.ready
  }

  /** What every confirmed-trigger UPDATE asks of the row. */
  predicate RowFence(r: Row, w: Watcher) {
    && r.pendingTrigger && BrokerFree(r) && r.signalId == w.signalId && r.who == w.who
    && (w.generation.Some? ==> r.generation == w.generation)
  }

  predicate NewFence(r: Row, w: Watcher) {
    RowFence(r, w) && r.crossed.None? && r.provenance.None?
  }

  predicate ExistingFence(r: Row, w: Watcher, at: Stamp, prov: Identity) {
    RowFence(r, w) && r.crossed == Some(at) && r.provenance == Some(prov)
  }

  function Generation(r: Row): nat {
    if r.generation.Some? then r.generation.value else 0
  }

  predicate Addresses(a: Ask, r: Row) {
    && r.pendingTrigger && r.unsent && a.owner != "" && a.signalId != "" && (a.mode == "live" || a.mode == "paper")
    && r.signalId == a.signalId && r.who.client == a.client && r.who.mode == a.mode && r.who.order == a.order
  }

  /** A claim takes the next generation of a row whose authority is absent or its own. */
  predicate ClaimFence(r: Row, a: Ask, leaseOver: bool, mirrorsFit: bool) {
    && Addresses(a, r) && !r.ready && (r.lifecycle.Blank? || r.lifecycle.RetryWait? || leaseOver) && mirrorsFit
    && r.who.canonical != "" && a.generation == Generation(r) + 1
    && ((r.crossed.None? && r.provenance.None?) || (r.crossed.Some? && r.provenance == Some(r.who)))
  }

  /** A rearm needs the live materialization of exactly that owner and generation. */
  predicate RearmFence(r: Row, a: Ask) {
    && Addresses(a, r) && r.lifecycle.Materializing? && r.owner == a.owner
    && Generation(r) == (if a.generation < 1 then 1 else a.generation)
  }

  // ---- Steps ----

  function OwnStamp(w: Watcher): Stamp
    requires w.crossedAt.Some?
  {
    Stamp(w.crossedAt.value, w.iso)
  }

  function Held(w: Watcher): Stamp
    requires w.crossedAt.Some?
  {
    if w.raw.Some? then w.raw.value else OwnStamp(w)
  }

  function HeldBy(w: Watcher): Identity {
    if w.rawBy.Some? then w.rawBy.value else w.who
  }

  function SetPhase(st: State, i: nat, p: Phase): State
    requires i < |st.ws|
  {
    st.(ws := st.ws[i := st.ws[i].(phase := p)])
  }

  /** A reported success makes the watcher publish the authority it holds. */
  function Win(st: State, i: nat, at: Stamp, prov: Identity): State
    requires i < |st.ws|
  {
    st.(ws := st.ws[i := st.ws[i].(persisted := true, raw := Some(at), rawBy := Some(prov), phase := Cleared(at))],
        log := st.log + [Won(i, at)])
  }

  function Write(st: State, writer: Option<nat>, at: Stamp, prov: Identity): State {
    st.(row := st.row.(crossed := Some(at), provenance := Some(prov)), log := st.log + [Wrote(writer, at, prov)])
  }

  function AttemptNew(st: State, i: nat, reached: bool, heard: bool): State
    requires i < |st.ws| && st.ws[i].crossedAt.Some?
  {
    var w := st.ws[i];
    var commits := reached && NewFence(st.row, w);
    var st1 := if commits then Write(st, Some(i), OwnStamp(w), w.who) else st;
    if commits && heard then Win(st1, i, OwnStamp(w), w.who)
    else if w.started then st1
    else SetPhase(st1, i, Unanswered)
  }

  function AttemptExisting(st: State, i: nat, at: Stamp, prov: Identity, reached: bool, heard: bool): State
    requires i < |st.ws|
  {
    if reached && heard && ExistingFence(st.row, st.ws[i], at, prov) then Win(st, i, at, prov)
    else SetPhase(st, i, Idle)
  }

  function DoReadBack(st: State, i: nat, heard: bool): State
    requires i < |st.ws|
  {
    var r, w := st.row, st.ws[i];
    if heard && RowFence(r, w) && r.crossed.Some? && r.provenance == Some(w.who)
        && w.crossedAt == Some(r.crossed.value.instant)
    then SetPhase(st, i, Adopting(r.crossed.value, w.who))
    else SetPhase(st, i, Idle)
  }

  function DoEnter(st: State, i: nat): State
    requires i < |st.ws| && st.ws[i].phase.Cleared?
  {
    st.(ws := st.ws[i := st.ws[i].(started := true, phase := Calling)],
        log := st.log + [Called(i, st.ws[i].phase.stamp, st.ws[i].crossedAt)])
  }

  function DoClaim(st: State, a: Ask, at: Stamp): State {
    var st1 := if st.row.crossed.None? then Write(st, None, at, st.row.who) else st;
    st1.(row := st1.row.(
      lifecycle := Materializing, owner := a.owner, generation := Some(a.generation), ready := false))
  }

  function ErasedRow(r: Row): Row {
    r.(lifecycle := Blank, owner := "", ready := false, crossed := None, provenance := None)
  }

  /** Only a rearm that answers the callback of a live watcher resets that watcher: it forgets its
      crossing, but neither its flag nor the text it last published. */
  function DoRearm(st: State, w: Option<nat>, heard: bool): State {
    if heard && w.Some? && w.value < |st.ws| && st.ws[w.value].phase.Calling?
    then State(ErasedRow(st.row), st.ws[w.value := st.ws[w.value].(crossedAt := None)], st.log + [Erased(w)])
    else State(ErasedRow(st.row), st.ws, st.log + [Erased(None)])
  }

  /** One step; an action that is not enabled changes nothing. */
  function Next(st: State, a: Action): State {
    match a
    case Cross(i, at, iso) =>
      if i >= |st.ws| || !st.ws[i].phase.Idle? || st.ws[i].crossedAt.Some? then st
      else st.(ws := st.ws[i := st.ws[i].(crossedAt := Some(at), iso := iso)])
    case Attempt(i, reached, heard) =>
      if i >= |st.ws| || !st.ws[i].phase.Idle? || st.ws[i].crossedAt.None? || !CompleteIdentity(st.ws[i].who) then st
      else if st.ws[i].persisted then AttemptExisting(st, i, Held(st.ws[i]), HeldBy(st.ws[i]), reached, heard)
      else AttemptNew(st, i, reached, heard)
    case ReadBack(i, heard) =>
      if i >= |st.ws| || !st.ws[i].phase.Unanswered? then st else DoReadBack(st, i, heard)
    case Adopt(i, reached, heard) =>
      if i >= |st.ws| || !st.ws[i].phase.Adopting? then st
      else AttemptExisting(st, i, st.ws[i].phase.stamp, st.ws[i].phase.prov, reached, heard)
    case Enter(i) =>
      if i >= |st.ws| || !st.ws[i].phase.Cleared? then st else DoEnter(st, i)
    case Stop(i) =>
      if i >= |st.ws| then st else SetPhase(st, i, Idle)
    case Claim(a, at, leaseOver, mirrorsFit) =>
      if ClaimFence(st.row, a, leaseOver, mirrorsFit) then DoClaim(st, a, at) else st
    case Rearm(a, w, heard) =>
      if RearmFence(st.row, a) then DoRearm(st, w, heard) else st
    // anything else may happen to the row, but nobody else writes its trigger authority
    case Other(r) =>
      st.(row := r.(crossed := st.row.crossed, provenance := st.row.provenance))
  }

  function Run(st: State, acts: seq<Action>): State {
    if |acts| == 0 then st else Next(Run(st, acts[..|acts| - 1]), acts[|acts| - 1])
  }

  lemma RunSnoc(st: State, acts: seq<Action>, a: Action)
    ensures Run(st, acts + [a]) == Next(Run(st, acts), a)
  {
    assert (acts + [a])[..|acts|] == acts;
  }

  // ---- What the log says ----

  function Writes(log: seq<Entry>): nat {
    if |log| == 0 then 0 else Writes(log[..|log| - 1]) + (if log[|log| - 1].Wrote? then 1 else 0)
  }

  function Erasures(log: seq<Entry>): nat {
    if |log| == 0 then 0 else Erasures(log[..|log| - 1]) + (if log[|log| - 1].Erased? then 1 else 0)
  }

  predicate ActsOf(e: Entry, i: nat) {
    (e.Won? || e.Called?) && e.w == i
  }

  /** The latest thing the log says watcher `i` did. */
  function LastOf(log: seq<Entry>, i: nat): Option<Entry> {
    if |log| == 0 then None
    else if ActsOf(log[|log| - 1], i) then Some(log[|log| - 1])
    else LastOf(log[..|log| - 1], i)
  }

  /** Entering the callback comes right after a success on the same value, in the same dispatch. */
  ghost predicate CallsAreEarned(log: seq<Entry>) {
    |log| > 0 ==>
      var init, e := log[..|log| - 1], log[|log| - 1];
      CallsAreEarned(init) && (e.Called? ==> LastOf(init, e.w) == Some(Won(e.w, e.at)))
  }

  /** The row held this value when the entry was made. */
  predicate Stamped(e: Entry) {
    e.Wrote? || e.Won?
  }

  ghost predicate NoErasure(log: seq<Entry>, j: nat, k: nat) {
    forall m :: j < m < k && m < |log| ==> !log[m].Erased?
  }

  /** Between two rearms the row has one value and gains it once. */
  ghost predicate OneValueBetweenRearms(log: seq<Entry>) {
    forall j: nat, k: nat :: j < k < |log| && Stamped(log[j]) && Stamped(log[k]) && NoErasure(log, j, k) ==>
      log[j].at == log[k].at && !log[k].Wrote?
  }

  ghost predicate WasReset(log: seq<Entry>, i: nat) {
    exists m :: 0 <= m < |log| && log[m] == Erased(Some(i))
  }

  // ---- The invariant ----

  /** No dispatch has begun; a restored watcher's crossing is the instant it restored. */
  ghost predicate Start(st: State) {
    && st.log == []
    && forall i :: 0 <= i < |st.ws| ==>
         st.ws[i].phase.Idle? && !st.ws[i].started
             && (st.ws[i].raw.Some? ==> st.ws[i].crossedAt == Some(st.ws[i].raw.value.instant))
  }

  ghost predicate WatcherInv(log: seq<Entry>, i: nat, w: Watcher) {
    && (w.started || w.phase.Cleared? ==> w.persisted && w.raw.Some? && w.rawBy.Some?)
    && (w.phase.Calling? ==> w.started)
    && (w.phase.Cleared? ==> LastOf(log, i) == Some(Won(i, w.phase.stamp)))
    && (w.phase.Adopting? ==> w.crossedAt == Some(w.phase.stamp.instant))
    && (!WasReset(log, i) ==>
          && (w.raw.Some? ==> w.crossedAt == Some(w.raw.value.instant))
          && (w.phase.Cleared? ==> w.crossedAt == Some(w.phase.stamp.instant)))
  }

  /** A callback runs on the watcher's own crossing, unless the watcher was reset before. */
  ghost predicate OwnCrossing(log: seq<Entry>) {
    |log| > 0 ==>
      var init, e := log[..|log| - 1], log[|log| - 1];
      OwnCrossing(init) && (e.Called? ==> e.own == Some(e.at.instant) || WasReset(init, e.w))
  }

  /** What was logged since the last rearm is what the row holds. */
  ghost predicate RowIsCurrent(row: Row, log: seq<Entry>) {
    forall j: nat :: j < |log| && Stamped(log[j]) && NoErasure(log, j, |log|) ==> row.crossed == Some(log[j].at)
  }

  ghost predicate LogInv(row: Row, log: seq<Entry>) {
    && CallsAreEarned(log) && OwnCrossing(log) && OneValueBetweenRearms(log) && RowIsCurrent(row, log)
    && Writes(log) <= Erasures(log) + (if row.crossed.Some? then 1 else 0)
  }

  ghost predicate Inv(st: State) {
    LogInv(st.row, st.log) && forall i: nat :: i < |st.ws| ==> WatcherInv(st.log, i, st.ws[i])
  }

  // ---- Every step keeps it ----

  lemma CountsSnoc(log: seq<Entry>, e: Entry)
    ensures Writes(log + [e]) == Writes(log) + (if e.Wrote? then 1 else 0)
    ensures Erasures(log + [e]) == Erasures(log) + (if e.Erased? then 1 else 0)
  {
    assert (log + [e])[..|log|] == log;
  }

  lemma LastSnoc(log: seq<Entry>, e: Entry, i: nat)
    ensures LastOf(log + [e], i) == if ActsOf(e, i) then Some(e) else LastOf(log, i)
    ensures WasReset(log + [e], i) <==> WasReset(log, i) || e == Erased(Some(i))
  {
    assert (log + [e])[..|log|] == log;
    if WasReset(log, i) {
      var m :| 0 <= m < |log| && log[m] == Erased(Some(i));
      assert (log + [e])[m] == Erased(Some(i));
    }
    assert (log + [e])[|log|] == e;
  }

  /** Appending keeps the order of the log, provided a stamped entry says what the row holds and a
      write met a row without a value. */
  lemma ValuesSnoc(row: Row, log: seq<Entry>, e: Entry, row': Row)
    requires OneValueBetweenRearms(log) && RowIsCurrent(row, log)
    requires Stamped(e) ==> row'.crossed == Some(e.at)
    requires if e.Wrote? then row.crossed.None? else e.Erased? || row'.crossed == row.crossed
    ensures OneValueBetweenRearms(log + [e]) && RowIsCurrent(row', log + [e])
  {
    var log' := log + [e];
    forall j: nat, k: nat | j < k < |log'| && Stamped(log'[j]) && Stamped(log'[k]) && NoErasure(log', j, k)
      ensures log'[j].at == log'[k].at && !log'[k].Wrote?
    {
      EarlierErasures(log, e, j, k);
    }
    forall j: nat | j < |log'| && Stamped(log'[j]) && NoErasure(log', j, |log'|)
      ensures row'.crossed == Some(log'[j].at)
    {
      if j < |log| {
        EarlierErasures(log, e, j, |log|);
        assert !log'[|log|].Erased?;
      }
    }
  }

  lemma EarlierErasures(log: seq<Entry>, e: Entry, j: nat, k: nat)
    requires k <= |log|
    ensures NoErasure(log + [e], j, k) <==> NoErasure(log, j, k)
  {
    assert forall m :: 0 <= m < |log| ==> (log + [e])[m] == log[m];
  }

  /** The whole log invariant for one more entry. */
  lemma LogSnoc(row: Row, log: seq<Entry>, e: Entry, row': Row)
    requires LogInv(row, log)
    requires Stamped(e) ==> row'.crossed == Some(e.at)
    requires if e.Wrote? then row.crossed.None?
             else if e.Erased? then row'.crossed.None? else row'.crossed == row.crossed
    requires e.Called? ==>
               LastOf(log, e.w) == Some(Won(e.w, e.at)) && (e.own == Some(e.at.instant) || WasReset(log, e.w))
    ensures LogInv(row', log + [e])
  {
    assert (log + [e])[..|log|] == log;
    ValuesSnoc(row, log, e, row');
    CountsSnoc(log, e);
  }

  /** An entry that is not watcher `i`'s own leaves what the log says of it. */
  lemma WatcherSnoc(log: seq<Entry>, e: Entry, i: nat, w: Watcher)
    requires WatcherInv(log, i, w) && !ActsOf(e, i)
    ensures WatcherInv(log + [e], i, w)
  {
    LastSnoc(log, e, i);
  }

  lemma OthersSnoc(st: State, e: Entry, i: nat)
    requires Inv(st) && (e.Won? || e.Called? ==> e.w == i)
    ensures forall j: nat :: j < |st.ws| && (j != i || e.Wrote? || e.Erased?) ==> WatcherInv(st.log + [e], j, st.ws[j])
  {
    forall j: nat | j < |st.ws| && (j != i || e.Wrote? || e.Erased?) ensures WatcherInv(st.log + [e], j, st.ws[j]) {
      WatcherSnoc(st.log, e, j, st.ws[j]);
    }
  }

  lemma SetPhaseKeeps(st: State, i: nat, p: Phase)
    requires Inv(st) && i < |st.ws| && (p.Idle? || p.Unanswered? || p.Adopting?)
    requires p.Adopting? ==> st.ws[i].crossedAt == Some(p.stamp.instant)
    ensures Inv(SetPhase(st, i, p))
  {
  }

  lemma WinKeeps(st: State, i: nat, at: Stamp, prov: Identity)
    requires Inv(st) && i < |st.ws| && st.row.crossed == Some(at)
    requires !WasReset(st.log, i) ==> st.ws[i].crossedAt == Some(at.instant)
    requires st.ws[i].phase.Adopting? ==> st.ws[i].crossedAt == Some(at.instant)
    ensures Inv(Win(st, i, at, prov))
  {
    LogSnoc(st.row, st.log, Won(i, at), st.row);
    OthersSnoc(st, Won(i, at), i);
    LastSnoc(st.log, Won(i, at), i);
  }

  lemma WriteKeeps(st: State, writer: Option<nat>, at: Stamp, prov: Identity)
    requires Inv(st) && st.row.crossed.None?
    ensures Inv(Write(st, writer, at, prov))
  {
    LogSnoc(st.row, st.log, Wrote(writer, at, prov), Write(st, writer, at, prov).row);
    OthersSnoc(st, Wrote(writer, at, prov), 0);
  }

  lemma EnterKeeps(st: State, i: nat)
    requires Inv(st) && i < |st.ws| && st.ws[i].phase.Cleared?
    ensures Inv(DoEnter(st, i))
  {
    assert WatcherInv(st.log, i, st.ws[i]);
    var e := Called(i, st.ws[i].phase.stamp, st.ws[i].crossedAt);
    LogSnoc(st.row, st.log, e, st.row);
    OthersSnoc(st, e, i);
    LastSnoc(st.log, e, i);
  }

  /** The row may change in everything but its crossing. */
  lemma RowKeeps(st: State, row': Row)
    requires Inv(st) && row'.crossed == st.row.crossed
    ensures Inv(st.(row := row'))
  {
  }

  lemma RearmKeeps(st: State, w: Option<nat>, heard: bool)
    requires Inv(st)
    ensures Inv(DoRearm(st, w, heard))
  {
    var st' := DoRearm(st, w, heard);
    var e := st'.log[|st.log|];
    LogSnoc(st.row, st.log, e, st'.row);
    OthersSnoc(st, e, 0);
    if e.inPlace.Some? { LastSnoc(st.log, e, e.inPlace.value); }
  }

  lemma AttemptNewKeeps(st: State, i: nat, reached: bool, heard: bool)
    requires Inv(st) && i < |st.ws| && st.ws[i].crossedAt.Some?
    ensures Inv(AttemptNew(st, i, reached, heard))
  {
    var w := st.ws[i];
    if reached && NewFence(st.row, w) {
      WriteKeeps(st, Some(i), OwnStamp(w), w.who);
      var st1 := Write(st, Some(i), OwnStamp(w), w.who);
      if heard {
        WinKeeps(st1, i, OwnStamp(w), w.who);
      } else if !w.started {
        SetPhaseKeeps(st1, i, Unanswered);
      }
    } else if !w.started {
      SetPhaseKeeps(st, i, Unanswered);
    }
  }

  lemma AttemptExistingKeeps(st: State, i: nat, at: Stamp, prov: Identity, reached: bool, heard: bool)
    requires Inv(st) && i < |st.ws|
    requires !WasReset(st.log, i) || st.ws[i].phase.Adopting? ==> st.ws[i].crossedAt == Some(at.instant)
    ensures Inv(AttemptExisting(st, i, at, prov, reached, heard))
  {
    if reached && heard && ExistingFence(st.row, st.ws[i], at, prov) {
      WinKeeps(st, i, at, prov);
    } else {
      SetPhaseKeeps(st, i, Idle);
    }
  }

  lemma WatcherStepKeeps(st: State, a: Action)
    requires Inv(st) && !a.Claim? && !a.Rearm? && !a.Other? && a.w < |st.ws|
    ensures Inv(Next(st, a))
  {
    var i, w := a.w, st.ws[a.w];
    assert WatcherInv(st.log, i, w);
    match a
    case Cross(_, _, _) =>
    case Attempt(_, reached, heard) =>
      if w.phase.Idle? && w.crossedAt.Some? {
        if w.persisted {
          AttemptExistingKeeps(st, i, Held(w), HeldBy(w), reached, heard);
        } else {
          AttemptNewKeeps(st, i, reached, heard);
        }
      }
    case ReadBack(_, heard) =>
      SetPhaseKeeps(st, i, Idle);
      if DoReadBack(st, i, heard) != SetPhase(st, i, Idle) {
        SetPhaseKeeps(st, i, Adopting(st.row.crossed.value, w.who));
      }
    case Adopt(_, reached, heard) =>
      if w.phase.Adopting? {
        AttemptExistingKeeps(st, i, w.phase.stamp, w.phase.prov, reached, heard);
      }
    case Enter(_) =>
      if w.phase.Cleared? { EnterKeeps(st, i); }
    case Stop(_) =>
      SetPhaseKeeps(st, i, Idle);
  }

  lemma StepKeeps(st: State, a: Action)
    requires Inv(st)
    ensures Inv(Next(st, a))
  {
    match a
    case Claim(ask, at, _, _) =>
      if st.row.crossed.None? { WriteKeeps(st, None, at, st.row.who); }
      var st1 := if st.row.crossed.None? then Write(st, None, at, st.row.who) else st;
      RowKeeps(st1, DoClaim(st, ask, at).row);
    case Rearm(_, w, heard) => RearmKeeps(st, w, heard);
    case Other(r) => RowKeeps(st, r.(crossed := st.row.crossed, provenance := st.row.provenance));
    case _ =>
      if a.w < |st.ws| { WatcherStepKeeps(st, a); }
  }

  lemma StartHolds(st: State)
    requires Start(st)
    ensures Inv(st)
  {
  }

  lemma {:induction false} RunKeeps(st: State, acts: seq<Action>)
    requires Start(st)
    ensures Inv(Run(st, acts))
  {
    if |acts| == 0 {
      StartHolds(st);
    } else {
      RunKeeps(st, acts[..|acts| - 1]);
      StepKeeps(Run(st, acts[..|acts| - 1]), acts[|acts| - 1]);
    }
  }

  // ---- The protocol's promises ----

  /** Over every interleaving, however many answers are lost: between two rearms the row gains one
      value at most and every success is on that value; there are at most as many writes as rearms,
      and one; every callback follows a success on the same value in the same dispatch; and callback
      work implies a published authority. */
  lemma AuthorityProtocol(st: State, acts: seq<Action>)
    requires Start(st)
    ensures var s := Run(st, acts);
            && OneValueBetweenRearms(s.log) && RowIsCurrent(s.row, s.log)
            && Writes(s.log) <= Erasures(s.log) + 1
            && CallsAreEarned(s.log)
            && (forall i: nat :: i < |s.ws| && s.ws[i].started ==> s.ws[i].persisted)
  {
    RunKeeps(st, acts);
    var s := Run(st, acts);
    forall i: nat | i < |s.ws| && s.ws[i].started ensures s.ws[i].persisted {
      assert WatcherInv(s.log, i, s.ws[i]);
    }
  }

  /** The success that earned the callback at `k`. */
  lemma {:induction false} Earner(log: seq<Entry>, k: nat) returns (n: nat)
    requires CallsAreEarned(log) && k < |log| && log[k].Called?
    ensures n < k && log[n] == Won(log[k].w, log[k].at)
    ensures forall m :: n < m < k ==> !ActsOf(log[m], log[k].w)
  {
    if k == |log| - 1 {
      n := LastIndex(log[..k], log[k].w);
    } else {
      n := Earner(log[..|log| - 1], k);
    }
  }

  lemma {:induction false} LastIndex(log: seq<Entry>, i: nat) returns (n: nat)
    requires LastOf(log, i).Some?
    ensures n < |log| && LastOf(log, i) == Some(log[n])
    ensures forall m :: n < m < |log| ==> !ActsOf(log[m], i)
  {
    n := |log| - 1;
    if !ActsOf(log[n], i) {
      n := LastIndex(log[..n], i);
    }
  }

  /** Callbacks on different crossings lie across a rearm: between the two successes that earned
      them the authority was erased. */
  lemma OneCrossingReachesTheCallback(st: State, acts: seq<Action>, j: nat, k: nat) returns (m: nat, n: nat, r: nat)
    requires Start(st)
    requires var log := Run(st, acts).log;
             j < |log| && k < |log| && log[j].Called? && log[k].Called? && log[j].at != log[k].at
    ensures var log := Run(st, acts).log;
            && m < j && log[m] == Won(log[j].w, log[j].at) && n < k && log[n] == Won(log[k].w, log[k].at)
            && (m < r < n || n < r < m) && log[r].Erased?
  {
    RunKeeps(st, acts);
    var log := Run(st, acts).log;
    m := Earner(log, j);
    n := Earner(log, k);
    if m < n {
      assert !NoErasure(log, m, n);
      r :| m < r < n && log[r].Erased?;
    } else {
      assert !NoErasure(log, n, m);
      r :| n < r < m && log[r].Erased?;
    }
  }

  /** A callback runs on its watcher's own crossing, unless a rearm has reset that watcher before. */
  lemma CallbackIsOwn(st: State, acts: seq<Action>, k: nat)
    requires Start(st)
    requires var log := Run(st, acts).log; k < |log| && log[k].Called?
    ensures var log := Run(st, acts).log; log[k].own == Some(log[k].at.instant) || WasReset(log[..k], log[k].w)
  {
    RunKeeps(st, acts);
    OwnAt(Run(st, acts).log, k);
  }

  lemma {:induction false} OwnAt(log: seq<Entry>, k: nat)
    requires OwnCrossing(log) && k < |log| && log[k].Called?
    ensures log[k].own == Some(log[k].at.instant) || WasReset(log[..k], log[k].w)
  {
    if k < |log| - 1 {
      OwnAt(log[..|log| - 1], k);
      assert log[..|log| - 1][..k] == log[..k];
    }
  }

  // ---- On which rows an authority is won ----

  /** A row on which watcher `w` may act, field by field: still waiting for its trigger, nothing of it
      at the broker or on the way there, and of that signal, identity and generation. */
  ghost predicate OpenTo(r: Row, w: Watcher) {
    && r.pendingTrigger && r.unsent && !r.intent && !r.ready && r.signalId == w.signalId
    && r.who.canonical == w.who.canonical && r.who.client == w.who.client
    && r.who.mode == w.who.mode && r.who.order == w.who.order
    && (w.generation.None? || r.generation == w.generation)
  }

  ghost predicate WholeIdentity(i: Identity) {
    i.canonical != "" && i.client != "" && i.mode in {"live", "paper"} && i.order != ""
  }

  /** What an attempt needs: an idle watcher with a confirmed crossing and a whole identity, and an open
      row that has no authority yet or, once the watcher has published one, that very text. */
  ghost predicate MayAttempt(st: State, w: Watcher) {
    && w.phase.Idle? && w.crossedAt.Some? && WholeIdentity(w.who) && OpenTo(st.row, w)
    && (if w.persisted
        then
          && st.row.crossed == Some(if w.raw.Some? then w.raw.value else Stamp(w.crossedAt.value, w.iso))
          && st.row.provenance == Some(if w.rawBy.Some? then w.rawBy.value else w.who)
        else st.row.crossed.None? && st.row.provenance.None?)
  }

  /** It wins exactly then, if it reaches the row and its answer is heard; and it writes the row exactly
      then, heard or not, if the watcher has published nothing. */
  lemma AttemptSucceedsIff(st: State, i: nat, reached: bool, heard: bool)
    requires i < |st.ws|
    ensures var w, s := st.ws[i], Next(st, Attempt(i, reached, heard));
            && (w.phase.Idle? && s.ws[i].phase.Cleared? <==> reached && heard && MayAttempt(st, w))
            && (s.row != st.row <==> reached && !w.persisted && MayAttempt(st, w))
            && (w.phase.Idle? && s.ws[i].phase.Cleared? ==> Publishes(s, i))
            && (s.row != st.row ==>
                  s.row == st.row.(crossed := Some(Stamp(w.crossedAt.value, w.iso)), provenance := Some(w.who)))
            && (w.phase.Idle? && s.ws[i].phase.Unanswered? <==>
                  && w.phase.Idle? && w.crossedAt.Some? && WholeIdentity(w.who) && !w.persisted && !w.started
                  && !(reached && heard && MayAttempt(st, w)))
  {
  }

  /** The watcher works with, and has published, exactly what the row holds. */
  ghost predicate Publishes(st: State, i: nat)
    requires i < |st.ws| && st.ws[i].phase.Cleared?
  {
    && st.ws[i].persisted && st.row.crossed == Some(st.ws[i].phase.stamp) == st.ws[i].raw
    && st.row.provenance.Some? && st.ws[i].rawBy == st.row.provenance
  }

  /** An adopted read-back wins exactly if the row is still open and still holds what was read, and the
      answer is heard; the callback is entered exactly after a success. */
  lemma AdoptSucceedsIff(st: State, i: nat, reached: bool, heard: bool)
    requires i < |st.ws|
    ensures var w, s := st.ws[i], Next(st, Adopt(i, reached, heard));
            && (w.phase.Adopting? && s.ws[i].phase.Cleared? <==>
                  && w.phase.Adopting? && reached && heard && OpenTo(st.row, w)
                  && st.row.crossed == Some(w.phase.stamp) && st.row.provenance == Some(w.phase.prov))
            && (w.phase.Adopting? && s.ws[i].phase.Cleared? ==> Publishes(s, i))
            && s.row == st.row
    ensures var w, s := st.ws[i], Next(st, Enter(i));
            && s.row == st.row
            && s.log == (if w.phase.Cleared? then st.log + [Called(i, w.phase.stamp, w.crossedAt)] else st.log)
            && (w.phase.Cleared? ==> s.ws[i] == w.(started := true, phase := Calling))
  {
  }

  /** A read-back is adopted exactly from an open row whose provenance is the watcher's and whose
      crossing is the watcher's instant. */
  lemma ReadBackAdoptsIff(st: State, i: nat, heard: bool)
    requires i < |st.ws| && st.ws[i].phase.Unanswered?
    ensures Next(st, ReadBack(i, heard)).ws[i].phase.Adopting? <==>
              && heard && OpenTo(st.row, st.ws[i]) && st.row.provenance == Some(st.ws[i].who)
              && st.row.crossed.Some? && st.ws[i].crossedAt == Some(st.row.crossed.value.instant)
  {
  }

  /** A claim takes effect exactly on an unsent waiting row of that order that nobody is at work on, or
      whose lease is over, in its next generation, and whose authority is absent or its own. */
  lemma ClaimSucceedsIff(st: State, a: Ask, dated: Stamp, leaseOver: bool, mirrorsFit: bool)
    ensures var r, s := st.row, Next(st, Claim(a, dated, leaseOver, mirrorsFit));
            s != st <==>
              && a.owner != "" && a.signalId != "" && a.mode in {"live", "paper"} && r.who.canonical != ""
              && r.pendingTrigger && r.unsent && !r.ready && r.signalId == a.signalId
              && r.who.client == a.client && r.who.mode == a.mode && r.who.order == a.order
              && (leaseOver || r.lifecycle.Blank? || r.lifecycle.RetryWait?) && mirrorsFit
              && a.generation == (if r.generation.Some? then r.generation.value + 1 else 1)
              && (if r.crossed.Some? then r.provenance == Some(r.who) else r.provenance.None?)
    ensures var s := Next(st, Claim(a, dated, leaseOver, mirrorsFit));
            s != st ==>
              && s.row.lifecycle.Materializing? && s.row.owner == a.owner && s.row.generation == Some(a.generation)
              && s.row.provenance == Some(st.row.who)
              && s.row.crossed == (if st.row.crossed.Some? then st.row.crossed else Some(dated))
  {
  }

  /** A rearm takes effect exactly on an unsent waiting row of that order that this very owner and
      generation materializes. */
  lemma RearmSucceedsIff(st: State, a: Ask, caller: Option<nat>, heard: bool)
    ensures var r, s := st.row, Next(st, Rearm(a, caller, heard));
            s.log != st.log <==>
              && a.owner != "" && a.signalId != "" && a.mode in {"live", "paper"}
              && r.pendingTrigger && r.unsent && r.signalId == a.signalId
              && r.who.client == a.client && r.who.mode == a.mode && r.who.order == a.order
              && r.lifecycle.Materializing? && r.owner == a.owner
              && (if r.generation.Some? then r.generation.value else 0)
                 == (if a.generation == 0 then 1 else a.generation)
    ensures var s := Next(st, Rearm(a, caller, heard));
            s.log != st.log ==>
              s.row == st.row.(lifecycle := Blank, owner := "", ready := false, crossed := None, provenance := None)
    ensures var s := Next(st, Rearm(a, caller, heard));
            s.ws == if s.log != st.log && heard && caller.Some? && caller.value < |st.ws|
                       && st.ws[caller.value].phase == Calling
                    then st.ws[caller.value := st.ws[caller.value].(crossedAt := None)] else st.ws
  {
  }

  /** What entry `e`, made by a step from `st`, met. */
  ghost predicate MetItsRow(st: State, e: Entry) {
    match e
    case Won(w, at) => w < |st.ws| && OpenTo(st.row, st.ws[w])
    case Wrote(Some(w), at, prov) =>
      && w < |st.ws| && OpenTo(st.row, st.ws[w]) && st.row.crossed.None? && st.row.provenance.None?
      && st.ws[w].crossedAt == Some(at.instant) && at.form == st.ws[w].iso && prov == st.row.who
    case Wrote(None, _, prov) =>
      st.row.pendingTrigger && st.row.unsent && !st.row.ready && st.row.crossed.None? && prov == st.row.who
    case Called(w, at, _) => w < |st.ws| && st.ws[w].phase == Cleared(at)
    case Erased(_) => st.row.pendingTrigger && st.row.unsent && st.row.lifecycle.Materializing?
  }

  lemma StepMeets(st: State, a: Action, k: nat)
    requires |st.log| <= k < |Next(st, a).log|
    ensures MetItsRow(st, Next(st, a).log[k])
  {
  }

  /** Step `n` of the run made entry `k`, and met a row it was entitled to. */
  ghost predicate MadeAt(st: State, acts: seq<Action>, n: nat, k: nat, e: Entry) {
    && n < |acts|
    && var before := Run(st, acts[..n]);
       |before.log| <= k < |Next(before, acts[n]).log| && Next(before, acts[n]).log[k] == e && MetItsRow(before, e)
  }

  /** Over every run: each entry of the log was made by one step, and that step met a row it was
      entitled to.  No success and no first write ever met a row that was sent, on its way, or
      another order's. */
  lemma {:induction false} EveryEntryMetItsRow(st: State, acts: seq<Action>, k: nat) returns (n: nat)
    requires |st.log| <= k < |Run(st, acts).log|
    ensures MadeAt(st, acts, n, k, Run(st, acts).log[k])
  {
    var init, last := acts[..|acts| - 1], acts[|acts| - 1];
    LogOnlyGrows(Run(st, init), last);
    if k < |Run(st, init).log| {
      n := EveryEntryMetItsRow(st, init, k);
      MadeEarlier(st, acts, n, k, Run(st, init).log[k]);
    } else {
      n := |acts| - 1;
      StepMeets(Run(st, init), last, k);
    }
  }

  lemma MadeEarlier(st: State, acts: seq<Action>, n: nat, k: nat, e: Entry)
    requires |acts| > 0 && MadeAt(st, acts[..|acts| - 1], n, k, e)
    ensures MadeAt(st, acts, n, k, e)
  {
    assert acts[..|acts| - 1][..n] == acts[..n];
  }

  // ---- How long an authority lasts ----

  ghost predicate SameAuthority(r: Row, s: Row) {
    r.crossed == s.crossed && r.provenance == s.provenance
  }

  lemma AuthorityStepStays(st: State, a: Action)
    ensures var s := Next(st, a);
            Erasures(s.log) == Erasures(st.log) + (if a.Rearm? && RearmFence(st.row, a.a) then 1 else 0)
    ensures var s := Next(st, a);
            if a.Rearm? && RearmFence(st.row, a.a) then s.row.crossed.None? && s.row.provenance.None?
            else st.row.crossed.Some? && st.row.provenance.Some? ==> SameAuthority(s.row, st.row)
  {
    if Next(st, a).log != st.log {
      LogGrows(st, a);
    }
  }

  /** A step that logs something logs rearms as such and nothing else as one. */
  lemma LogGrows(st: State, a: Action)
    ensures var s := Next(st, a);
            Erasures(s.log) == Erasures(st.log) + (if a.Rearm? && RearmFence(st.row, a.a) then 1 else 0)
  {
    var s := Next(st, a);
    match a
    case Attempt(i, reached, heard) =>
      if i < |st.ws| && st.ws[i].crossedAt.Some? {
        var at := OwnStamp(st.ws[i]);
        CountsSnoc(st.log, Wrote(Some(i), at, st.ws[i].who));
        CountsSnoc(st.log + [Wrote(Some(i), at, st.ws[i].who)], Won(i, at));
        CountsSnoc(st.log, Won(i, Held(st.ws[i])));
      }
    case Adopt(i, _, _) =>
      if i < |st.ws| && st.ws[i].phase.Adopting? { CountsSnoc(st.log, Won(i, st.ws[i].phase.stamp)); }
    case Enter(i) =>
      if i < |st.ws| && st.ws[i].phase.Cleared? {
        CountsSnoc(st.log, Called(i, st.ws[i].phase.stamp, st.ws[i].crossedAt));
      }
    case Claim(_, at, _, _) => CountsSnoc(st.log, Wrote(None, at, st.row.who));
    case Rearm(_, w, _) =>
      CountsSnoc(st.log, Erased(w));
      CountsSnoc(st.log, Erased(None));
    case _ =>
  }

  /** The authority of the row, at every moment of the run. */
  ghost predicate Persists(st: State, acts: seq<Action>) {
    if |acts| == 0 then true
    else Persists(st, acts[..|acts| - 1]) && SameAuthority(Run(st, acts).row, st.row)
  }

  lemma {:induction false} ErasuresGrow(st: State, acts: seq<Action>)
    ensures Erasures(st.log) <= Erasures(Run(st, acts).log)
  {
    if |acts| > 0 {
      ErasuresGrow(st, acts[..|acts| - 1]);
      AuthorityStepStays(Run(st, acts[..|acts| - 1]), acts[|acts| - 1]);
    }
  }

  /** A recorded authority stays what it is throughout a run exactly when no rearm takes effect in it. */
  lemma {:induction false} AuthorityPersistsIff(st: State, acts: seq<Action>)
    requires st.row.crossed.Some? && st.row.provenance.Some?
    ensures Persists(st, acts) <==> Erasures(Run(st, acts).log) == Erasures(st.log)
  {
    if |acts| > 0 {
      var init := acts[..|acts| - 1];
      AuthorityPersistsIff(st, init);
      ErasuresGrow(st, init);
      AuthorityStepStays(Run(st, init), acts[|acts| - 1]);
      if Persists(st, init) { PersistsToTheEnd(st, init); }
    }
  }

  lemma PersistsToTheEnd(st: State, acts: seq<Action>)
    requires Persists(st, acts)
    ensures SameAuthority(Run(st, acts).row, st.row)
  {
  }

  // ---- Half an authority ----

  ghost predicate Fenced(row: Row, s: State) {
    && SameAuthority(s.row, row) && s.log == []
    && forall i :: 0 <= i < |s.ws| ==> s.ws[i].phase.Idle? || s.ws[i].phase.Unanswered?
  }

  lemma HalfStaysFenced(row: Row, s: State, a: Action)
    requires Fenced(row, s) && row.crossed.Some? != row.provenance.Some?
    ensures Fenced(row, Next(s, a)) || Erasures(Next(s, a).log) == 1
  {
    AuthorityStepStays(s, a);
  }

  /** Half an authority is none: until a rearm clears it, a row with only a crossing time or only a
      provenance never gains the other, and nobody reaches the callback on it. */
  lemma {:induction false} HalfAuthorityIsFenced(st: State, acts: seq<Action>)
    requires Start(st) && st.row.crossed.Some? != st.row.provenance.Some?
    requires Erasures(Run(st, acts).log) == 0
    ensures Fenced(st.row, Run(st, acts))
  {
    if |acts| > 0 {
      var init := acts[..|acts| - 1];
      AuthorityStepStays(Run(st, init), acts[|acts| - 1]);
      HalfAuthorityIsFenced(st, init);
      HalfStaysFenced(st.row, Run(st, init), acts[|acts| - 1]);
    }
  }

  // ---- Lost answers and rearms, step by step ----

  /** A lost answer is recoverable: the watcher whose write committed silently reads it back,
      re-asserts it and enters the callback, with still exactly one write. */
  lemma LostAnswerRecovers(st: State, i: nat)
    requires Start(st) && i < |st.ws| && st.ws[i].crossedAt.Some? && CompleteIdentity(st.ws[i].who)
    requires !st.ws[i].persisted && NewFence(st.row, st.ws[i])
    ensures var at := OwnStamp(st.ws[i]);
            Run(st, [Attempt(i, true, false), ReadBack(i, true), Adopt(i, true, true), Enter(i)]).log
            == [Wrote(Some(i), at, st.ws[i].who), Won(i, at), Called(i, at, st.ws[i].crossedAt)]
  {
    var at, who := OwnStamp(st.ws[i]), st.ws[i].who;
    RunOfFour(st, Attempt(i, true, false), ReadBack(i, true), Adopt(i, true, true), Enter(i));
    SilentWrite(st, i);
    var s := Run(st, [Attempt(i, true, false), ReadBack(i, true)]);
    RunOfTwo(s, Adopt(i, true, true), Enter(i));
    assert Next(s, Adopt(i, true, true)) == Win(s, i, at, who);
  }

  lemma SilentWrite(st: State, i: nat)
    requires i < |st.ws| && st.ws[i].phase.Idle? && st.ws[i].crossedAt.Some? && CompleteIdentity(st.ws[i].who)
    requires !st.ws[i].persisted && !st.ws[i].started && NewFence(st.row, st.ws[i])
    ensures var at, who := OwnStamp(st.ws[i]), st.ws[i].who;
            Run(st, [Attempt(i, true, false), ReadBack(i, true)])
            == SetPhase(SetPhase(Write(st, Some(i), at, who), i, Unanswered), i, Adopting(at, who))
  {
    var at, who := OwnStamp(st.ws[i]), st.ws[i].who;
    RunOfTwo(st, Attempt(i, true, false), ReadBack(i, true));
    var s1 := Next(st, Attempt(i, true, false));
    assert s1 == SetPhase(Write(st, Some(i), at, who), i, Unanswered);
    FindsItsWrite(s1, i);
  }

  lemma FindsItsWrite(st: State, i: nat)
    requires i < |st.ws| && st.ws[i].phase.Unanswered? && st.ws[i].crossedAt.Some? && RowFence(st.row, st.ws[i])
    requires st.row.crossed == Some(OwnStamp(st.ws[i])) && st.row.provenance == Some(st.ws[i].who)
    ensures Next(st, ReadBack(i, true)) == SetPhase(st, i, Adopting(OwnStamp(st.ws[i]), st.ws[i].who))
  {
  }

  lemma RunOfTwo(st: State, a: Action, b: Action)
    ensures Run(st, [a, b]) == Next(Next(st, a), b)
  {
    RunSnoc(st, [], a);
    RunSnoc(st, [a], b);
    assert [] + [a] == [a] && [a] + [b] == [a, b];
  }

  lemma {:induction false} RunAppend(st: State, acts: seq<Action>, more: seq<Action>)
    ensures Run(st, acts + more) == Run(Run(st, acts), more)
  {
    if |more| == 0 {
      assert acts + more == acts;
    } else {
      assert (acts + more)[..|acts + more| - 1] == acts + more[..|more| - 1];
      RunAppend(st, acts, more[..|more| - 1]);
    }
  }

  lemma RunOfFour(st: State, a: Action, b: Action, c: Action, d: Action)
    ensures Run(st, [a, b, c, d]) == Run(Run(st, [a, b]), [c, d])
  {
    RunAppend(st, [a, b], [c, d]);
    assert [a, b] + [c, d] == [a, b, c, d];
  }

  /** The claim on a row's next generation, and the rearm of that generation. */
  function NextAsk(r: Row, owner: string): Ask {
    Ask(owner, r.signalId, r.who.client, r.who.mode, r.who.order, Generation(r) + 1)
  }

  /** A watcher without a generation that the row would let record its own crossing. */
  predicate Ready(st: State, i: nat) {
    && i < |st.ws| && st.ws[i].crossedAt.Some? && CompleteIdentity(st.ws[i].who) && !st.ws[i].persisted
    && st.ws[i].generation.None? && st.ws[i].phase.Idle? && NewFence(st.row, st.ws[i])
  }

  /** Recording a crossing and entering the callback, with both answers heard. */
  function Dispatch(i: nat): seq<Action> {
    [Attempt(i, true, true), Enter(i)]
  }

  function Recorded(i: nat, w: Watcher): seq<Entry>
    requires w.crossedAt.Some?
  {
    [Wrote(Some(i), OwnStamp(w), w.who), Won(i, OwnStamp(w)), Called(i, OwnStamp(w), w.crossedAt)]
  }

  lemma FirstDispatch(st: State, i: nat)
    requires Ready(st, i)
    ensures var s := Run(st, Dispatch(i));
            && s.row == st.row.(crossed := Some(OwnStamp(st.ws[i])), provenance := Some(st.ws[i].who))
            && |s.ws| == |st.ws| && (forall k :: 0 <= k < |s.ws| && k != i ==> s.ws[k] == st.ws[k])
            && s.log == st.log + Recorded(i, st.ws[i])
  {
    var at, who := OwnStamp(st.ws[i]), st.ws[i].who;
    RunOfTwo(st, Attempt(i, true, true), Enter(i));
    assert Next(st, Attempt(i, true, true)) == Win(Write(st, Some(i), at, who), i, at, who);
  }

  /** A claim of the next generation, and a rearm that answers it for no live watcher. */
  function ClaimThenRearm(a: Ask, dated: Stamp): seq<Action> {
    [Claim(a, dated, false, true), Rearm(a, None, true)]
  }

  lemma ClaimedAndRearmed(st: State, owner: string, dated: Stamp)
    requires CompleteIdentity(st.row.who) && owner != "" && st.row.signalId != "" && st.row.lifecycle.Blank?
    requires st.row.pendingTrigger && BrokerFree(st.row)
    requires st.row.crossed.Some? && st.row.provenance == Some(st.row.who)
    ensures var a := NextAsk(st.row, owner);
            var s := Run(st, ClaimThenRearm(a, dated));
            && s.ws == st.ws && s.log == st.log + [Erased(None)]
            && s.row == st.row.(
                 owner := "", generation := Some(a.generation), crossed := None, provenance := None)
  {
    var a := NextAsk(st.row, owner);
    RunOfTwo(st, Claim(a, dated, false, true), Rearm(a, None, true));
    assert ClaimFence(st.row, a, false, true);
    assert RearmFence(Next(st, Claim(a, dated, false, true)).row, a);
  }

  /** The round of watcher `i`: called, claimed for, and rearmed. */
  lemma RoundEndsAsItBegan(st: State, i: nat, owner: string, dated: Stamp, mid: State, s: State)
    requires Ready(st, i) && owner != "" && st.row.signalId != "" && st.row.lifecycle.Blank?
    requires mid == Run(st, Dispatch(i)) && s == Run(mid, ClaimThenRearm(NextAsk(st.row, owner), dated))
    ensures s.row == st.row.(owner := "", generation := Some(Generation(st.row) + 1))
    ensures s.log == st.log + Recorded(i, st.ws[i]) + [Erased(None)]
    ensures |s.ws| == |st.ws| && forall k :: 0 <= k < |s.ws| && k != i ==> s.ws[k] == st.ws[k]
  {
    FirstDispatch(st, i);
    ClaimedAndRearmed(mid, owner, dated);
  }

  /** The law of one write needs its condition: a callback claims the row, a rearm answers it for no
      live watcher, and the watcher attached afterwards records another crossing and is called. */
  lemma RearmAllowsASecondCrossing(st: State, i: nat, j: nat, owner: string, dated: Stamp)
    requires Ready(st, i) && Ready(st, j) && i != j && owner != "" && st.row.signalId != "" && st.row.lifecycle.Blank?
    ensures Run(st, Dispatch(i) + ClaimThenRearm(NextAsk(st.row, owner), dated) + Dispatch(j)).log
         == st.log + Recorded(i, st.ws[i]) + [Erased(None)] + Recorded(j, st.ws[j])
  {
    var round := ClaimThenRearm(NextAsk(st.row, owner), dated);
    RunAppend(st, Dispatch(i) + round, Dispatch(j));
    RunAppend(st, Dispatch(i), round);
    var mid := Run(st, Dispatch(i));
    RoundEndsAsItBegan(st, i, owner, dated, mid, Run(mid, round));
    FirstDispatch(Run(mid, round), j);
  }

  // ---- A watcher that was reset in place ----

  /** The flag and the text watcher `i` last published. */
  ghost predicate Published(st: State, i: nat, raw: Stamp, prov: Identity) {
    && i < |st.ws| && st.ws[i].persisted && st.ws[i].raw == Some(raw) && st.ws[i].rawBy == Some(prov)
  }

  /** It can enter nothing as long as the row does not hold that text. */
  ghost predicate LockedOut(st: State, i: nat, raw: Stamp, prov: Identity) {
    && Published(st, i, raw, prov) && (st.ws[i].phase.Idle? || st.ws[i].phase.Calling?)
    && !(st.row.crossed == Some(raw) && st.row.provenance == Some(prov))
  }

  /** A rearm from within its own callback takes its crossing away but not what it published, so it
      is locked out. */
  lemma RearmLocksOut(st: State, acts: seq<Action>, i: nat, a: Ask)
    requires Start(st)
    requires var s := Run(st, acts); i < |s.ws| && s.ws[i].phase.Calling? && RearmFence(s.row, a)
    ensures var s, s' := Run(st, acts), Next(Run(st, acts), Rearm(a, Some(i), true));
            && s.ws[i].raw.Some? && s.ws[i].rawBy.Some? && s'.ws[i] == s.ws[i].(crossedAt := None)
            && LockedOut(s', i, s.ws[i].raw.value, s.ws[i].rawBy.value)
  {
    RunKeeps(st, acts);
    assert WatcherInv(Run(st, acts).log, i, Run(st, acts).ws[i]);
  }

  /** Somebody else wrote that very text after the first `n` entries. */
  ghost predicate Rewritten(log: seq<Entry>, n: nat, raw: Stamp, prov: Identity) {
    exists m :: n <= m < |log| && log[m].Wrote? && log[m].at == raw && log[m].prov == prov
  }

  ghost predicate Silent(log: seq<Entry>, n: nat, i: nat) {
    forall m :: n <= m < |log| ==> !ActsOf(log[m], i)
  }

  /** What one step of a locked-out watcher or of anybody else does. */
  ghost predicate StillOut(st: State, s: State, i: nat, raw: Stamp, prov: Identity) {
    && st.log <= s.log && Silent(s.log, |st.log|, i)
    && (LockedOut(s, i, raw, prov) || Rewritten(s.log, |st.log|, raw, prov))
  }

  lemma OtherAttemptLeavesOut(st: State, j: nat, reached: bool, heard: bool, i: nat, raw: Stamp, prov: Identity)
    requires LockedOut(st, i, raw, prov) && j < |st.ws| && j != i
    ensures StillOut(st, Next(st, Attempt(j, reached, heard)), i, raw, prov)
  {
    var s, w := Next(st, Attempt(j, reached, heard)), st.ws[j];
    if s.row != st.row {
      assert s.log[|st.log|] == Wrote(Some(j), OwnStamp(w), w.who);
    }
  }

  lemma ClaimLeavesOut(st: State, a: Ask, dated: Stamp, i: nat, raw: Stamp, prov: Identity)
    requires LockedOut(st, i, raw, prov)
    ensures StillOut(st, DoClaim(st, a, dated), i, raw, prov)
  {
    if st.row.crossed.None? {
      assert DoClaim(st, a, dated).log[|st.log|] == Wrote(None, dated, st.row.who);
    }
  }

  lemma OwnMovesLeaveOut(st: State, a: Action, i: nat, raw: Stamp, prov: Identity)
    requires LockedOut(st, i, raw, prov) && !a.Claim? && !a.Rearm? && !a.Other? && a.w == i
    ensures StillOut(st, Next(st, a), i, raw, prov)
  {
  }

  lemma OtherMovesLeaveOut(st: State, a: Action, i: nat, raw: Stamp, prov: Identity)
    requires LockedOut(st, i, raw, prov) && (a.Cross? || a.ReadBack? || a.Adopt? || a.Enter? || a.Stop?) && a.w != i
    ensures StillOut(st, Next(st, a), i, raw, prov)
  {
  }

  lemma LockedOutStep(st: State, a: Action, i: nat, raw: Stamp, prov: Identity)
    requires LockedOut(st, i, raw, prov)
    ensures StillOut(st, Next(st, a), i, raw, prov)
  {
    if a.Claim? {
      ClaimLeavesOut(st, a.a, a.dated, i, raw, prov);
    } else if !a.Rearm? && !a.Other? {
      if a.w == i {
        OwnMovesLeaveOut(st, a, i, raw, prov);
      } else if !a.Attempt? {
        OtherMovesLeaveOut(st, a, i, raw, prov);
      } else if a.w < |st.ws| {
        OtherAttemptLeavesOut(st, a.w, a.reached, a.heard, i, raw, prov);
      }
    }
  }

  lemma StillOutLater(st: State, mid: State, s: State, i: nat, raw: Stamp, prov: Identity)
    requires st.log <= mid.log && Silent(mid.log, |st.log|, i) && StillOut(mid, s, i, raw, prov)
    ensures StillOut(st, s, i, raw, prov)
  {
    forall m | |st.log| <= m < |s.log| ensures !ActsOf(s.log[m], i) {
      if m < |mid.log| { assert s.log[m] == mid.log[m]; }
    }
    if Rewritten(s.log, |mid.log|, raw, prov) {
      var m :| |mid.log| <= m < |s.log| && s.log[m].Wrote? && s.log[m].at == raw && s.log[m].prov == prov;
    }
  }

  lemma LogOnlyGrows(st: State, a: Action)
    ensures st.log <= Next(st, a).log
  {
  }

  lemma RewrittenStays(log: seq<Entry>, log': seq<Entry>, n: nat, raw: Stamp, prov: Identity)
    requires Rewritten(log, n, raw, prov) && log <= log'
    ensures Rewritten(log', n, raw, prov)
  {
    var m :| n <= m < |log| && log[m].Wrote? && log[m].at == raw && log[m].prov == prov;
    assert log'[m] == log[m];
  }

  /** The lock holds over every continuation: until somebody writes the old text again, the reset
      watcher wins nothing and enters no callback, whatever crossings it confirms. */
  lemma {:induction false} LockedOutStays(st: State, acts: seq<Action>, i: nat, raw: Stamp, prov: Identity)
    requires LockedOut(st, i, raw, prov)
    ensures var s := Run(st, acts);
            && st.log <= s.log
            && (Rewritten(s.log, |st.log|, raw, prov)
                || (LockedOut(s, i, raw, prov) && Silent(s.log, |st.log|, i)))
  {
    if |acts| > 0 {
      var mid, last := Run(st, acts[..|acts| - 1]), acts[|acts| - 1];
      LockedOutStays(st, acts[..|acts| - 1], i, raw, prov);
      LogOnlyGrows(mid, last);
      if Rewritten(mid.log, |st.log|, raw, prov) {
        RewrittenStays(mid.log, Next(mid, last).log, |st.log|, raw, prov);
      } else {
        LockedOutStep(mid, last, i, raw, prov);
        StillOutLater(st, mid, Next(mid, last), i, raw, prov);
      }
    }
  }

  /** What lets a watcher with a published text pass: exactly a row that holds that text. */
  lemma PassesOnItsOldTextIff(st: State, i: nat, raw: Stamp, prov: Identity)
    requires Published(st, i, raw, prov) && st.ws[i].phase.Idle? && st.ws[i].crossedAt.Some?
    requires CompleteIdentity(st.ws[i].who) && RowFence(st.row, st.ws[i])
    ensures (exists reached, heard :: Next(st, Attempt(i, reached, heard)).ws[i].phase.Cleared?)
        <==> st.row.crossed == Some(raw) && st.row.provenance == Some(prov)
  {
    if st.row.crossed == Some(raw) && st.row.provenance == Some(prov) {
      assert Next(st, Attempt(i, true, true)).ws[i].phase.Cleared?;
    }
  }

  /** The exception is real: a claim that brings the old text back lets a reset watcher into the
      callback on that text, although its own crossing is a new one. */
  lemma ResetWatcherReturnsOnItsOldText(st: State, i: nat, raw: Stamp, owner: string, at: int, iso: string)
    requires LockedOut(st, i, raw, st.row.who) && st.row.crossed.None? && st.row.provenance.None?
    requires st.ws[i].phase.Idle? && st.ws[i].crossedAt.None? && st.ws[i].generation.None?
    requires st.ws[i].who == st.row.who && st.ws[i].signalId == st.row.signalId && CompleteIdentity(st.row.who)
    requires st.row.pendingTrigger && BrokerFree(st.row) && st.row.lifecycle.Blank?
    requires owner != "" && st.row.signalId != ""
    ensures Run(st, [Cross(i, at, iso), Claim(NextAsk(st.row, owner), raw, false, true)] + Dispatch(i)).log
         == st.log + [Wrote(None, raw, st.row.who), Won(i, raw), Called(i, raw, Some(at))]
  {
    var a := NextAsk(st.row, owner);
    RunAppend(st, [Cross(i, at, iso), Claim(a, raw, false, true)], Dispatch(i));
    TextIsBack(st, i, raw, owner, at, iso);
    var s := Run(st, [Cross(i, at, iso), Claim(a, raw, false, true)]);
    RunOfTwo(s, Attempt(i, true, true), Enter(i));
    assert Next(s, Attempt(i, true, true)) == Win(s, i, raw, st.row.who);
  }

  lemma TextIsBack(st: State, i: nat, raw: Stamp, owner: string, at: int, iso: string)
    requires i < |st.ws| && st.ws[i].phase.Idle? && st.ws[i].crossedAt.None?
    requires st.row.crossed.None? && st.row.provenance.None? && CompleteIdentity(st.row.who)
    requires st.row.pendingTrigger && BrokerFree(st.row) && st.row.lifecycle.Blank?
    requires owner != "" && st.row.signalId != ""
    ensures var a := NextAsk(st.row, owner);
            var s := Run(st, [Cross(i, at, iso), Claim(a, raw, false, true)]);
            && s.ws == st.ws[i := st.ws[i].(crossedAt := Some(at), iso := iso)]
            && s.row == st.row.(lifecycle := Materializing, owner := owner, generation := Some(a.generation),
                                crossed := Some(raw), provenance := Some(st.row.who))
            && s.log == st.log + [Wrote(None, raw, st.row.who)]
  {
    var a := NextAsk(st.row, owner);
    RunOfTwo(st, Cross(i, at, iso), Claim(a, raw, false, true));
    assert ClaimFence(st.row, a, false, true);
  }
}
