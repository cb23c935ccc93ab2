/**
 Whole histories of the watcher: arms, sweeps, closes, convergence to terminal rows, trigger
 callbacks, cleanup dispatches, quarantine retries and whatever the order rows do meanwhile, in
 any order.
 */
module Histories {
  import opened Common
  import opened SignalMachine
  import opened Registry
  import opened Completion
  import D = DeferredClaims

  datatype Note = Armed(id: string) | CallbackFailed(id: string) | StartedOver(id: string) | Completed(id: string)

  /** One order row: what the cleanup verifier reads of it, and what the claim resolver does. */
  datatype Durable = Durable(row: Row, full: D.Row)

  /** The reads behind one accepted trigger callback. */
  datatype Reads = Reads(probe: D.Read, fallback: D.Read, recheck: D.Read)

  /** How a watcher left, with everything it left on. */
  datatype Departure =
    | ByCleanup(w: Watcher, c: Claim, a: Answer)
    | ByCallback(w: Watcher, subject: D.Subject, claim: D.Disposition, seen: Reads, clock: D.Clock)
    | ByConvergence(w: Watcher, subject: D.Subject, read: D.Read)

  /** `rows` is the durable table, `past` every value a row ever held, `gone` who left through
      convergence, a callback, the dispatcher or a quarantine retry. */
  datatype State = State(reg: Reg, rows: map<string, Durable>, past: set<Durable>, gone: seq<Departure>, log: seq<Note>)

  datatype Event =
    | Arm(q: Request)
    | SweepRearms(r: RearmRules, now: int, prices: map<string, Prices>)
    | DayClose
    // a poll decided against the signal and its cleanup comes later
    | Checked(id: string, outcome: WatchState)
    // a poll decided against the signal and its cleanup callback ran in the same step
    | Decided(id: string, outcome: WatchState, revived: bool, c: Claim, a: Answer, t: Timing, now: int)
    // before its trigger is dispatched, the row of a deferred order is read
    | Converged(id: string, subject: D.Subject, read: D.Read)
    // the trigger callback returned a claim
    | CallbackDone(id: string, subject: D.Subject, claim: D.Disposition, seen: Reads, clock: D.Clock)
    | CallbackRaised(id: string, written: bool, a: Answer, t: Timing, now: int)
    // the trigger callback answered a direction reversal: the watcher starts over and stays; one that
    // raises after that has raised on the old count
    | CallbackRewound(id: string)
    // an overnight retry could not be recorded
    | RetryNoteLost(id: string, t: Timing, now: int)
    | Dispatch(id: string, c: Claim, a: Answer, t: Timing, now: int)
    | RetryCleanup(id: string, revived: bool, c: Claim, a: Answer, t: Timing, now: int)
    | RowMoves(row: Durable)

  function Get(ws: seq<Watcher>, id: string): (w: Option<Watcher>)
    ensures w.Some? ==> w.value in ws && w.value.id == id
    ensures w.None? ==> forall x :: x in ws ==> x.id != id
  {
    if |ws| == 0 then None else if ws[|ws| - 1].id == id then Some(ws[|ws| - 1]) else Get(ws[..|ws| - 1], id)
  }

  function Meet(st: State, w: Watcher, f: Fate, d: Departure, notes: seq<Note>): State {
    st.(reg := ApplyFate(st.reg, w.id, f), gone := if f.Leaves? then st.gone + [d] else st.gone, log := st.log + notes)
  }

  function Changed(st: State, w: Watcher): State {
    st.(reg := ApplyFate(st.reg, w.id, Stays(w)))
  }

  function CleanedUp(st: State, w: Watcher, f: Fate, c: Claim, a: Answer): State {
    Meet(st, w, f, ByCleanup(w, c, a), CleanupNotes(w, f))
  }

  /** The watcher stays, and its failed attempts are forgotten. */
  function StartOver(st: State, w: Watcher): State {
    Changed(st, w.(failures := 0)).(log := st.log + [StartedOver(w.id)])
  }

  predicate Ends(outcome: WatchState) {
    outcome.Expired? || outcome.Invalidated?
  }

  /** The check and the dispatch of its cleanup as one step. */
  function CheckedAndDispatched(st: State, w: Watcher, outcome: WatchState, revived: bool, c: Claim, a: Answer,
      t: Timing, now: int): State {
    var ended := w.(state := outcome);
    var st1 := Changed(st, ended);
    CleanedUp(st1, ended, DispatchFate(t, st1.reg, ended, revived, c, a, now), c, a)
  }

  /** What an event does to the watcher it names. */
  function OnWatcher(st: State, e: Event, w: Watcher): State {
    match e
    case Checked(_, outcome) => if Active(w) && Ends(outcome) then Changed(st, w.(state := outcome)) else st
    case Decided(_, outcome, revived, c, a, t, now) =>
      if Active(w) && Ends(outcome) then CheckedAndDispatched(st, w, outcome, revived, c, a, t, now) else st
    case Converged(_, subject, read) =>
      if Active(w) && D.ConvergeFate(subject, read).Removed?
      then Meet(st, w, Leaves, ByConvergence(w, subject, read), [Completed(w.id)])
      else st
    case CallbackDone(_, subject, claim, seen, clock) =>
      if Active(w) && D.TriggerFate(subject, claim, seen.probe, seen.fallback, seen.recheck, clock).Removed?
      then Meet(st, w, Leaves, ByCallback(w, subject, claim, seen, clock), [Completed(w.id)])
      else st
    case CallbackRaised(_, written, a, t, now) =>
      if !Active(w) then st else
      var f := FailureFate(t, st.reg, w, written, a, now);
      Meet(st, w, f, ByCleanup(w, ExhaustionClaim(w), a), FailureNotes(w, f))
    case CallbackRewound(_) => if Active(w) then StartOver(st, w) else st
    case RetryNoteLost(_, t, now) =>
      if Active(w) && w.overnight then Changed(st, Quarantine(t, w, now)) else st
    case Dispatch(_, c, a, t, now) =>
      if !Ended(w) || w.quarantined then st else CleanedUp(st, w, DispatchFate(t, st.reg, w, false, c, a, now), c, a)
    case RetryCleanup(_, revived, c, a, t, now) =>
      if !w.quarantined then st else CleanedUp(st, w, RetryFate(t, st.reg, w, revived, c, a, now), c, a)
    case _ => st
  }

  predicate Names(e: Event) {
    !e.Arm? && !e.SweepRearms? && !e.DayClose? && !e.RowMoves?
  }

  /** Both views show one status, and a row moves only along the transition table. */
  predicate LegalMove(rows: map<string, Durable>, d: Durable) {
    && d.full.status == Some(d.row.status)
    && (d.row.order in rows ==>
          rows[d.row.order].row.status == d.row.status || CanTransition(rows[d.row.order].row.status, d.row.status))
  }

  function Next(st: State, e: Event): State {
    if Names(e) then
      var w := Get(st.reg.pending, e.id);
      if w.Some? then OnWatcher(st, e, w.value) else st
    else
      match e
      case Arm(q) =>
        var r := Admit(st.reg, q);
        st.(reg := r.reg, log := if r.accepted then st.log + [Armed(q.w.id)] else st.log)
      case SweepRearms(r, now, prices) => st.(reg := st.reg.(pending := Sweep(r, st.reg.pending, now, prices)))
      case DayClose => st.(reg := CloseDay(st.reg))
      case RowMoves(d) =>
        if LegalMove(st.rows, d) then st.(rows := st.rows[d.row.order := d], past := st.past + {d}) else st
      case _ => st
  }

  function Run(st: State, es: seq<Event>): State {
    if |es| == 0 then st else Next(Run(st, es[..|es| - 1]), es[|es| - 1])
  }

  /** The process starts with no watchers over any table of rows. */
  ghost predicate Start(st: State) {
    && st.reg == Reg([], {}) && st.gone == [] && st.log == []
    && (forall k :: k in st.rows ==> st.rows[k].row.order == k && st.rows[k].full.status == Some(st.rows[k].row.status))
    && (forall d :: d in st.past <==> d.row.order in st.rows && st.rows[d.row.order] == d)
  }

  ghost predicate WellFormed(es: seq<Event>) {
    forall e :: e in es && e.Arm? ==> NewRequest(e.q)
  }

  /** What a history may contain: a poll can end an active watcher as expired or invalidated, and nothing
      else. */
  lemma ChecksTakeEffectIff(st: State, w: Watcher, outcome: WatchState)
    requires Get(st.reg.pending, w.id) == Some(w) && outcome != w.state
    ensures Next(st, Checked(w.id, outcome)).reg.pending == Replace(st.reg.pending, w.(state := outcome)) <==>
              w.state == Pending && !w.rearm && !w.quarantined && (outcome == Expired || outcome == Invalidated)
  {
    var i :| 0 <= i < |st.reg.pending| && st.reg.pending[i] == w;
    assert Replace(st.reg.pending, w.(state := outcome))[i] == w.(state := outcome);
  }

  /** And a row changes exactly if it is new, keeps its status or moves along the table, with one status
      in both views. */
  lemma RowsMoveIff(st: State, d: Durable)
    requires d !in st.past
    ensures d in Next(st, RowMoves(d)).past <==>
              && d.full.status == Some(d.row.status)
              && (d.row.order in st.rows ==>
                    || d.row.status == st.rows[d.row.order].row.status
                    || CanTransition(st.rows[d.row.order].row.status, d.row.status))
  {
  }

  // ---- The registry over all histories ----

  /** How a named watcher may change. */
  ghost predicate FairFate(w: Watcher, f: Fate) {
    f.Stays? ==> KeepsStanding(w, f.w)
  }

  lemma FatesAreFair(st: State, w: Watcher, revived: bool, written: bool, c: Claim, a: Answer, t: Timing, now: int)
    requires Sound(w) && !w.rearm
    ensures FairFate(w, DispatchFate(t, st.reg, w, false, c, a, now))
    ensures w.quarantined ==> FairFate(w, RetryFate(t, st.reg, w, revived, c, a, now))
    ensures Active(w) ==> FairFate(w, FailureFate(t, st.reg, w, written, a, now))
  {
  }

  lemma MeetKeeps(st: State, w: Watcher, f: Fate, d: Departure, notes: seq<Note>)
    requires RegInv(st.reg) && w in st.reg.pending && FairFate(w, f)
    ensures RegInv(Meet(st, w, f, d, notes).reg)
    ensures OnePerTicker(st.reg.pending) ==> OnePerTicker(Meet(st, w, f, d, notes).reg.pending)
  {
    if f.Leaves? { RemoveKeeps(st.reg, w.id); } else { ReplaceKeeps(st.reg, w, f.w); }
  }

  lemma ReplaceTwice(ws: seq<Watcher>, v: Watcher, w: Watcher)
    requires v.id == w.id
    ensures Replace(Replace(ws, v), w) == Replace(ws, w)
  {
  }

  lemma DecidedFateIsFair(reg: Reg, w: Watcher, outcome: WatchState, revived: bool, c: Claim, a: Answer, t: Timing,
      now: int)
    requires Active(w) && Ends(outcome)
    ensures FairFate(w, DispatchFate(t, reg, w.(state := outcome), revived, c, a, now))
        && KeepsStanding(w, w.(state := outcome))
  {
  }

  lemma TwoFatesKeep(reg: Reg, w: Watcher, ended: Watcher, f: Fate)
    requires RegInv(reg) && w in reg.pending && KeepsStanding(w, ended) && FairFate(w, f)
    ensures var after := ApplyFate(ApplyFate(reg, w.id, Stays(ended)), w.id, f);
            RegInv(after) && (OnePerTicker(reg.pending) ==> OnePerTicker(after.pending))
  {
    ReplaceKeeps(reg, w, ended);
    if f.Leaves? {
      RemoveKeeps(ApplyFate(reg, w.id, Stays(ended)), w.id);
    } else {
      ReplaceTwice(reg.pending, ended, f.w);
      ReplaceKeeps(reg, w, f.w);
    }
  }

  /** Checked and dispatched in one step, a watcher stands at most as it stood, even revived. */
  lemma DecidedKeeps(st: State, w: Watcher, outcome: WatchState, revived: bool, c: Claim, a: Answer, t: Timing,
      now: int)
    requires RegInv(st.reg) && w in st.reg.pending && Active(w) && Ends(outcome)
    ensures var after := CheckedAndDispatched(st, w, outcome, revived, c, a, t, now).reg;
            RegInv(after) && (OnePerTicker(st.reg.pending) ==> OnePerTicker(after.pending))
  {
    var ended := w.(state := outcome);
    var reg1 := Changed(st, ended).reg;
    DecidedFateIsFair(reg1, w, outcome, revived, c, a, t, now);
    TwoFatesKeep(st.reg, w, ended, DispatchFate(t, reg1, ended, revived, c, a, now));
  }

  lemma OnWatcherKeeps(st: State, e: Event, w: Watcher)
    requires RegInv(st.reg) && w in st.reg.pending
    ensures RegInv(OnWatcher(st, e, w).reg)
    ensures OnePerTicker(st.reg.pending) ==> OnePerTicker(OnWatcher(st, e, w).reg.pending)
  {
    match e
    case Checked(_, _) => CheckKeeps(st, e, w);
    case Decided(_, _, _, _, _, _, _) => CheckKeeps(st, e, w);
    case Converged(_, _, _) => LeavingKeeps(st, e, w);
    case CallbackDone(_, _, _, _, _) => LeavingKeeps(st, e, w);
    case CallbackRewound(_) => StartOverKeeps(st, w);
    case CallbackRaised(_, _, _, _, _) => FailureKeeps(st, e, w);
    case RetryNoteLost(_, t, now) => if Active(w) { QuarantineKeeps(st, w, t, now); }
    case Dispatch(_, _, _, _, _) => LateCleanupKeeps(st, e, w);
    case RetryCleanup(_, _, _, _, _, _) => LateCleanupKeeps(st, e, w);
    case _ =>
  }

  lemma CheckKeeps(st: State, e: Event, w: Watcher)
    requires RegInv(st.reg) && w in st.reg.pending && (e.Checked? || e.Decided?)
    ensures RegInv(OnWatcher(st, e, w).reg)
    ensures OnePerTicker(st.reg.pending) ==> OnePerTicker(OnWatcher(st, e, w).reg.pending)
  {
    if Active(w) && Ends(e.outcome) {
      if e.Checked? {
        ReplaceKeeps(st.reg, w, w.(state := e.outcome));
      } else {
        DecidedKeeps(st, w, e.outcome, e.revived, e.c, e.a, e.t, e.now);
      }
    }
  }

  lemma LeavingKeeps(st: State, e: Event, w: Watcher)
    requires RegInv(st.reg) && w in st.reg.pending && (e.Converged? || e.CallbackDone?)
    ensures RegInv(OnWatcher(st, e, w).reg)
    ensures OnePerTicker(st.reg.pending) ==> OnePerTicker(OnWatcher(st, e, w).reg.pending)
  {
    RemoveKeeps(st.reg, w.id);
  }

  lemma StartOverKeeps(st: State, w: Watcher)
    requires RegInv(st.reg) && w in st.reg.pending
    ensures RegInv(StartOver(st, w).reg)
    ensures OnePerTicker(st.reg.pending) ==> OnePerTicker(StartOver(st, w).reg.pending)
  {
    ReplaceKeeps(st.reg, w, w.(failures := 0));
  }

  lemma QuarantineKeeps(st: State, w: Watcher, t: Timing, now: int)
    requires RegInv(st.reg) && w in st.reg.pending && Active(w)
    ensures RegInv(Changed(st, Quarantine(t, w, now)).reg)
    ensures OnePerTicker(st.reg.pending) ==> OnePerTicker(Changed(st, Quarantine(t, w, now)).reg.pending)
  {
    ReplaceKeeps(st.reg, w, Quarantine(t, w, now));
  }

  lemma FailureKeeps(st: State, e: Event, w: Watcher)
    requires RegInv(st.reg) && w in st.reg.pending && e.CallbackRaised?
    ensures RegInv(OnWatcher(st, e, w).reg)
    ensures OnePerTicker(st.reg.pending) ==> OnePerTicker(OnWatcher(st, e, w).reg.pending)
  {
    if Active(w) {
      FatesAreFair(st, w, false, e.written, Untyped, e.a, e.t, e.now);
      var f := FailureFate(e.t, st.reg, w, e.written, e.a, e.now);
      if f.Leaves? { RemoveKeeps(st.reg, w.id); } else { ReplaceKeeps(st.reg, w, f.w); }
    }
  }

  lemma LateCleanupKeeps(st: State, e: Event, w: Watcher)
    requires RegInv(st.reg) && w in st.reg.pending && (e.Dispatch? || e.RetryCleanup?)
    ensures RegInv(OnWatcher(st, e, w).reg)
    ensures OnePerTicker(st.reg.pending) ==> OnePerTicker(OnWatcher(st, e, w).reg.pending)
  {
    if e.Dispatch? && Ended(w) && !w.quarantined {
      FatesAreFair(st, w, false, false, e.c, e.a, e.t, e.now);
      CleanupKeeps(st, w, DispatchFate(e.t, st.reg, w, false, e.c, e.a, e.now), e.c, e.a);
    }
    if e.RetryCleanup? && w.quarantined {
      FatesAreFair(st, w, e.revived, false, e.c, e.a, e.t, e.now);
      CleanupKeeps(st, w, RetryFate(e.t, st.reg, w, e.revived, e.c, e.a, e.now), e.c, e.a);
    }
  }

  lemma CleanupKeeps(st: State, w: Watcher, f: Fate, c: Claim, a: Answer)
    requires RegInv(st.reg) && w in st.reg.pending && FairFate(w, f)
    ensures RegInv(CleanedUp(st, w, f, c, a).reg)
    ensures OnePerTicker(st.reg.pending) ==> OnePerTicker(CleanedUp(st, w, f, c, a).reg.pending)
  {
    MeetKeeps(st, w, f, ByCleanup(w, c, a), CleanupNotes(w, f));
  }

  lemma NextKeepsRegistry(st: State, e: Event)
    requires RegInv(st.reg) && (e.Arm? ==> NewRequest(e.q))
    ensures RegInv(Next(st, e).reg)
    ensures OnePerTicker(st.reg.pending) && !(e.Arm? && e.q.recovered) ==> OnePerTicker(Next(st, e).reg.pending)
  {
    if Names(e) {
      var w := Get(st.reg.pending, e.id);
      if w.Some? { OnWatcherKeeps(st, e, w.value); }
    } else {
      match e
      case Arm(q) => AdmitKeeps(st.reg, q);
      case SweepRearms(r, now, prices) => SweepKeeps(r, st.reg, now, prices);
      case DayClose => CloseDayKeeps(st.reg);
      case _ =>
    }
  }

  /** Over every history: pending ids are distinct and all block a second arm, a rearm-waiting
      watcher is PENDING, a quarantined one is not waiting; and unless a recovered trigger
      bypassed arbitration, one watcher per ticker at most takes part. */
  lemma {:induction false} RegistryInvariant(st: State, es: seq<Event>)
    requires Start(st) && WellFormed(es)
    ensures RegInv(Run(st, es).reg)
    ensures (forall e :: e in es && e.Arm? ==> !e.q.recovered) ==> OnePerTicker(Run(st, es).reg.pending)
  {
    if |es| > 0 {
      var init, e := es[..|es| - 1], es[|es| - 1];
      assert forall x :: x in init ==> x in es;
      RegistryInvariant(st, init);
      NextKeepsRegistry(Run(st, init), e);
    }
  }

  // ---- Why the check and the revival are one step ----

  /** A revival on its own keeps one watcher per ticker exactly when nobody else took the ticker. */
  lemma LateRevivalIsSafeIff(reg: Reg, w: Watcher)
    requires RegInv(reg) && OnePerTicker(reg.pending) && w in reg.pending
    requires w.state.Invalidated? && !w.rearm && !w.quarantined
    ensures OnePerTicker(Replace(reg.pending, AfterCallback(w, true)))
        <==> forall o :: o in reg.pending && Live(o) ==> o.ticker != w.ticker
  {
    var v := AfterCallback(w, true);
    var ws, r := reg.pending, Replace(reg.pending, v);
    var i :| 0 <= i < |ws| && ws[i] == w;
    forall j | 0 <= j < |ws| ensures r[j] == if j == i then v else ws[j] {
      if j != i { assert ws[j].id != ws[i].id; }
    }
    if o :| o in ws && Live(o) && o.ticker == w.ticker {
      var j :| 0 <= j < |ws| && ws[j] == o;
      assert Live(r[i]) && Live(r[j]) && r[i].ticker == r[j].ticker;
    }
  }

  /** The failing interleaving: a check that invalidates, an admission on the freed ticker, and only
      then the callback that revives. */
  lemma ArmBeforeRevivalBreaksTicker(reg: Reg, w: Watcher, q: Request)
    requires RegInv(reg) && OnePerTicker(reg.pending) && w in reg.pending && Active(w)
    requires var ended := w.(state := Invalidated);
             var reg1 := reg.(pending := Replace(reg.pending, ended));
             NewRequest(q) && !q.recovered && q.w.ticker == w.ticker && Admit(reg1, q).accepted
    ensures var ended := w.(state := Invalidated);
            var reg1 := reg.(pending := Replace(reg.pending, ended));
            ended in Admit(reg1, q).reg.pending
                && !OnePerTicker(Replace(Admit(reg1, q).reg.pending, AfterCallback(ended, true)))
  {
    var ended := w.(state := Invalidated);
    var reg1 := reg.(pending := Replace(reg.pending, ended));
    ReplaceKeeps(reg, w, ended);
    ReplacedStays(reg.pending, w, ended);
    AdmitKeeps(reg1, q);
    if ended !in Admit(reg1, q).reg.pending { DisplacedScores(reg1, q, ended); }
    LateRevivalIsSafeIff(Admit(reg1, q).reg, ended);
    ArmedStandsAlone(reg1, q);
  }

  // ---- Quarantine ----

  ghost predicate HeldInQuarantine(reg: Reg, id: string, order: string) {
    exists w :: w in reg.pending && w.id == id && w.order == order && w.quarantined && !Active(w)
  }

  /** Event `e` is a cleanup retry, due and in time, whose claim the row proves. */
  ghost predicate ReleasesBy(st: State, e: Event, id: string) {
    && e.RetryCleanup? && e.id == id
    && exists w :: w in st.reg.pending && w.id == id && Due(w, e.now) && Verify(st.reg, w, e.c, e.a).Terminalized?
         && (w.deadline.Some? ==> e.now <= w.deadline.value)
  }

  lemma ReplacedStays(ws: seq<Watcher>, was: Watcher, w: Watcher)
    requires was in ws && w.id == was.id
    ensures w in Replace(ws, w)
    ensures forall x :: x in ws && x.id != w.id ==> x in Replace(ws, w)
  {
    var r := Replace(ws, w);
    forall x | x in ws ensures (if x.id == w.id then w else x) in r {
      var i :| 0 <= i < |ws| && ws[i] == x;
      assert r[i] in r;
    }
  }

  lemma SweepKeepsOthers(r: RearmRules, ws: seq<Watcher>, now: int, prices: map<string, Prices>, w: Watcher)
    requires w in ws && !Waiting(w)
    ensures w in Sweep(r, ws, now, prices)
  {
    var i :| 0 <= i < |ws| && ws[i] == w;
    assert Sweep(r, ws, now, prices)[i] == w;
  }

  lemma ArmKeepsQuarantined(reg: Reg, q: Request, w: Watcher)
    requires RegInv(reg) && w in reg.pending && w.quarantined
    ensures w in Admit(reg, q).reg.pending
  {
    if w !in Admit(reg, q).reg.pending {
      DisplacedScores(reg, q, w);
    }
  }

  lemma RetryHoldsOrReleases(st: State, e: Event, w: Watcher)
    requires RegInv(st.reg) && w in st.reg.pending && w.quarantined && e.RetryCleanup? && e.id == w.id
    ensures HeldInQuarantine(OnWatcher(st, e, w).reg, w.id, w.order) || ReleasesBy(st, e, w.id)
  {
    var f := RetryFate(e.t, st.reg, w, e.revived, e.c, e.a, e.now);
    if f.Stays? {
      RetryKeepsId(e.t, st.reg, w, e.revived, e.c, e.a, e.now);
      ReplacedStays(st.reg.pending, w, f.w);
      assert f.w in OnWatcher(st, e, w).reg.pending;
    } else {
      RetryReleasesOnlyInTime(e.t, st.reg, w, e.revived, e.c, e.a, e.now);
    }
  }

  /** No event makes a quarantined watcher active or drops it, except a verified cleanup retry. */
  lemma QuarantineStep(st: State, e: Event, w: Watcher)
    requires RegInv(st.reg) && w in st.reg.pending && w.quarantined
    ensures HeldInQuarantine(Next(st, e).reg, w.id, w.order) || ReleasesBy(st, e, w.id)
  {
    var reg' := Next(st, e).reg;
    if Names(e) {
      var g := Get(st.reg.pending, e.id);
      if g.Some? && g.value.id != w.id {
        OthersUntouched(st, e, g.value, w);
      } else if g.Some? {
        SameId(st.reg.pending, g.value, w);
        if e.RetryCleanup? { RetryHoldsOrReleases(st, e, w); }
      }
    } else {
      match e
      case Arm(q) => ArmKeepsQuarantined(st.reg, q, w);
      case SweepRearms(r, now, prices) => SweepKeepsOthers(r, st.reg.pending, now, prices, w);
      case DayClose => assert Picks(StaysTonight, w);
      case _ =>
    }
  }

  lemma FateSparesOthers(reg: Reg, g: Watcher, f: Fate, w: Watcher)
    requires g in reg.pending && w in reg.pending && g.id != w.id && (f.Stays? ==> f.w.id == g.id)
    ensures w in ApplyFate(reg, g.id, f).pending
  {
    if f.Stays? { ReplacedStays(reg.pending, g, f.w); } else { assert Picks(IdNotIn({g.id}), w); }
  }

  lemma DecidedSparesOthers(
      st: State, g: Watcher, outcome: WatchState, revived: bool, c: Claim, a: Answer, t: Timing, now: int, w: Watcher)
    requires g in st.reg.pending && w in st.reg.pending && g.id != w.id
    ensures w in CheckedAndDispatched(st, g, outcome, revived, c, a, t, now).reg.pending
  {
    var ended := g.(state := outcome);
    var reg1 := Changed(st, ended).reg;
    ReplacedStays(st.reg.pending, g, ended);
    DispatchKeepsId(t, reg1, ended, revived, c, a, now);
    FateSparesOthers(reg1, ended, DispatchFate(t, reg1, ended, revived, c, a, now), w);
  }

  /** An event about one watcher leaves every other one in the registry as it was. */
  lemma OthersUntouched(st: State, e: Event, g: Watcher, w: Watcher)
    requires g in st.reg.pending && w in st.reg.pending && g.id != w.id
    ensures w in OnWatcher(st, e, g).reg.pending
  {
    match e
    case Checked(_, _) => CheckSparesOthers(st, e, g, w);
    case Decided(_, _, _, _, _, _, _) => CheckSparesOthers(st, e, g, w);
    case Converged(_, _, _) => CallbackSparesOthers(st, e, g, w);
    case CallbackDone(_, _, _, _, _) => CallbackSparesOthers(st, e, g, w);
    case CallbackRewound(_) => CallbackSparesOthers(st, e, g, w);
    case RetryNoteLost(_, _, _) => CallbackSparesOthers(st, e, g, w);
    case CallbackRaised(_, _, _, _, _) => FailureSparesOthers(st, e, g, w);
    case Dispatch(_, _, _, _, _) => DispatchSparesOthers(st, e, g, w);
    case RetryCleanup(_, _, _, _, _, _) => RetrySparesOthers(st, e, g, w);
    case _ =>
  }

  lemma CheckSparesOthers(st: State, e: Event, g: Watcher, w: Watcher)
    requires g in st.reg.pending && w in st.reg.pending && g.id != w.id && (e.Checked? || e.Decided?)
    ensures w in OnWatcher(st, e, g).reg.pending
  {
    if e.Checked? {
      ReplacedStays(st.reg.pending, g, g.(state := e.outcome));
    } else {
      DecidedSparesOthers(st, g, e.outcome, e.revived, e.c, e.a, e.t, e.now, w);
    }
  }

  lemma CallbackSparesOthers(st: State, e: Event, g: Watcher, w: Watcher)
    requires g in st.reg.pending && w in st.reg.pending && g.id != w.id
    requires e.Converged? || e.CallbackDone? || e.CallbackRewound? || e.RetryNoteLost?
    ensures w in OnWatcher(st, e, g).reg.pending
  {
    if e.Converged? || e.CallbackDone? {
      FateSparesOthers(st.reg, g, Leaves, w);
    } else if e.CallbackRewound? {
      ReplacedStays(st.reg.pending, g, g.(failures := 0));
    } else {
      ReplacedStays(st.reg.pending, g, Quarantine(e.t, g, e.now));
    }
  }

  lemma FailureSparesOthers(st: State, e: Event, g: Watcher, w: Watcher)
    requires g in st.reg.pending && w in st.reg.pending && g.id != w.id && e.CallbackRaised?
    ensures w in OnWatcher(st, e, g).reg.pending
  {
    FailureKeepsId(e.t, st.reg, g, e.written, e.a, e.now);
    FateSparesOthers(st.reg, g, FailureFate(e.t, st.reg, g, e.written, e.a, e.now), w);
  }

  lemma DispatchSparesOthers(st: State, e: Event, g: Watcher, w: Watcher)
    requires g in st.reg.pending && w in st.reg.pending && g.id != w.id && e.Dispatch?
    ensures w in OnWatcher(st, e, g).reg.pending
  {
    DispatchKeepsId(e.t, st.reg, g, false, e.c, e.a, e.now);
    FateSparesOthers(st.reg, g, DispatchFate(e.t, st.reg, g, false, e.c, e.a, e.now), w);
  }

  lemma RetrySparesOthers(st: State, e: Event, g: Watcher, w: Watcher)
    requires g in st.reg.pending && w in st.reg.pending && g.id != w.id && e.RetryCleanup?
    ensures w in OnWatcher(st, e, g).reg.pending
  {
    RetryKeepsId(e.t, st.reg, g, e.revived, e.c, e.a, e.now);
    FateSparesOthers(st.reg, g, RetryFate(e.t, st.reg, g, e.revived, e.c, e.a, e.now), w);
  }

  lemma QuarantineGoesOn(st: State, e: Event, id: string, order: string)
    requires RegInv(st.reg) && HeldInQuarantine(st.reg, id, order)
    ensures HeldInQuarantine(Next(st, e).reg, id, order) || ReleasesBy(st, e, id)
  {
    var w :| w in st.reg.pending && w.id == id && w.order == order && w.quarantined;
    QuarantineStep(st, e, w);
  }

  /** Some event of the history releases `id` by a verified retry. */
  ghost predicate Released(st: State, es: seq<Event>, id: string) {
    exists k :: 0 <= k < |es| && ReleasesBy(Run(st, es[..k]), es[k], id)
  }

  lemma ReleasedLater(st: State, es: seq<Event>, id: string)
    requires |es| > 0
    requires Released(st, es[..|es| - 1], id) || ReleasesBy(Run(st, es[..|es| - 1]), es[|es| - 1], id)
    ensures Released(st, es, id)
  {
    var init := es[..|es| - 1];
    if Released(st, init, id) {
      var k :| 0 <= k < |init| && ReleasesBy(Run(st, init[..k]), init[k], id);
      assert init[..k] == es[..k] && init[k] == es[k];
    }
  }

  /** Over any stretch of history a quarantined watcher is either still held, never active, or
      was released by a verified TERMINALIZED retry; running past its deadline changes nothing. */
  lemma {:induction false} QuarantineHolds(st: State, es: seq<Event>, w: Watcher)
    requires RegInv(st.reg) && WellFormed(es) && w in st.reg.pending && w.quarantined
    ensures HeldInQuarantine(Run(st, es).reg, w.id, w.order) || Released(st, es, w.id)
  {
    if |es| == 0 {
      assert w in Run(st, es).reg.pending;
    } else {
      var init := es[..|es| - 1];
      QuarantineHolds(st, init, w);
      if !Released(st, init, w.id) {
        RunKeepsRegistry(st, init);
        QuarantineGoesOn(Run(st, init), es[|es| - 1], w.id, w.order);
      }
      if Released(st, init, w.id) || ReleasesBy(Run(st, init), es[|es| - 1], w.id) {
        ReleasedLater(st, es, w.id);
      }
    }
  }

  lemma {:induction false} RunKeepsRegistry(st: State, es: seq<Event>)
    requires RegInv(st.reg) && WellFormed(es)
    ensures RegInv(Run(st, es).reg)
  {
    if |es| > 0 {
      var init := es[..|es| - 1];
      assert forall x :: x in init ==> x in es;
      RunKeepsRegistry(st, init);
      NextKeepsRegistry(Run(st, init), es[|es| - 1]);
    }
  }

  // ---- The retry bound ----

  /** Callback failures of `id` since its current arm, or since it last started over. */
  function Failures(log: seq<Note>, id: string): nat {
    if |log| == 0 || log[|log| - 1] == Armed(id) || log[|log| - 1] == StartedOver(id) then 0
    else Failures(log[..|log| - 1], id) + (if log[|log| - 1] == CallbackFailed(id) then 1 else 0)
  }

  /** Completions with removal of the current arm of `id`. */
  function Completions(log: seq<Note>, id: string): nat {
    if |log| == 0 || log[|log| - 1] == Armed(id) then 0
    else Completions(log[..|log| - 1], id) + (if log[|log| - 1] == Completed(id) then 1 else 0)
  }

  ghost predicate Tallied(log: seq<Note>, w: Watcher) {
    && Failures(log, w.id) == w.failures <= MAX_FAILURES && Completions(log, w.id) == 0
    && (w.failures == MAX_FAILURES ==> w.quarantined)
  }

  ghost predicate Bounded(log: seq<Note>, id: string) {
    Failures(log, id) <= MAX_FAILURES && Completions(log, id) <= 1
  }

  ghost predicate RetryInv(st: State) {
    (forall w :: w in st.reg.pending ==> Tallied(st.log, w)) && (forall id :: Bounded(st.log, id))
  }

  lemma NoteSnoc(log: seq<Note>, n: Note, id: string)
    ensures Failures(log + [n], id) == if n == Armed(id) || n == StartedOver(id) then 0
        else Failures(log, id) + (if n == CallbackFailed(id) then 1 else 0)
    ensures Completions(log + [n], id) == if n == Armed(id) then 0
        else Completions(log, id) + (if n == Completed(id) then 1 else 0)
  {
    assert (log + [n])[..|log|] == log;
  }

  /** A fate and the notes it leaves agree: failures are counted, and only leaving completes. */
  ghost predicate HonestNotes(w: Watcher, f: Fate, notes: seq<Note>) {
    && (notes == [] || notes == [CallbackFailed(w.id)] || notes == [Completed(w.id)]
        || notes == [CallbackFailed(w.id), Completed(w.id)])
    && (CallbackFailed(w.id) in notes ==> w.failures < MAX_FAILURES)
    && (f.Stays? ==>
          && Completed(w.id) !in notes && f.w.id == w.id
          && f.w.failures == w.failures + (if CallbackFailed(w.id) in notes then 1 else 0)
          && (w.quarantined ==> f.w.quarantined) && (f.w.failures == MAX_FAILURES ==> f.w.quarantined))
  }

  lemma NotesAdd(log: seq<Note>, w: Watcher, notes: seq<Note>, id: string)
    requires notes == [] || notes == [CallbackFailed(w.id)] || notes == [Completed(w.id)]
        || notes == [CallbackFailed(w.id), Completed(w.id)]
    ensures Failures(log + notes, id) == Failures(log, id)
        + (if id == w.id && CallbackFailed(w.id) in notes then 1 else 0)
    ensures Completions(log + notes, id) == Completions(log, id)
        + (if id == w.id && Completed(w.id) in notes then 1 else 0)
  {
    if notes == [] {
      assert log + notes == log;
    } else if notes == [CallbackFailed(w.id), Completed(w.id)] {
      NoteSnoc(log, CallbackFailed(w.id), id);
      NoteSnoc(log + [CallbackFailed(w.id)], Completed(w.id), id);
      assert log + notes == log + [CallbackFailed(w.id)] + [Completed(w.id)];
    } else {
      NoteSnoc(log, notes[0], id);
    }
  }

  lemma MeetKeepsTallies(st: State, w: Watcher, f: Fate, d: Departure, notes: seq<Note>, x: Watcher)
    requires RegInv(st.reg) && RetryInv(st) && w in st.reg.pending && HonestNotes(w, f, notes)
    requires x in Meet(st, w, f, d, notes).reg.pending
    ensures Tallied(st.log + notes, x)
  {
    NotesAdd(st.log, w, notes, x.id);
    if f.Leaves? {
      RemoveKeeps(st.reg, w.id);
    } else {
      var after := Meet(st, w, f, d, notes).reg.pending;
      var i :| 0 <= i < |after| && after[i] == x;
      assert st.reg.pending[i] in st.reg.pending;
      if st.reg.pending[i].id == w.id { SameId(st.reg.pending, st.reg.pending[i], w); }
    }
  }

  lemma MeetKeepsRetryBound(st: State, w: Watcher, f: Fate, d: Departure, notes: seq<Note>)
    requires RegInv(st.reg) && RetryInv(st) && w in st.reg.pending && HonestNotes(w, f, notes)
    ensures RetryInv(Meet(st, w, f, d, notes))
  {
    var after := Meet(st, w, f, d, notes);
    forall id ensures Bounded(after.log, id) {
      NotesAdd(st.log, w, notes, id);
      assert Bounded(st.log, id);
    }
    forall x | x in after.reg.pending ensures Tallied(after.log, x) {
      MeetKeepsTallies(st, w, f, d, notes, x);
    }
  }

  function CleanupNotes(w: Watcher, f: Fate): seq<Note> {
    if f.Leaves? then [Completed(w.id)] else []
  }

  function FailureNotes(w: Watcher, f: Fate): seq<Note> {
    if f.Leaves? then [CallbackFailed(w.id), Completed(w.id)] else [CallbackFailed(w.id)]
  }

  lemma DispatchIsHonest(st: State, w: Watcher, revived: bool, c: Claim, a: Answer, t: Timing, now: int)
    requires w.failures <= MAX_FAILURES && (w.failures == MAX_FAILURES ==> w.quarantined)
    ensures var f := DispatchFate(t, st.reg, w, revived, c, a, now); HonestNotes(w, f, CleanupNotes(w, f))
  {
  }

  lemma RetryIsHonest(st: State, w: Watcher, revived: bool, c: Claim, a: Answer, t: Timing, now: int)
    requires w.failures <= MAX_FAILURES && w.quarantined
    ensures var f := RetryFate(t, st.reg, w, revived, c, a, now); HonestNotes(w, f, CleanupNotes(w, f))
  {
  }

  lemma FailureIsHonest(st: State, w: Watcher, written: bool, a: Answer, t: Timing, now: int)
    requires w.failures <= MAX_FAILURES && (w.failures == MAX_FAILURES ==> w.quarantined) && Active(w)
    ensures var f := FailureFate(t, st.reg, w, written, a, now); HonestNotes(w, f, FailureNotes(w, f))
  {
  }

  lemma ChangeKeepsRetryBound(st: State, was: Watcher, w: Watcher)
    requires RegInv(st.reg) && RetryInv(st) && was in st.reg.pending && w.id == was.id && w.failures == was.failures
    requires (was.quarantined ==> w.quarantined) && (w.failures == MAX_FAILURES ==> w.quarantined)
    ensures RetryInv(Changed(st, w))
  {
    assert st.log + [] == st.log;
    MeetKeepsRetryBound(st, was, Stays(w), ByCleanup(was, Untyped, NoAnswer), []);
  }

  lemma CleanupKeepsRetryBound(st: State, w: Watcher, f: Fate, c: Claim, a: Answer)
    requires RegInv(st.reg) && RetryInv(st) && w in st.reg.pending
    requires HonestNotes(w, f, CleanupNotes(w, f))
    ensures RetryInv(CleanedUp(st, w, f, c, a))
  {
    MeetKeepsRetryBound(st, w, f, ByCleanup(w, c, a), CleanupNotes(w, f));
  }

  lemma DecidedKeepsRetryBound(
      st: State, w: Watcher, outcome: WatchState, revived: bool, c: Claim, a: Answer, t: Timing, now: int)
    requires RegInv(st.reg) && RetryInv(st) && w in st.reg.pending && Active(w) && Ends(outcome)
    ensures RetryInv(CheckedAndDispatched(st, w, outcome, revived, c, a, t, now))
  {
    var ended := w.(state := outcome);
    var st1 := Changed(st, ended);
    assert Tallied(st.log, w);
    ChangeKeepsRetryBound(st, w, ended);
    ReplaceKeeps(st.reg, w, ended);
    ReplacedStays(st.reg.pending, w, ended);
    DispatchIsHonest(st1, ended, revived, c, a, t, now);
    CleanupKeepsRetryBound(st1, ended, DispatchFate(t, st1.reg, ended, revived, c, a, now), c, a);
  }

  lemma StartOverKeepsRetryBound(st: State, w: Watcher)
    requires RegInv(st.reg) && RetryInv(st) && w in st.reg.pending && Active(w)
    ensures RetryInv(StartOver(st, w))
  {
    var st' := StartOver(st, w);
    forall id ensures Bounded(st'.log, id) {
      NoteSnoc(st.log, StartedOver(w.id), id);
      assert Bounded(st.log, id);
    }
    forall x | x in st'.reg.pending ensures Tallied(st'.log, x) {
      NoteSnoc(st.log, StartedOver(w.id), x.id);
      var i :| 0 <= i < |st'.reg.pending| && st'.reg.pending[i] == x;
      assert st.reg.pending[i] in st.reg.pending;
      assert Tallied(st.log, w);
      if st.reg.pending[i].id == w.id { SameId(st.reg.pending, st.reg.pending[i], w); }
    }
  }

  lemma OnWatcherKeepsRetryBound(st: State, e: Event, w: Watcher)
    requires RegInv(st.reg) && RetryInv(st) && w in st.reg.pending
    ensures RetryInv(OnWatcher(st, e, w))
  {
    assert Tallied(st.log, w);
    match e
    case Checked(_, outcome) => if Active(w) && Ends(outcome) { ChangeKeepsRetryBound(st, w, w.(state := outcome)); }
    case Decided(_, outcome, revived, c, a, t, now) =>
      if Active(w) && Ends(outcome) { DecidedKeepsRetryBound(st, w, outcome, revived, c, a, t, now); }
    case Converged(_, subject, read) =>
      if OnWatcher(st, e, w) != st {
        MeetKeepsRetryBound(st, w, Leaves, ByConvergence(w, subject, read), [Completed(w.id)]);
      }
    case CallbackRewound(_) => if Active(w) { StartOverKeepsRetryBound(st, w); }
    case CallbackDone(_, subject, claim, seen, clock) =>
      if OnWatcher(st, e, w) != st {
        MeetKeepsRetryBound(st, w, Leaves, ByCallback(w, subject, claim, seen, clock), [Completed(w.id)]);
      }
    case CallbackRaised(_, written, a, t, now) =>
      if Active(w) {
        FailureIsHonest(st, w, written, a, t, now);
        var f := FailureFate(t, st.reg, w, written, a, now);
        MeetKeepsRetryBound(st, w, f, ByCleanup(w, ExhaustionClaim(w), a), FailureNotes(w, f));
      }
    case RetryNoteLost(_, t, now) =>
      if Active(w) && w.overnight { ChangeKeepsRetryBound(st, w, Quarantine(t, w, now)); }
    case Dispatch(_, c, a, t, now) =>
      if Ended(w) && !w.quarantined {
        DispatchIsHonest(st, w, false, c, a, t, now);
        CleanupKeepsRetryBound(st, w, DispatchFate(t, st.reg, w, false, c, a, now), c, a);
      }
    case RetryCleanup(_, revived, c, a, t, now) =>
      if w.quarantined {
        RetryIsHonest(st, w, revived, c, a, t, now);
        CleanupKeepsRetryBound(st, w, RetryFate(t, st.reg, w, revived, c, a, now), c, a);
      }
    case _ =>
  }

  lemma ArmKeepsRetryBound(st: State, q: Request)
    requires RegInv(st.reg) && RetryInv(st) && NewRequest(q)
    ensures RetryInv(Next(st, Arm(q)))
  {
    var st' := Next(st, Arm(q));
    forall id ensures Bounded(st'.log, id) {
      NoteSnoc(st.log, Armed(q.w.id), id);
      assert Bounded(st.log, id);
    }
    forall x | x in st'.reg.pending ensures Tallied(st'.log, x) {
      NoteSnoc(st.log, Armed(q.w.id), x.id);
      AdmitMembers(st.reg, q, x);
    }
  }

  lemma AdmitMembers(reg: Reg, q: Request, x: Watcher)
    requires RegInv(reg) && x in Admit(reg, q).reg.pending
    ensures x in reg.pending || (x == q.w && Admit(reg, q).accepted)
    ensures Admit(reg, q).accepted && x in reg.pending ==> x.id != q.w.id
  {
    var pruned, rivals, same := Pruned(reg.pending, q), Rivals(reg.pending, q), Filter(reg.pending, SameSideAs(q));
    DropMembers(reg, pruned, x);
    DropMembers(Drop(reg, pruned), rivals, x);
    DropMembers(Drop(Drop(reg, pruned), rivals), same, x);
  }

  lemma SweepKeepsTallies(st: State, r: RearmRules, now: int, prices: map<string, Prices>, x: Watcher)
    requires RetryInv(st) && x in Sweep(r, st.reg.pending, now, prices)
    ensures Tallied(st.log, x)
  {
    var s := Sweep(r, st.reg.pending, now, prices);
    var i :| 0 <= i < |s| && s[i] == x;
    assert st.reg.pending[i] in st.reg.pending && Tallied(st.log, st.reg.pending[i]);
  }

  lemma NextKeepsRetryBound(st: State, e: Event)
    requires RegInv(st.reg) && RetryInv(st) && (e.Arm? ==> NewRequest(e.q))
    ensures RetryInv(Next(st, e))
  {
    if Names(e) {
      var w := Get(st.reg.pending, e.id);
      if w.Some? { OnWatcherKeepsRetryBound(st, e, w.value); }
    } else {
      match e
      case Arm(q) => ArmKeepsRetryBound(st, q);
      case SweepRearms(r, now, prices) =>
        forall x | x in Sweep(r, st.reg.pending, now, prices) ensures Tallied(st.log, x) {
          SweepKeepsTallies(st, r, now, prices, x);
        }
      case _ =>
    }
  }

  /** Over every history: within one arm the trigger callback fails at most three times between two
      direction reversals that start the watcher over, the watcher leaves completed at most once,
      and after its third failure it is quarantined or gone. */
  lemma {:induction false} RetryBound(st: State, es: seq<Event>)
    requires Start(st) && WellFormed(es)
    ensures RetryInv(Run(st, es))
  {
    if |es| > 0 {
      var init := es[..|es| - 1];
      assert forall x :: x in init ==> x in es;
      RetryBound(st, init);
      RegistryInvariant(st, init);
      NextKeepsRetryBound(Run(st, init), es[|es| - 1]);
    }
  }
}
