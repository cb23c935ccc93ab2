/**
 Which ids block a second arm, over whole histories: exactly those of the listed watchers, and those
 that an end-of-day close took off the list without releasing them.
 */
module Blocking {
  import opened Common
  import SignalMachine
  import opened Registry
  import opened Completion
  import opened Arming
  import opened Histories

  /** The ids of the listed watchers, and some more that nobody on the list has, are blocked. */
  ghost predicate Blocks(reg: Reg, more: set<string>) {
    reg.dedup == Ids(reg.pending) + more && Ids(reg.pending) !! more
  }

  /** What the closes so far have taken off the list. */
  ghost function ClosedOut(st: State, es: seq<Event>): set<string> {
    if |es| == 0 then {}
    else
      var before := Run(st, es[..|es| - 1]).reg.pending;
      ClosedOut(st, es[..|es| - 1])
      + (if es[|es| - 1].DayClose? then Ids(before) - Ids(Run(st, es).reg.pending) else {})
  }

  lemma SameIdsEverywhere(ws: seq<Watcher>, vs: seq<Watcher>)
    requires |ws| == |vs| && forall i :: 0 <= i < |ws| ==> ws[i].id == vs[i].id
    ensures Ids(ws) == Ids(vs)
  {
    forall id ensures id in Ids(ws) <==> id in Ids(vs) {
      if id in Ids(ws) {
        var i :| 0 <= i < |ws| && ws[i].id == id;
        assert vs[i] in vs;
      }
      if id in Ids(vs) {
        var i :| 0 <= i < |vs| && vs[i].id == id;
        assert ws[i] in ws;
      }
    }
  }

  lemma RemoveBlocks(reg: Reg, id: string, more: set<string>)
    requires Blocks(reg, more) && id in Ids(reg.pending)
    ensures Blocks(Remove(reg, id), more)
  {
    assert Ids(Remove(reg, id).pending) == Ids(reg.pending) - {id};
  }

  lemma ReplaceBlocks(reg: Reg, w: Watcher, more: set<string>)
    requires Blocks(reg, more)
    ensures Blocks(reg.(pending := Replace(reg.pending, w)), more)
  {
    SameIdsEverywhere(reg.pending, Replace(reg.pending, w));
  }

  lemma FateBlocks(reg: Reg, w: Watcher, f: Fate, more: set<string>)
    requires Blocks(reg, more) && w.id in Ids(reg.pending)
    ensures Blocks(ApplyFate(reg, w.id, f), more)
  {
    match f
    case Leaves => RemoveBlocks(reg, w.id, more);
    case Stays(v) => ReplaceBlocks(reg, v, more);
  }

  lemma Exchanged(reg: Reg, reg': Reg, more: set<string>, lost: set<string>, added: set<string>)
    requires Blocks(reg, more) && lost <= Ids(reg.pending) && added !! reg.dedup
    requires reg'.dedup == reg.dedup - lost + added && Ids(reg'.pending) == Ids(reg.pending) - lost + added
    ensures Blocks(reg', more)
  {
  }

  /** What the admission laws say of the ids, listed and blocked. */
  ghost predicate ExchangesIds(reg: Reg, r: Admission, id: string) {
    var lost, added := Lost(reg.pending, r.reg.pending), if r.accepted then {id} else {};
    r.reg.dedup == reg.dedup - lost + added && Ids(r.reg.pending) == Ids(reg.pending) - lost + added
  }

  lemma ExchangeBlocks(reg: Reg, r: Admission, id: string, more: set<string>)
    requires Blocks(reg, more) && id !in reg.dedup && ExchangesIds(reg, r, id)
    ensures Blocks(r.reg, more)
  {
    Exchanged(reg, r.reg, more, Lost(reg.pending, r.reg.pending), if r.accepted then {id} else {});
  }

  lemma AdmissionExchanges(reg: Reg, q: Request)
    requires RegInv(reg) && q.w.id !in reg.dedup
    ensures ExchangesIds(reg, Admit(reg, q), q.w.id)
  {
    AdmissionFreesTheDisplaced(reg, q);
    ListedAfter(reg, q);
    assert Ids([]) == {} && Ids([q.w]) == {q.w.id};
  }

  lemma ArmBlocks(reg: Reg, q: Request, more: set<string>)
    requires RegInv(reg) && Blocks(reg, more)
    ensures Blocks(Admit(reg, q).reg, more)
  {
    if q.w.id in reg.dedup {
      AdmissionDecides(reg, q);
    } else {
      AdmissionExchanges(reg, q);
      ExchangeBlocks(reg, Admit(reg, q), q.w.id, more);
    }
  }

  /** The ids of a list that lost some members and may have gained one. */
  lemma IdsAfter(before: seq<Watcher>, after: seq<Watcher>, added: seq<Watcher>)
    requires Distinct(before)
    requires forall o :: o in after ==> o in before || o in added
    requires forall o :: o in added ==> o in after
    ensures Ids(after) == Ids(before) - Lost(before, after) + Ids(added)
  {
    forall id ensures id in Ids(after) <==> id in Ids(before) - Lost(before, after) + Ids(added) {
      if w :| w in before && w.id == id {
        forall v | v in before && v.id == id ensures v == w { SameId(before, v, w); }
      }
    }
  }

  lemma ListedAfter(reg: Reg, q: Request)
    requires RegInv(reg) && q.w.id !in reg.dedup
    ensures var r := Admit(reg, q);
            Ids(r.reg.pending) == Ids(reg.pending) - Lost(reg.pending, r.reg.pending)
                                  + Ids(if r.accepted then [q.w] else [])
  {
    var r := Admit(reg, q);
    forall o | o in r.reg.pending ensures o in reg.pending || (r.accepted && o == q.w) {
      AdmissionDisplaces(reg, q, o);
    }
    AdmissionDisplaces(reg, q, q.w);
    IdsAfter(reg.pending, r.reg.pending, if r.accepted then [q.w] else []);
  }

  lemma LeavingBlocks(st: State, e: Event, w: Watcher, more: set<string>)
    requires Blocks(st.reg, more) && w in st.reg.pending && (e.Converged? || e.CallbackDone?)
    ensures Blocks(OnWatcher(st, e, w).reg, more)
  {
    RemoveBlocks(st.reg, w.id, more);
  }

  lemma StayingBlocks(st: State, e: Event, w: Watcher, more: set<string>)
    requires Blocks(st.reg, more) && w in st.reg.pending && (e.Checked? || e.CallbackRewound? || e.RetryNoteLost?)
    ensures Blocks(OnWatcher(st, e, w).reg, more)
  {
    if e.Checked? { ReplaceBlocks(st.reg, w.(state := e.outcome), more); }
    if e.CallbackRewound? { ReplaceBlocks(st.reg, w.(failures := 0), more); }
    if e.RetryNoteLost? { ReplaceBlocks(st.reg, Quarantine(e.t, w, e.now), more); }
  }

  lemma RaisedBlocks(st: State, e: Event, w: Watcher, more: set<string>)
    requires Blocks(st.reg, more) && w in st.reg.pending && e.CallbackRaised?
    ensures Blocks(OnWatcher(st, e, w).reg, more)
  {
    FateBlocks(st.reg, w, FailureFate(e.t, st.reg, w, e.written, e.a, e.now), more);
  }

  lemma CleanupBlocks(st: State, e: Event, w: Watcher, more: set<string>)
    requires Blocks(st.reg, more) && w in st.reg.pending && (e.Dispatch? || e.RetryCleanup?)
    ensures Blocks(OnWatcher(st, e, w).reg, more)
  {
    if e.Dispatch? {
      FateBlocks(st.reg, w, DispatchFate(e.t, st.reg, w, false, e.c, e.a, e.now), more);
    } else {
      FateBlocks(st.reg, w, RetryFate(e.t, st.reg, w, e.revived, e.c, e.a, e.now), more);
    }
  }

  lemma OnWatcherBlocks(st: State, e: Event, w: Watcher, more: set<string>)
    requires RegInv(st.reg) && Blocks(st.reg, more) && w in st.reg.pending && Names(e)
    ensures Blocks(OnWatcher(st, e, w).reg, more)
  {
    if e.Converged? || e.CallbackDone? {
      LeavingBlocks(st, e, w, more);
    } else if e.Checked? || e.CallbackRewound? || e.RetryNoteLost? {
      StayingBlocks(st, e, w, more);
    } else if e.CallbackRaised? {
      RaisedBlocks(st, e, w, more);
    } else if e.Dispatch? || e.RetryCleanup? {
      CleanupBlocks(st, e, w, more);
    } else {
      DecidedBlocks(st, w, e.outcome, e.revived, e.c, e.a, e.t, e.now, more);
    }
  }

  lemma DecidedBlocks(st: State, w: Watcher, outcome: SignalMachine.WatchState, revived: bool, c: Claim, a: Answer,
      t: Timing, now: int, more: set<string>)
    requires Blocks(st.reg, more) && w in st.reg.pending
    ensures Blocks(CheckedAndDispatched(st, w, outcome, revived, c, a, t, now).reg, more)
  {
    var ended := w.(state := outcome);
    var st1 := Changed(st, ended);
    ReplaceBlocks(st.reg, ended, more);
    SameIdsEverywhere(st.reg.pending, st1.reg.pending);
    FateBlocks(st1.reg, ended, DispatchFate(t, st1.reg, ended, revived, c, a, now), more);
  }

  lemma CloseBlocks(reg: Reg, more: set<string>)
    requires Blocks(reg, more)
    ensures Blocks(CloseDay(reg), more + (Ids(reg.pending) - Ids(CloseDay(reg).pending)))
  {
    assert forall w :: w in CloseDay(reg).pending ==> w in reg.pending;
    assert Ids(CloseDay(reg).pending) <= Ids(reg.pending);
  }

  lemma NextBlocks(st: State, e: Event, more: set<string>)
    requires RegInv(st.reg) && Blocks(st.reg, more)
    ensures var s := Next(st, e);
            Blocks(s.reg, more + (if e.DayClose? then Ids(st.reg.pending) - Ids(s.reg.pending) else {}))
  {
    assert more + {} == more;
    if Names(e) {
      var w := Get(st.reg.pending, e.id);
      if w.Some? { OnWatcherBlocks(st, e, w.value, more); }
    } else {
      match e
      case Arm(q) => ArmBlocks(st.reg, q, more);
      case SweepRearms(r, now, prices) => SameIdsEverywhere(st.reg.pending, Sweep(r, st.reg.pending, now, prices));
      case DayClose => CloseBlocks(st.reg, more);
      case _ =>
    }
  }

  /** Over every history: an id is blocked exactly if a listed watcher has it or a close has taken its
      watcher off the list.  So displacement, cleanup, convergence and accepted callbacks all release
      their ids, nothing else does, and an id closed out is never listed again. */
  lemma {:induction false} BlockedIdsAre(st: State, es: seq<Event>)
    requires Start(st) && WellFormed(es)
    ensures Run(st, es).reg.dedup == Ids(Run(st, es).reg.pending) + ClosedOut(st, es)
    ensures Ids(Run(st, es).reg.pending) !! ClosedOut(st, es)
  {
    if |es| > 0 {
      var init := es[..|es| - 1];
      assert forall x :: x in init ==> x in es;
      BlockedIdsAre(st, init);
      RegistryInvariant(st, init);
      NextBlocks(Run(st, init), es[|es| - 1], ClosedOut(st, init));
    }
  }
}
