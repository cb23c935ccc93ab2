/**
 The mutable entry watcher: the pending list and the set of armed ids, rewritten in loops as
 the source does, each method proved equal to the registry function it stands for.
 */
module EntryWatchers {
  import opened Common
  import SignalMachine
  import opened Registry
  import opened Completion

  class EntryWatcher {
    var pending: seq<Watcher>
    var dedup: set<string>

    function View(): Reg
      reads this
    {
      Reg(pending, dedup)
    }

    constructor ()
      ensures View() == Reg([], {})
    {
      pending, dedup := [], {};
    }

    static method Select(ws: seq<Watcher>, k: Pick) returns (r: seq<Watcher>)
      ensures r == Filter(ws, k)
    {
      r := [];
      for i := 0 to |ws|
        invariant r == Filter(ws[..i], k)
      {
        assert ws[..i + 1] == ws[..i] + [ws[i]];
        FilterSnoc(ws[..i], ws[i], k);
        if Picks(k, ws[i]) { r := r + [ws[i]]; }
      }
      assert ws[..|ws|] == ws;
    }

    static method Best(ws: seq<Watcher>) returns (b: Watcher)
      requires |ws| > 0
      ensures b == BestOf(ws)
    {
      b := ws[0];
      for i := 1 to |ws|
        invariant b == BestOf(ws[..i])
      {
        assert ws[..i + 1][..i] == ws[..i];
        if ws[i].score > b.score { b := ws[i]; }
      }
      assert ws[..|ws|] == ws;
    }

    /** Cancels the listed watchers: their ids may be armed again and they leave the list. */
    method Cancel(gone: seq<Watcher>)
      modifies this
      ensures View() == Drop(old(View()), gone)
    {
      var ids: set<string>, released: set<string> := {}, {};
      for i := 0 to |gone|
        invariant ids == Ids(gone[..i]) && released == Ids(Filter(gone[..i], NotEnded))
        invariant pending == old(pending) && dedup == old(dedup)
      {
        assert gone[..i + 1] == gone[..i] + [gone[i]];
        FilterSnoc(gone[..i], gone[i], NotEnded);
        IdsSnoc(gone[..i], gone[i]);
        IdsSnoc(Filter(gone[..i], NotEnded), gone[i]);
        ids := ids + {gone[i].id};
        if !Ended(gone[i]) { released := released + {gone[i].id}; }
      }
      assert gone[..|gone|] == gone;
      dedup := dedup - released;
      pending := Select(pending, IdNotIn(ids));
    }

    /** The newcomer must beat the best fresh opposite and outscore every same-side watcher. */
    method Arbitrate(q: Request, rivals: seq<Watcher>, same: seq<Watcher>) returns (armed: bool)
      modifies this
      ensures View() == Contest(old(View()), q, rivals, same).reg
          && armed == Contest(old(View()), q, rivals, same).accepted
    {
      if |rivals| > 0 {
        var best := Best(rivals);
        if !Beats(q.w, best) { return false; }
      }
      Cancel(rivals);
      if |same| > 0 {
        var best := Best(same);
        if q.w.score <= best.score { return false; }
      }
      Cancel(same);
      if !q.restored { return false; }
      dedup := dedup + {q.w.id};
      pending := pending + [q.w];
      return true;
    }

    /** Arms one signal, or refuses it. */
    method AddSignal(q: Request) returns (armed: bool)
      modifies this
      ensures View() == Admit(old(View()), q).reg && armed == Admit(old(View()), q).accepted
    {
      if q.w.id in dedup { return false; }
      var same := Select(pending, SameSideAs(q));
      var opposite := Select(pending, Opposing(q));
      var stale := Select(opposite, Weak(q));
      var rivals := Select(opposite, Rival(q));
      Cancel(stale);
      armed := Arbitrate(q, rivals, same);
    }

    method CheckRearmSignals(r: RearmRules, now: int, prices: map<string, Prices>)
      modifies this
      ensures View() == old(View()).(pending := Sweep(r, old(pending), now, prices))
    {
      var swept: seq<Watcher> := [];
      for i := 0 to |pending|
        invariant swept == Sweep(r, pending[..i], now, prices)
        invariant pending == old(pending) && dedup == old(dedup)
      {
        assert pending[..i + 1][..i] == pending[..i];
        var w := pending[i];
        if w.rearm && w.state.Pending? {
          if w.rearmExpires.Some? && now >= w.rearmExpires.value {
            w := w.(rearm := false, state := SignalMachine.Expired);
          } else if w.ticker in prices && Reclaimed(r, w, prices[w.ticker]) {
            if w.rearmCount >= r.maxAttempts {
              w := w.(rearm := false, state := SignalMachine.Expired);
            } else {
              w := w.(rearm := false, rearmCount := w.rearmCount + 1);
            }
          }
        }
        swept := swept + [w];
      }
      assert pending[..|pending|] == pending;
      pending := swept;
    }

    method CloseSameDay()
      modifies this
      ensures View() == CloseDay(old(View()))
    {
      pending := Select(pending, StaysTonight);
    }

    method Store(w: Watcher)
      modifies this
      ensures View() == old(View()).(pending := Replace(old(pending), w))
    {
      var stored: seq<Watcher> := [];
      for i := 0 to |pending|
        invariant stored == Replace(pending[..i], w)
        invariant pending == old(pending) && dedup == old(dedup)
      {
        assert pending[..i + 1][..i] == pending[..i];
        stored := stored + [if pending[i].id == w.id then w else pending[i]];
      }
      assert pending[..|pending|] == pending;
      pending := stored;
    }

    method Release(id: string)
      modifies this
      ensures View() == Remove(old(View()), id)
    {
      pending := Select(pending, IdNotIn({id}));
      dedup := dedup - {id};
    }

    method EnterQuarantine(t: Timing, w: Watcher, now: int)
      modifies this
      ensures View() == old(View()).(pending := Replace(old(pending), Quarantine(t, w, now)))
    {
      var deadline := if w.cleanups == 0 then Some(now + t.deadlineAfter) else w.deadline;
      Store(w.(quarantined := true, deadline := deadline, cleanups := w.cleanups + 1,
          retryAt := Some(now + t.retryDelay)));
    }

    /** Verifies the acknowledgment, then removes, quarantines or retains the watcher as the callback
        left it. */
    method DispatchCompletion(t: Timing, w: Watcher, revived: bool, c: Claim, a: Answer, now: int)
      modifies this
      ensures View() == ApplyFate(old(View()), w.id, DispatchFate(t, old(View()), w, revived, c, a, now))
    {
      var verified := Verify(View(), w, c, a);
      var kept := AfterCallback(w, revived);
      if verified.Terminalized? {
        Release(w.id);
      } else if verified.Failed? {
        EnterQuarantine(t, kept, now);
      } else {
        Store(kept);
      }
    }

    /** One due watcher of the quarantine sweep. */
    method RetryOne(t: Timing, w: Watcher, revived: bool, c: Claim, a: Answer, now: int)
      modifies this
      ensures View() == ApplyFate(old(View()), w.id, RetryFate(t, old(View()), w, revived, c, a, now))
    {
      if !Due(w, now) {
        Store(w);
      } else if w.deadline.Some? && now > w.deadline.value {
        Store(Escalated(w, now));
      } else {
        var verified := Verify(View(), w, c, a);
        if verified.Terminalized? {
          Release(w.id);
        } else {
          Store(Retried(t, AfterCallback(w, revived), now));
        }
      }
    }
  }

  lemma IdsSnoc(ws: seq<Watcher>, w: Watcher)
    ensures Ids(ws + [w]) == Ids(ws) + {w.id}
  {
    assert forall x :: x in ws + [w] <==> x in ws || x == w;
    assert w in ws + [w];
  }
}
