/**
 Who is armed, who has to go and which ids stay blocked, said over the watchers' own fields.
 */
module Arming {
  import opened Common
  import opened SignalMachine
  import opened Registry

  // ---- Who stands in the way ----

  /** A watcher on the request's ticker that watches, or waits to be rearmed. */
  ghost predicate OnTicker(q: Request, o: Watcher) {
    && !q.recovered && o.ticker == q.w.ticker
    && ((o.state == Pending && !o.rearm && !o.quarantined) || o.rearm)
  }

  /** An opposite that gives way at once: older than ten minutes, or only waiting to be rearmed, and
      in either case no stronger. */
  ghost predicate GivesWay(q: Request, o: Watcher) {
    o.score <= q.w.score && (o.rearm || q.now - o.createdAt > 600)
  }

  lemma WhoStandsInTheWay(pending: seq<Watcher>, q: Request, o: Watcher)
    requires o in pending && Sound(o)
    ensures o in Filter(pending, SameSideAs(q)) <==> OnTicker(q, o) && o.side == q.w.side
    ensures o in Pruned(pending, q) <==> OnTicker(q, o) && o.side != q.w.side && GivesWay(q, o)
    ensures o in Rivals(pending, q) <==> OnTicker(q, o) && o.side != q.w.side && !GivesWay(q, o)
  {
    assert o in Filter(pending, Opposing(q)) <==> OnTicker(q, o) && o.side != q.w.side;
  }

  /** The best of a list is the first of those nobody outscores. */
  lemma {:induction false} BestIsFirst(ws: seq<Watcher>) returns (i: nat)
    requires |ws| > 0
    ensures i < |ws| && ws[i] == BestOf(ws)
    ensures forall j :: 0 <= j < i ==> ws[j].score < ws[i].score
    ensures forall j :: i < j < |ws| ==> ws[j].score <= ws[i].score
  {
    var n := |ws| - 1;
    if n == 0 {
      i := 0;
    } else {
      var k := BestIsFirst(ws[..n]);
      i := if ws[n].score > ws[k].score then n else k;
    }
  }

  // ---- Who goes ----

  /** The newcomer got past the opposites, and past its own side. */
  ghost predicate Flipped(reg: Reg, q: Request) {
    |Rivals(reg.pending, q)| > 0 ==> Beats(q.w, BestOf(Rivals(reg.pending, q)))
  }

  ghost predicate OutscoresItsSide(reg: Reg, q: Request) {
    forall o :: o in reg.pending && OnTicker(q, o) && o.side == q.w.side ==> o.score < q.w.score
  }

  lemma OutscoresIff(reg: Reg, q: Request)
    requires RegInv(reg)
    ensures var same := Filter(reg.pending, SameSideAs(q));
            OutscoresItsSide(reg, q) <==> |same| == 0 || BestOf(same).score < q.w.score
  {
    SameSideIsBeaten(reg.pending, q);
    forall o | o in reg.pending ensures Picks(SameSideAs(q), o) <==> OnTicker(q, o) && o.side == q.w.side {
    }
  }

  /** Who an admission of an unknown id takes out, accepted or refused: every opposite that gives way,
      the other opposites once the newcomer beats the best of them, and its own side once it has
      outscored that as well. */
  ghost predicate HasToGo(reg: Reg, q: Request, o: Watcher) {
    && o in reg.pending && OnTicker(q, o)
    && (if o.side == q.w.side then Flipped(reg, q) && OutscoresItsSide(reg, q)
        else GivesWay(q, o) || Flipped(reg, q))
  }

  /** The three lists an admission drops, as far as it gets. */
  function Gone(q: Request, pruned: seq<Watcher>, rivals: seq<Watcher>, same: seq<Watcher>): seq<Watcher> {
    var flipped := |rivals| > 0 ==> Beats(q.w, BestOf(rivals));
    pruned + (if flipped then rivals else [])
    + (if flipped && (|same| == 0 || BestOf(same).score < q.w.score) then same else [])
  }

  function Dropped(reg: Reg, q: Request): seq<Watcher> {
    Gone(q, Pruned(reg.pending, q), Rivals(reg.pending, q), Filter(reg.pending, SameSideAs(q)))
  }

  lemma WhoIsDropped(reg: Reg, q: Request, o: Watcher)
    requires RegInv(reg)
    ensures o in Dropped(reg, q) <==> HasToGo(reg, q, o)
  {
    OutscoresIff(reg, q);
    PartsAreMembers(reg.pending, q, o);
    if o in reg.pending { WhoStandsInTheWay(reg.pending, q, o); }
  }

  /** `after` is `reg` without these watchers, their ids released. */
  ghost predicate Without(reg: Reg, after: Reg, gone: seq<Watcher>) {
    && after.dedup == reg.dedup - Ids(gone)
    && forall w :: w in after.pending <==> w in reg.pending && w.id !in Ids(gone)
  }

  lemma DropMore(reg: Reg, mid: Reg, gone: seq<Watcher>, more: seq<Watcher>)
    requires Without(reg, mid, gone) && forall x :: x in more ==> !Ended(x)
    ensures Without(reg, Drop(mid, more), gone + more)
  {
    assert forall x :: x in more <==> x in Filter(more, NotEnded);
    assert Ids(Filter(more, NotEnded)) == Ids(more);
    assert Ids(gone + more) == Ids(gone) + Ids(more);
    forall w ensures w in Drop(mid, more).pending <==> w in reg.pending && w.id !in Ids(gone + more) {
      DropMembers(mid, more, w);
    }
  }

  lemma NoneEnded(reg: Reg, q: Request)
    requires RegInv(reg)
    ensures forall x :: (x in Pruned(reg.pending, q) || x in Rivals(reg.pending, q)
                         || x in Filter(reg.pending, SameSideAs(q))) ==> !Ended(x)
  {
    forall x | x in Pruned(reg.pending, q) || x in Rivals(reg.pending, q) || x in Filter(reg.pending, SameSideAs(q))
      ensures !Ended(x)
    {
      PartsAreMembers(reg.pending, q, x);
      assert Sound(x);
    }
  }

  /** The outcome of an admission that takes out these watchers. */
  ghost predicate AdmittedWithout(reg: Reg, r: Admission, q: Request, gone: seq<Watcher>) {
    && r.reg.dedup == reg.dedup - Ids(gone) + (if r.accepted then {q.w.id} else {})
    && forall w :: w in r.reg.pending <==> (w in reg.pending && w.id !in Ids(gone)) || (r.accepted && w == q.w)
  }

  lemma Concluded(reg: Reg, mid: Reg, q: Request, gone: seq<Watcher>)
    requires Without(reg, mid, gone)
    ensures AdmittedWithout(reg, Admission(mid, false), q, gone)
    ensures AdmittedWithout(reg, Admission(Reg(mid.pending + [q.w], mid.dedup + {q.w.id}), true), q, gone)
  {
  }

  /** The contest drops the opposites once the best of them is beaten, and then the newcomer's own side. */
  lemma ContestIs(reg: Reg, reg1: Reg, q: Request, pruned: seq<Watcher>, rivals: seq<Watcher>, same: seq<Watcher>)
    requires Without(reg, reg1, pruned) && forall x :: x in rivals || x in same ==> !Ended(x)
    ensures AdmittedWithout(reg, Contest(reg1, q, rivals, same), q, Gone(q, pruned, rivals, same))
  {
    var reg2 := Drop(reg1, rivals);
    DropMore(reg, reg1, pruned, rivals);
    DropMore(reg, reg2, pruned + rivals, same);
    assert pruned + [] == pruned && pruned + rivals + [] == pruned + rivals;
    Concluded(reg, reg1, q, pruned);
    Concluded(reg, reg2, q, pruned + rivals);
    Concluded(reg, Drop(reg2, same), q, pruned + rivals + same);
    if |same| == 0 { assert pruned + rivals + same == pruned + rivals; }
  }

  lemma AdmissionIs(reg: Reg, q: Request)
    requires RegInv(reg) && q.w.id !in reg.dedup
    ensures AdmittedWithout(reg, Admit(reg, q), q, Dropped(reg, q))
  {
    var pruned := Pruned(reg.pending, q);
    NoneEnded(reg, q);
    assert Without(reg, reg, []);
    DropMore(reg, reg, [], pruned);
    assert [] + pruned == pruned;
    ContestIs(reg, Drop(reg, pruned), q, pruned, Rivals(reg.pending, q), Filter(reg.pending, SameSideAs(q)));
  }

  // ---- The laws of an admission ----

  /** An unknown id leaves in the list exactly who does not have to go, and the newcomer if armed. */
  lemma AdmissionDisplaces(reg: Reg, q: Request, o: Watcher)
    requires RegInv(reg) && q.w.id !in reg.dedup
    ensures o in Admit(reg, q).reg.pending <==>
              (o in reg.pending && !HasToGo(reg, q, o)) || (Admit(reg, q).accepted && o == q.w)
  {
    AdmissionIs(reg, q);
    WhoIsDropped(reg, q, o);
    if o in reg.pending && o.id in Ids(Dropped(reg, q)) {
      forall x | x in Dropped(reg, q) ensures x in reg.pending { WhoIsDropped(reg, q, x); }
      DroppedIs(reg, Dropped(reg, q), o);
    }
  }

  /** The ids a registry has lost from its list. */
  ghost function Lost(before: seq<Watcher>, after: seq<Watcher>): set<string> {
    set w | w in before && w !in after :: w.id
  }

  /** The blocked ids after an admission, armed or refused: those of displaced watchers are free again,
      the newcomer's is blocked if it was armed, and nothing else changes. */
  lemma AdmissionFreesTheDisplaced(reg: Reg, q: Request)
    requires RegInv(reg)
    ensures var r := Admit(reg, q);
            r.reg.dedup == reg.dedup - Lost(reg.pending, r.reg.pending) + (if r.accepted then {q.w.id} else {})
  {
    var r := Admit(reg, q);
    if q.w.id in reg.dedup {
      assert Lost(reg.pending, reg.pending) == {};
    } else {
      AdmissionIs(reg, q);
      var ids := Ids(Dropped(reg, q));
      forall x | x in Dropped(reg, q) ensures x in reg.pending { WhoIsDropped(reg, q, x); }
      forall id | id in ids ensures id in Lost(reg.pending, r.reg.pending) {
        var x :| x in Dropped(reg, q) && x.id == id;
        assert x in reg.pending && x.id in reg.dedup;
      }
      assert Lost(reg.pending, r.reg.pending) == ids;
    }
  }

  /** So a displaced id can be armed again, under the same conditions as any unknown one. */
  lemma DisplacedMayReturn(reg: Reg, q: Request, o: Watcher, again: Request)
    requires RegInv(reg) && NewRequest(q) && o in reg.pending && o !in Admit(reg, q).reg.pending
    requires again.w.id == o.id
    ensures var after := Admit(reg, q).reg;
            && o.id !in after.dedup
            && (Admit(after, again).accepted <==> again.restored && Unbeaten(after, again))
  {
    AdmissionFreesTheDisplaced(reg, q);
    AdmissionDecides(reg, q);
    AdmissionDecides(Admit(reg, q).reg, again);
    assert o.id in Lost(reg.pending, Admit(reg, q).reg.pending);
    assert o.id in reg.dedup;
  }

  /** Who is armed, over the watchers' fields: an unknown id, restored, that outscores its own side and
      beats the first best of the opposites that do not give way. */
  lemma ArmedIff(reg: Reg, q: Request)
    requires RegInv(reg)
    ensures Admit(reg, q).accepted <==>
              q.w.id !in reg.dedup && q.restored && Flipped(reg, q) && OutscoresItsSide(reg, q)
  {
    AdmissionDecides(reg, q);
    OutscoresIff(reg, q);
    SameSideIsBeaten(reg.pending, q);
  }

  /** Getting past the opposites, over the fields: no opposite blocks, or the newcomer scores more than
      the first best of those that do, or ranks higher inside the tie window. */
  lemma FlippedIff(reg: Reg, q: Request)
    ensures var rivals := Rivals(reg.pending, q);
            Flipped(reg, q) <==>
              || |rivals| == 0
              || q.w.score > BestOf(rivals).score
              || (q.w.tier > BestOf(rivals).tier
                  && (100.0 * (BestOf(rivals).score - q.w.score) <= 3.0 * BestOf(rivals).score
                      || 100.0 * (BestOf(rivals).score - q.w.score) <= 3.0))
  {
    if |Rivals(reg.pending, q)| > 0 { BeatsIff(q.w, BestOf(Rivals(reg.pending, q))); }
  }
}
