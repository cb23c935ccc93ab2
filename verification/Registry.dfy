/**
 The in-memory registry of armed watchers: admission arbitration, the rearm sweep and the
 end-of-day close.  A watcher is a value here; the registry is the list of them and the set
 of signal ids that block a second arm.
 */
module Registry {
  import opened Common
  import opened SignalMachine

  const CONFLICT_MAX_AGE: int := 600
  const TIE_PCT: real := 0.03
  const TIE_TIP: real := 0.01

  datatype Watcher = Watcher(
    id: string, ticker: string, side: Side, score: real, tier: nat, createdAt: int, overnight: bool,
    state: WatchState, rearm: bool, rearmCount: nat, rearmExpires: Option<int>, stop: Option<real>,
    quarantined: bool, failures: nat, cleanups: nat, retryAt: Option<int>, deadline: Option<int>,
    order: string, client: string, mode: string)

  datatype Reg = Reg(pending: seq<Watcher>, dedup: set<string>)

  predicate Active(w: Watcher) {
    w.state.Pending? && !w.rearm && !w.quarantined
  }

  /** Takes part in arbitration: watching, or waiting to be rearmed. */
  predicate Live(w: Watcher) {
    Active(w) || w.rearm
  }

  predicate Ended(w: Watcher) {
    w.state.Cancelled? || w.state.Expired? || w.state.Invalidated?
  }

  // ---- Lists of watchers ----

  /** Which watchers a list is cut down to. */
  datatype Pick = IdNotIn(ids: set<string>) | NotEnded | StaysTonight | SameSideAs(q: Request)
      | Opposing(q: Request) | Weak(q: Request) | Rival(q: Request)

  predicate Picks(k: Pick, w: Watcher) {
    match k
    case IdNotIn(ids) => w.id !in ids
    case NotEnded => !Ended(w)
    case StaysTonight => !ClosesToday(w)
    case SameSideAs(q) => !q.recovered && Live(w) && w.ticker == q.w.ticker && w.side == q.w.side
    case Opposing(q) => !q.recovered && Live(w) && w.ticker == q.w.ticker && w.side != q.w.side
    case Weak(q) => Prunable(q, w)
    case Rival(q) => !Prunable(q, w)
  }

  function Filter(ws: seq<Watcher>, k: Pick): (r: seq<Watcher>)
    ensures forall w :: w in r <==> w in ws && Picks(k, w)
  {
    if |ws| == 0 then [] else Filter(ws[..|ws| - 1], k) + (if Picks(k, ws[|ws| - 1]) then [ws[|ws| - 1]] else [])
  }

  function Ids(ws: seq<Watcher>): set<string> {
    set w | w in ws :: w.id
  }

  function Without(ws: seq<Watcher>, ids: set<string>): seq<Watcher> {
    Filter(ws, IdNotIn(ids))
  }

  /** The first watcher with the highest score. */
  function BestOf(ws: seq<Watcher>): (b: Watcher)
    requires |ws| > 0
    ensures b in ws && forall w :: w in ws ==> w.score <= b.score
  {
    var last := ws[|ws| - 1];
    if |ws| == 1 then last
    else
      var b := BestOf(ws[..|ws| - 1]);
      assert forall w :: w in ws ==> w in ws[..|ws| - 1] || w == last;
      if last.score > b.score then last else b
  }

  // ---- Admission ----

  /** An arm request.  `recovered` requests skip arbitration; `restored` is whether the
      lifecycle ledger accepted the watcher where it is asked to. */
  datatype Request = Request(w: Watcher, now: int, recovered: bool, restored: bool)

  ghost predicate NewRequest(q: Request) {
    q.w.state.Pending? && !q.w.quarantined && q.w.failures == 0 && q.w.cleanups == 0
  }

  /** An opposite that may not block: ended, stale and no stronger, or rearm-only and no stronger. */
  predicate Prunable(q: Request, o: Watcher) {
    var age := if q.now >= o.createdAt then q.now - o.createdAt else 0;
    || Ended(o)
    || (age > CONFLICT_MAX_AGE && o.score <= q.w.score)
    || (o.rearm && !Active(o) && q.w.score >= o.score)
  }

  function Abs(x: real): real {
    if x < 0.0 then -x else x
  }

  predicate Tied(s: real, b: real) {
    Abs(s - b) <= TIE_PCT * Max(1.0, b)
  }

  /** The newcomer wins against the best fresh opposite. */
  predicate Beats(w: Watcher, best: Watcher) {
    var s := if Tied(w.score, best.score) && w.tier > best.tier then best.score + TIE_TIP else w.score;
    s > best.score
  }

  function Pruned(pending: seq<Watcher>, q: Request): seq<Watcher> {
    Filter(Filter(pending, Opposing(q)), Weak(q))
  }

  function Rivals(pending: seq<Watcher>, q: Request): seq<Watcher> {
    Filter(Filter(pending, Opposing(q)), Rival(q))
  }

  function Drop(reg: Reg, gone: seq<Watcher>): Reg {
    Reg(Without(reg.pending, Ids(gone)), reg.dedup - Ids(Filter(gone, NotEnded)))
  }

  datatype Admission = Admission(reg: Reg, accepted: bool)

  /** The scored part of the decision, once prunable opposites are gone. */
  function Contest(reg: Reg, q: Request, rivals: seq<Watcher>, same: seq<Watcher>): Admission {
    if |rivals| > 0 && !Beats(q.w, BestOf(rivals)) then Admission(reg, false)
    else
      var reg2 := Drop(reg, rivals);
      if |same| > 0 && q.w.score <= BestOf(same).score then Admission(reg2, false)
      else
        var reg3 := Drop(reg2, same);
        if !q.restored then Admission(reg3, false)
        else Admission(Reg(reg3.pending + [q.w], reg3.dedup + {q.w.id}), true)
  }

  function Admit(reg: Reg, q: Request): Admission {
    if q.w.id in reg.dedup then Admission(reg, false)
    else Contest(Drop(reg, Pruned(reg.pending, q)), q, Rivals(reg.pending, q), Filter(reg.pending, SameSideAs(q)))
  }

  // ---- The invariant ----

  ghost predicate Distinct(ws: seq<Watcher>) {
    forall i, j :: 0 <= i < j < |ws| ==> ws[i].id != ws[j].id
  }

  ghost predicate Sound(w: Watcher) {
    (w.rearm ==> w.state.Pending?) && (w.quarantined ==> !w.rearm)
  }

  ghost predicate RegInv(reg: Reg) {
    && Distinct(reg.pending)
    && (forall w :: w in reg.pending ==> w.id in reg.dedup && Sound(w))
  }

  /** At most one watcher per ticker takes part in arbitration. */
  ghost predicate OnePerTicker(ws: seq<Watcher>) {
    forall i, j :: 0 <= i < j < |ws| && Live(ws[i]) && Live(ws[j]) ==> ws[i].ticker != ws[j].ticker
  }

  lemma FilterSnoc(ws: seq<Watcher>, w: Watcher, k: Pick)
    ensures Filter(ws + [w], k) == Filter(ws, k) + (if Picks(k, w) then [w] else [])
  {
    assert (ws + [w])[..|ws|] == ws;
  }

  lemma {:induction false} FilterKeepsDistinct(ws: seq<Watcher>, k: Pick)
    requires Distinct(ws)
    ensures Distinct(Filter(ws, k))
  {
    if |ws| > 0 {
      var init, r := ws[..|ws| - 1], Filter(ws[..|ws| - 1], k);
      FilterKeepsDistinct(init, k);
      forall i | 0 <= i < |r| ensures r[i] in init {
      }
    }
  }

  lemma {:induction false} FilterKeepsTickers(ws: seq<Watcher>, k: Pick)
    requires OnePerTicker(ws)
    ensures OnePerTicker(Filter(ws, k))
  {
    if |ws| > 0 {
      var init, r := ws[..|ws| - 1], Filter(ws[..|ws| - 1], k);
      FilterKeepsTickers(init, k);
      forall i | 0 <= i < |r| ensures r[i] in init {
      }
    }
  }

  lemma FilterKeeps(ws: seq<Watcher>, k: Pick)
    ensures Distinct(ws) ==> Distinct(Filter(ws, k))
    ensures OnePerTicker(ws) ==> OnePerTicker(Filter(ws, k))
  {
    if Distinct(ws) { FilterKeepsDistinct(ws, k); }
    if OnePerTicker(ws) { FilterKeepsTickers(ws, k); }
  }

  lemma DropKeeps(reg: Reg, gone: seq<Watcher>)
    requires RegInv(reg)
    ensures RegInv(Drop(reg, gone))
    ensures OnePerTicker(reg.pending) ==> OnePerTicker(Drop(reg, gone).pending)
  {
    FilterKeeps(reg.pending, IdNotIn(Ids(gone)));
    forall w | w in Drop(reg, gone).pending ensures w.id in Drop(reg, gone).dedup {
      assert w.id !in Ids(gone);
      forall x | x in Filter(gone, NotEnded) ensures x.id != w.id {
        assert x in gone;
      }
    }
  }

  lemma DropMembers(reg: Reg, gone: seq<Watcher>, w: Watcher)
    ensures w in Drop(reg, gone).pending <==> w in reg.pending && w.id !in Ids(gone)
  {
  }

  /** The registry after every watcher that conflicts with `q` has been taken out. */
  function Cleared(reg: Reg, q: Request): Reg {
    Drop(Drop(Drop(reg, Pruned(reg.pending, q)), Rivals(reg.pending, q)), Filter(reg.pending, SameSideAs(q)))
  }

  lemma OpposingIsCovered(pending: seq<Watcher>, q: Request, w: Watcher)
    requires w in pending && Picks(Opposing(q), w)
    ensures w in Pruned(pending, q) || w in Rivals(pending, q)
  {
    assert w in Filter(pending, Opposing(q));
    assert Picks(Weak(q), w) || Picks(Rival(q), w);
  }

  lemma ConflictIsDropped(pending: seq<Watcher>, q: Request, w: Watcher)
    requires w in pending && !q.recovered && Live(w) && w.ticker == q.w.ticker
    ensures w.id in Ids(Pruned(pending, q)) + Ids(Rivals(pending, q)) + Ids(Filter(pending, SameSideAs(q)))
  {
    if w.side == q.w.side {
      assert Picks(SameSideAs(q), w);
    } else {
      OpposingIsCovered(pending, q, w);
    }
  }

  lemma ClearedMembers(reg: Reg, q: Request, w: Watcher)
    requires w in Cleared(reg, q).pending
    ensures w in reg.pending && (q.recovered || !Live(w) || w.ticker != q.w.ticker)
  {
    var pruned, rivals, same := Pruned(reg.pending, q), Rivals(reg.pending, q), Filter(reg.pending, SameSideAs(q));
    DropMembers(Drop(Drop(reg, pruned), rivals), same, w);
    DropMembers(Drop(reg, pruned), rivals, w);
    DropMembers(reg, pruned, w);
    if !q.recovered && Live(w) && w.ticker == q.w.ticker {
      ConflictIsDropped(reg.pending, q, w);
    }
  }

  lemma ClearedKeeps(reg: Reg, q: Request)
    requires RegInv(reg)
    ensures RegInv(Cleared(reg, q))
    ensures OnePerTicker(reg.pending) ==> OnePerTicker(Cleared(reg, q).pending)
    ensures Cleared(reg, q).dedup <= reg.dedup
  {
    var reg1 := Drop(reg, Pruned(reg.pending, q));
    var reg2 := Drop(reg1, Rivals(reg.pending, q));
    DropKeeps(reg, Pruned(reg.pending, q));
    DropKeeps(reg1, Rivals(reg.pending, q));
    DropKeeps(reg2, Filter(reg.pending, SameSideAs(q)));
  }

  lemma AppendKeeps(reg: Reg, w: Watcher)
    requires RegInv(reg) && w.id !in reg.dedup && Sound(w)
    ensures RegInv(Reg(reg.pending + [w], reg.dedup + {w.id}))
    ensures OnePerTicker(reg.pending) && (forall x :: x in reg.pending ==> !Live(x) || x.ticker != w.ticker)
        ==> OnePerTicker(reg.pending + [w])
  {
    assert forall i :: 0 <= i < |reg.pending| ==> reg.pending[i] in reg.pending;
  }

  /** Every admission keeps the registry sound, and arbitrated ones keep one live watcher per ticker. */
  lemma AdmitKeeps(reg: Reg, q: Request)
    requires RegInv(reg) && NewRequest(q)
    ensures RegInv(Admit(reg, q).reg)
    ensures OnePerTicker(reg.pending) && !q.recovered ==> OnePerTicker(Admit(reg, q).reg.pending)
  {
    var reg1 := Drop(reg, Pruned(reg.pending, q));
    DropKeeps(reg, Pruned(reg.pending, q));
    DropKeeps(reg1, Rivals(reg.pending, q));
    ClearedKeeps(reg, q);
    if Admit(reg, q).accepted {
      forall x | x in Cleared(reg, q).pending && !q.recovered ensures !Live(x) || x.ticker != q.w.ticker {
        ClearedMembers(reg, q, x);
      }
      AppendKeeps(Cleared(reg, q), q.w);
    }
  }

  /** The score a displaced watcher can have had. */
  ghost predicate MayBeDisplaced(reg: Reg, q: Request, o: Watcher) {
    if o.side == q.w.side then o.score < q.w.score
    else if |Rivals(reg.pending, q)| > 0
        then o.score <= q.w.score + TIE_PCT * Max(1.0, BestOf(Rivals(reg.pending, q)).score)
    else o.score <= q.w.score
  }

  lemma BeatsBound(w: Watcher, best: Watcher)
    requires Beats(w, best)
    ensures best.score <= w.score + TIE_PCT * Max(1.0, best.score)
  {
  }

  /** The tie rule in one line: a higher score wins, and so does a higher timeframe rank inside the
      window, which is three percent of the incumbent's score, at least 0.03, to either side. */
  lemma BeatsIff(w: Watcher, best: Watcher)
    ensures Beats(w, best) <==>
              || w.score > best.score
              || (w.tier > best.tier && 100.0 * (best.score - w.score) <= 3.0 * best.score)
              || (w.tier > best.tier && 100.0 * (best.score - w.score) <= 3.0)
  {
  }

  /** Nobody the newcomer would have to beat is as strong: every live same-side watcher of the
      ticker scores less, and the best opposite that may block at all is beaten. */
  ghost predicate Unbeaten(reg: Reg, q: Request) {
    && (forall o :: o in reg.pending && Picks(SameSideAs(q), o) ==> o.score < q.w.score)
    && (|Rivals(reg.pending, q)| > 0 ==> Beats(q.w, BestOf(Rivals(reg.pending, q))))
  }

  lemma ContestDecides(reg: Reg, q: Request, rivals: seq<Watcher>, same: seq<Watcher>)
    ensures var r := Contest(reg, q, rivals, same);
            && (r.accepted <==>
                  && (|rivals| > 0 ==> Beats(q.w, BestOf(rivals)))
                  && (|same| == 0 || BestOf(same).score < q.w.score) && q.restored)
            && (r.accepted ==> r.reg.pending == Drop(Drop(reg, rivals), same).pending + [q.w] && q.w.id in r.reg.dedup)
  {
  }

  /** Who is armed: exactly an unknown, restorable, unbeaten request; a known id changes nothing. */
  lemma AdmissionDecides(reg: Reg, q: Request)
    ensures Admit(reg, q).accepted <==> q.w.id !in reg.dedup && q.restored && Unbeaten(reg, q)
    ensures q.w.id in reg.dedup ==> Admit(reg, q).reg == reg
  {
    SameSideIsBeaten(reg.pending, q);
    ContestDecides(Drop(reg, Pruned(reg.pending, q)), q, Rivals(reg.pending, q), Filter(reg.pending, SameSideAs(q)));
  }

  /** The armed request stands in the list, blocks its id, and has its ticker to itself. */
  lemma ArmedStandsAlone(reg: Reg, q: Request)
    requires RegInv(reg) && Admit(reg, q).accepted
    ensures var after := Admit(reg, q).reg;
            && q.w in after.pending && q.w.id in after.dedup
            && (!q.recovered ==> forall o :: o in after.pending && o != q.w && Live(o) ==> o.ticker != q.w.ticker)
  {
    ContestDecides(Drop(reg, Pruned(reg.pending, q)), q, Rivals(reg.pending, q), Filter(reg.pending, SameSideAs(q)));
    assert Admit(reg, q).reg.pending == Cleared(reg, q).pending + [q.w];
    forall o | o in Cleared(reg, q).pending && Live(o) && !q.recovered ensures o.ticker != q.w.ticker {
      ClearedMembers(reg, q, o);
    }
  }

  lemma SameSideIsBeaten(pending: seq<Watcher>, q: Request)
    ensures var same := Filter(pending, SameSideAs(q));
            (|same| == 0 || BestOf(same).score < q.w.score)
                <==> forall o :: o in pending && Picks(SameSideAs(q), o) ==> o.score < q.w.score
  {
    var same := Filter(pending, SameSideAs(q));
    if |same| > 0 {
      assert BestOf(same) in same;
    } else {
      forall o | o in pending ensures !Picks(SameSideAs(q), o) {
        assert o !in same;
      }
    }
  }

  lemma DroppedIs(reg: Reg, gone: seq<Watcher>, o: Watcher)
    requires Distinct(reg.pending) && o in reg.pending && o.id in Ids(gone)
        && (forall x :: x in gone ==> x in reg.pending)
    ensures o in gone
  {
    var x :| x in gone && x.id == o.id;
    SameId(reg.pending, x, o);
  }

  lemma PartsAreMembers(pending: seq<Watcher>, q: Request, o: Watcher)
    ensures o in Pruned(pending, q) ==> o in pending && Picks(Opposing(q), o) && Prunable(q, o)
    ensures o in Rivals(pending, q) ==> o in pending && Picks(Opposing(q), o)
    ensures o in Filter(pending, SameSideAs(q)) ==> o in pending && Picks(SameSideAs(q), o)
  {
    assert o in Pruned(pending, q) ==> o in Filter(pending, Opposing(q));
    assert o in Rivals(pending, q) ==> o in Filter(pending, Opposing(q));
  }

  /** Which part of the arbitration took `o` out, and what it had won by then. */
  lemma DisplacedBy(reg: Reg, q: Request, o: Watcher)
    requires RegInv(reg) && o in reg.pending && o !in Admit(reg, q).reg.pending
    ensures var pruned, rivals, same :=
              Pruned(reg.pending, q), Rivals(reg.pending, q), Filter(reg.pending, SameSideAs(q));
            || o.id in Ids(pruned)
            || (o.id !in Ids(pruned) && o.id in Ids(rivals) && |rivals| > 0 && Beats(q.w, BestOf(rivals)))
            || (o.id !in Ids(pruned) + Ids(rivals) && o.id in Ids(same) && |same| > 0 && BestOf(same).score < q.w.score)
  {
    var pruned, rivals, same := Pruned(reg.pending, q), Rivals(reg.pending, q), Filter(reg.pending, SameSideAs(q));
    DropMembers(reg, pruned, o);
    DropMembers(Drop(reg, pruned), rivals, o);
    DropMembers(Drop(Drop(reg, pruned), rivals), same, o);
    assert |rivals| == 0 ==> Ids(rivals) == {};
    assert |same| == 0 ==> Ids(same) == {};
  }

  lemma PrunedScore(q: Request, o: Watcher)
    requires Picks(Opposing(q), o) && Prunable(q, o) && Sound(o)
    ensures o.score <= q.w.score
  {
  }

  lemma PartMember(reg: Reg, q: Request, o: Watcher, part: seq<Watcher>)
    requires RegInv(reg) && o in reg.pending && o.id in Ids(part)
    requires part == Pruned(reg.pending, q) || part == Rivals(reg.pending, q)
        || part == Filter(reg.pending, SameSideAs(q))
    ensures o in part
  {
    forall x | x in part ensures x in reg.pending {
      PartsAreMembers(reg.pending, q, x);
    }
    DroppedIs(reg, part, o);
  }

  /** Admission removes only live watchers of the newcomer's ticker, never a stronger same-side
      one, and an opposite one only within the tie margin of the best fresh opposite. */
  lemma DisplacedScores(reg: Reg, q: Request, o: Watcher)
    requires RegInv(reg) && o in reg.pending && o !in Admit(reg, q).reg.pending
    ensures !q.recovered && Live(o) && o.ticker == q.w.ticker && MayBeDisplaced(reg, q, o)
  {
    DisplacedBy(reg, q, o);
    PartsAreMembers(reg.pending, q, o);
    if o.id in Ids(Pruned(reg.pending, q)) {
      PartMember(reg, q, o, Pruned(reg.pending, q));
      PrunedScore(q, o);
    } else if o.id in Ids(Rivals(reg.pending, q)) {
      PartMember(reg, q, o, Rivals(reg.pending, q));
      BeatsBound(q.w, BestOf(Rivals(reg.pending, q)));
    } else {
      PartMember(reg, q, o, Filter(reg.pending, SameSideAs(q)));
    }
  }

  // ---- What a refusal leaves behind ----

  lemma OneMorePicked(front: seq<Watcher>, last: Watcher, k: Pick)
    requires Filter(front, k) == front && Picks(k, last)
    ensures Filter(front + [last], k) == front + [last]
  {
    FilterSnoc(front, last, k);
  }

  lemma {:induction false} AllPicked(ws: seq<Watcher>, n: nat)
    requires n <= |ws|
    ensures Filter(ws[..n], IdNotIn({})) == ws[..n]
  {
    if n > 0 {
      AllPicked(ws, n - 1);
      OneMorePicked(ws[..n - 1], ws[n - 1], IdNotIn({}));
      PrefixSnoc(ws, n);
    }
  }

  lemma PrefixSnoc(ws: seq<Watcher>, n: nat)
    requires 0 < n <= |ws|
    ensures ws[..n] == ws[..n - 1] + [ws[n - 1]]
  {
  }

  lemma NothingIsDropped(ws: seq<Watcher>)
    ensures Filter(ws, IdNotIn({})) == ws
  {
    AllPicked(ws, |ws|);
    assert ws[..|ws|] == ws;
  }

  lemma DropNothing(reg: Reg)
    ensures Drop(reg, []) == reg
  {
    assert Ids([]) == {};
    NothingIsDropped(reg.pending);
  }

  /** A refused request has displaced nobody exactly when its id was known, or nothing was prunable
      and it was stopped at once: by an opposite it does not beat, or, without opposites, by a
      same-side watcher or a lifecycle that was not restored on an empty ticker. */
  lemma RefusalChangesNothingIff(reg: Reg, q: Request)
    requires RegInv(reg) && !Admit(reg, q).accepted
    ensures var rivals, same := Rivals(reg.pending, q), Filter(reg.pending, SameSideAs(q));
            Admit(reg, q).reg == reg <==>
              || q.w.id in reg.dedup
              || (|Pruned(reg.pending, q)| == 0
                  && (if |rivals| > 0 then !Beats(q.w, BestOf(rivals))
                      else |same| == 0 || q.w.score <= BestOf(same).score))
  {
    var pruned, rivals, same := Pruned(reg.pending, q), Rivals(reg.pending, q), Filter(reg.pending, SameSideAs(q));
    var reg1 := Drop(reg, pruned);
    var reg2 := Drop(reg1, rivals);
    if q.w.id !in reg.dedup {
      if |pruned| > 0 { WhoIsGone(reg, q, pruned[0]); } else { DropNothing(reg); }
      if |rivals| > 0 { WhoIsGone(reg, q, rivals[0]); } else { DropNothing(reg1); }
      if |same| > 0 { WhoIsGone(reg, q, same[0]); } else { DropNothing(reg2); }
    }
  }

  /** A refusal drops every prunable opposite, the rivals once it has beaten them, and the same side
      once it has outscored that too. */
  lemma WhoIsGone(reg: Reg, q: Request, o: Watcher)
    requires q.w.id !in reg.dedup && !Admit(reg, q).accepted
    ensures var pruned, rivals, same :=
              Pruned(reg.pending, q), Rivals(reg.pending, q), Filter(reg.pending, SameSideAs(q));
            var flipped := |rivals| > 0 ==> Beats(q.w, BestOf(rivals));
            var first := |same| == 0 || q.w.score > BestOf(same).score;
            (o in pruned || (o in rivals && flipped) || (o in same && flipped && first))
                ==> o in reg.pending && o !in Admit(reg, q).reg.pending
  {
    var pruned, rivals, same := Pruned(reg.pending, q), Rivals(reg.pending, q), Filter(reg.pending, SameSideAs(q));
    var reg1 := Drop(reg, pruned);
    PartsAreMembers(reg.pending, q, o);
    DropMembers(reg, pruned, o);
    DropMembers(reg1, rivals, o);
    DropMembers(Drop(reg1, rivals), same, o);
  }

  /** So a won flip whose lifecycle is not restored arms nobody: the incumbents are gone and the
      ticker is left without a live watcher. */
  lemma WonFlipMayArmNobody(reg: Reg, q: Request)
    requires RegInv(reg) && q.w.id !in reg.dedup && !q.recovered && !q.restored && Unbeaten(reg, q)
        && |Rivals(reg.pending, q)| > 0
    ensures var r := Admit(reg, q);
            && !r.accepted && r.reg != reg
            && forall o :: o in r.reg.pending && Live(o) ==> o.ticker != q.w.ticker
  {
    AdmissionDecides(reg, q);
    SameSideIsBeaten(reg.pending, q);
    WhoIsGone(reg, q, Rivals(reg.pending, q)[0]);
    assert Admit(reg, q).reg == Cleared(reg, q) by {
      if |Filter(reg.pending, SameSideAs(q))| == 0 {
        DropNothing(Drop(Drop(reg, Pruned(reg.pending, q)), Rivals(reg.pending, q)));
      }
    }
    forall o | o in Cleared(reg, q).pending && Live(o) ensures o.ticker != q.w.ticker {
      ClearedMembers(reg, q, o);
    }
  }

  lemma SameId(ws: seq<Watcher>, a: Watcher, b: Watcher)
    requires Distinct(ws) && a in ws && b in ws && a.id == b.id
    ensures a == b
  {
  }

  // ---- Rearm sweep ----

  datatype Prices = Prices(bid: real, ask: real, last: real)

  /** Thresholds the environment sets once. */
  datatype RearmRules = RearmRules(tolerance: real, maxAttempts: nat)

  function SweepMid(p: Prices): real {
    var bid := if p.bid == 0.0 && p.ask == 0.0 then p.last else p.bid;
    var ask := if p.bid == 0.0 && p.ask == 0.0 then p.last else p.ask;
    if bid != 0.0 && ask != 0.0 then (bid + ask) / 2.0 else Max(bid, ask)
  }

  /** The price is back on the valid side of the stop, by the tolerance. */
  predicate Reclaimed(r: RearmRules, w: Watcher, p: Prices) {
    var mid := SweepMid(p);
    && mid > 0.0 && w.stop.Some?
    && if w.side.Call? then mid >= w.stop.value * (1.0 + r.tolerance) else mid <= w.stop.value * (1.0 - r.tolerance)
  }

  /** Over the raw prices: without a bid and an ask the last price counts, with both their mid, else the
      larger one; a CALL is reclaimed at or above its stop plus the tolerance, a PUT at or below its
      stop less the tolerance, at a positive price only. */
  lemma ReclaimedIff(r: RearmRules, w: Watcher, p: Prices)
    ensures var price :=
              if p.bid == 0.0 && p.ask == 0.0 then p.last
              else if p.bid != 0.0 && p.ask != 0.0 then (p.bid + p.ask) / 2.0
              else if p.bid > p.ask then p.bid else p.ask;
            Reclaimed(r, w, p) <==>
              && w.stop.Some? && price > 0.0
              && (if w.side.Call? then price - w.stop.value >= w.stop.value * r.tolerance
                  else w.stop.value - price >= w.stop.value * r.tolerance)
  {
  }

  predicate Waiting(w: Watcher) {
    w.rearm && w.state.Pending?
  }

  /** Time-out first; a reclaim rearms until the attempts are used up, then expires. */
  function SweepOne(r: RearmRules, w: Watcher, now: int, prices: map<string, Prices>): Watcher {
    if !Waiting(w) then w
    else if w.rearmExpires.Some? && now >= w.rearmExpires.value then w.(rearm := false, state := Expired)
    else if w.ticker !in prices || !Reclaimed(r, w, prices[w.ticker]) then w
    else if w.rearmCount >= r.maxAttempts then w.(rearm := false, state := Expired)
    else w.(rearm := false, rearmCount := w.rearmCount + 1)
  }

  function Sweep(r: RearmRules, ws: seq<Watcher>, now: int, prices: map<string, Prices>): (s: seq<Watcher>)
    ensures |s| == |ws| && forall i :: 0 <= i < |ws| ==> s[i] == SweepOne(r, ws[i], now, prices)
  {
    if |ws| == 0 then [] else Sweep(r, ws[..|ws| - 1], now, prices) + [SweepOne(r, ws[|ws| - 1], now, prices)]
  }

  /** The sweep wakes or ends waiting watchers; it never makes a dead one take part again. */
  lemma SweepKeeps(r: RearmRules, reg: Reg, now: int, prices: map<string, Prices>)
    requires RegInv(reg)
    ensures RegInv(reg.(pending := Sweep(r, reg.pending, now, prices)))
    ensures OnePerTicker(reg.pending) ==> OnePerTicker(Sweep(r, reg.pending, now, prices))
  {
    forall i | 0 <= i < |reg.pending| ensures KeepsStanding(reg.pending[i], Sweep(r, reg.pending, now, prices)[i]) {
      SweepOneKeeps(r, reg.pending[i], now, prices);
    }
    PointwiseKeeps(reg, Sweep(r, reg.pending, now, prices));
  }

  /** One sweep of the poll loop. */
  datatype SweepCall = SweepCall(now: int, prices: map<string, Prices>)

  function SweptBy(r: RearmRules, w: Watcher, calls: seq<SweepCall>): Watcher
    decreases |calls|
  {
    if |calls| == 0 then w else SweptBy(r, SweepOne(r, w, calls[0].now, calls[0].prices), calls[1..])
  }

  predicate TimedOut(w: Watcher, call: SweepCall) {
    w.rearmExpires.Some? && call.now >= w.rearmExpires.value
  }

  predicate SeesReclaim(r: RearmRules, w: Watcher, call: SweepCall) {
    w.ticker in call.prices && Reclaimed(r, w, call.prices[w.ticker])
  }

  /** The first sweep that finds the watcher timed out or reclaimed. */
  function FirstDecision(r: RearmRules, w: Watcher, calls: seq<SweepCall>): (k: Option<nat>)
    ensures k.Some? ==> k.value < |calls| && (TimedOut(w, calls[k.value]) || SeesReclaim(r, w, calls[k.value]))
  {
    if |calls| == 0 then None
    else if TimedOut(w, calls[0]) || SeesReclaim(r, w, calls[0]) then Some(0)
    else
      match FirstDecision(r, w, calls[1..])
      case None => None
      case Some(k) => Some(k + 1)
  }

  lemma {:induction false} SweepsLeaveOthers(r: RearmRules, w: Watcher, calls: seq<SweepCall>)
    requires !Waiting(w)
    ensures SweptBy(r, w, calls) == w
    decreases |calls|
  {
    if |calls| > 0 {
      SweepsLeaveOthers(r, w, calls[1..]);
    }
  }

  /** Over any number of sweeps a waiting watcher is decided once: it waits unchanged until the first
      sweep that finds it timed out or reclaimed, is woken there if the reclaim came in time with an
      attempt left, ends there otherwise, and no later sweep touches it. */
  lemma {:induction false} SweepsDecideOnce(r: RearmRules, w: Watcher, calls: seq<SweepCall>)
    requires Waiting(w)
    ensures SweptBy(r, w, calls) ==
              match FirstDecision(r, w, calls)
              case None => w
              case Some(k) =>
                if !TimedOut(w, calls[k]) && w.rearmCount < r.maxAttempts
                    then w.(rearm := false, rearmCount := w.rearmCount + 1)
                else w.(rearm := false, state := Expired)
    decreases |calls|
  {
    if |calls| > 0 {
      var v := SweepOne(r, w, calls[0].now, calls[0].prices);
      if Waiting(v) {
        SweepsDecideOnce(r, w, calls[1..]);
      } else {
        SweepsLeaveOthers(r, v, calls[1..]);
      }
    }
  }

  /** The same watcher later: sound if it was, and taking part only if it was already. */
  ghost predicate KeepsStanding(was: Watcher, w: Watcher) {
    w.id == was.id && w.ticker == was.ticker && (Sound(was) ==> Sound(w)) && (Live(w) ==> Live(was))
  }

  lemma SweepOneKeeps(r: RearmRules, w: Watcher, now: int, prices: map<string, Prices>)
    ensures KeepsStanding(w, SweepOne(r, w, now, prices))
  {
  }

  lemma PointwiseKeeps(reg: Reg, ws: seq<Watcher>)
    requires RegInv(reg) && |ws| == |reg.pending| && forall i :: 0 <= i < |ws| ==> KeepsStanding(reg.pending[i], ws[i])
    ensures RegInv(reg.(pending := ws))
    ensures OnePerTicker(reg.pending) ==> OnePerTicker(ws)
  {
    forall i | 0 <= i < |ws| ensures ws[i].id in reg.dedup && Sound(ws[i]) {
      assert KeepsStanding(reg.pending[i], ws[i]) && reg.pending[i] in reg.pending;
    }
    forall i, j | 0 <= i < j < |ws| ensures ws[i].id != ws[j].id {
      assert KeepsStanding(reg.pending[i], ws[i]) && KeepsStanding(reg.pending[j], ws[j]);
    }
    if OnePerTicker(reg.pending) {
      forall i, j | 0 <= i < j < |ws| && Live(ws[i]) && Live(ws[j]) ensures ws[i].ticker != ws[j].ticker {
        assert KeepsStanding(reg.pending[i], ws[i]) && KeepsStanding(reg.pending[j], ws[j]);
      }
    }
  }

  // ---- End of day ----

  predicate ClosesToday(w: Watcher) {
    Live(w) && !w.overnight
  }

  /** Same-day watchers leave at the close without a check and without releasing their ids. */
  function CloseDay(reg: Reg): Reg {
    reg.(pending := Filter(reg.pending, StaysTonight))
  }

  lemma CloseDayKeeps(reg: Reg)
    requires RegInv(reg)
    ensures RegInv(CloseDay(reg))
    ensures OnePerTicker(reg.pending) ==> OnePerTicker(CloseDay(reg).pending)
    ensures CloseDay(reg).dedup == reg.dedup
    ensures forall w :: w in CloseDay(reg).pending <==> w in reg.pending && (w.overnight || !Live(w))
  {
    FilterKeeps(reg.pending, StaysTonight);
  }

  // ---- One watcher changes ----

  function Replace(ws: seq<Watcher>, w: Watcher): (r: seq<Watcher>)
    ensures |r| == |ws| && forall i :: 0 <= i < |ws| ==> r[i] == if ws[i].id == w.id then w else ws[i]
  {
    if |ws| == 0 then [] else Replace(ws[..|ws| - 1], w) + [if ws[|ws| - 1].id == w.id then w else ws[|ws| - 1]]
  }

  lemma ReplaceKeeps(reg: Reg, was: Watcher, w: Watcher)
    requires RegInv(reg) && was in reg.pending && KeepsStanding(was, w)
    ensures RegInv(reg.(pending := Replace(reg.pending, w)))
    ensures OnePerTicker(reg.pending) ==> OnePerTicker(Replace(reg.pending, w))
  {
    var r := Replace(reg.pending, w);
    forall i | 0 <= i < |r| ensures KeepsStanding(reg.pending[i], r[i]) {
      assert reg.pending[i] in reg.pending;
      if reg.pending[i].id == w.id { SameId(reg.pending, reg.pending[i], was); }
    }
    PointwiseKeeps(reg, r);
  }

  function Remove(reg: Reg, id: string): Reg {
    Reg(Without(reg.pending, {id}), reg.dedup - {id})
  }

  lemma RemoveKeeps(reg: Reg, id: string)
    requires RegInv(reg)
    ensures RegInv(Remove(reg, id))
    ensures OnePerTicker(reg.pending) ==> OnePerTicker(Remove(reg, id).pending)
    ensures forall w :: w in Remove(reg, id).pending <==> w in reg.pending && w.id != id
  {
    FilterKeeps(reg.pending, IdNotIn({id}));
  }
}
