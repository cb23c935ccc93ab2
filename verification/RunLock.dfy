/**
 The morning-job run lock: one database row per run key, claimed by insert or by reclaiming a
 failed or stale row, and fenced by an owner token.
 */
module RunLock {
  import opened Common

  const STALE_SECONDS: int := 600
  const RETRIES: nat := 10

  datatype Status = Running | Completed | Failed
  datatype Row = Row(status: Status, token: string, acquiredAt: int)

  /** The insert wins on an absent row; the update wins on a failed or stale one. */
  predicate Reclaims(row: Option<Row>, now: int) {
    row.Some? && (row.value.status.Failed? || (row.value.status.Running? && row.value.acquiredAt < now - STALE_SECONDS))
  }

  predicate Wins(row: Option<Row>, now: int) {
    row.None? || Reclaims(row, now)
  }

  function Claimed(row: Option<Row>, token: string, now: int): Option<Row> {
    if Wins(row, now) then Some(Row(Running, token, now)) else row
  }

  predicate Holds(row: Option<Row>, token: string) {
    row.Some? && row.value.token == token && row.value.status.Running?
  }

  function Finished(row: Option<Row>, token: string, status: Status): Option<Row> {
    if Holds(row, token) then Some(row.value.(status := status)) else row
  }

  // ---- Transactions of any number of callers ----

  /** Committed transactions in database order. */
  datatype Event = Acquire(token: string, now: int) | Complete(token: string, now: int) | Fail(token: string, now: int)

  function Next(row: Option<Row>, e: Event): Option<Row> {
    match e
    case Acquire(token, now) => Claimed(row, token, now)
    case Complete(token, _) => Finished(row, token, Completed)
    case Fail(token, _) => Finished(row, token, Failed)
  }

  function After(row: Option<Row>, es: seq<Event>): Option<Row> {
    if |es| == 0 then row else Next(After(row, es[..|es| - 1]), es[|es| - 1])
  }

  // ---- One caller's retry loop ----

  /** One database attempt: what other callers did to the row since the one before, when it runs,
      whether its transaction commits, and whether the caller hears of it.  A `fatal` failure is not
      retried. */
  datatype Try =
    | Answered(before: seq<Event>, now: int)
    | Broken(before: seq<Event>, now: int, committed: bool, fatal: bool)

  datatype Reply = InvalidMode | Held | Acquired(reclaimed: bool) | FailOpen

  predicate Commits(t: Try) {
    t.Answered? || t.committed
  }

  /** What one attempt, and the others' transactions before it, leave in the row. */
  function AfterTry(row: Option<Row>, token: string, t: Try): Option<Row> {
    var met := After(row, t.before);
    if Commits(t) then Claimed(met, token, t.now) else met
  }

  /** What the retry loop answers and what is in the row then. */
  function Tried(row: Option<Row>, token: string, tries: seq<Try>): (Option<Row>, Reply)
    decreases |tries|
  {
    if |tries| == 0 then (row, FailOpen)
    else
      var t, met, after := tries[0], After(row, tries[0].before), AfterTry(row, token, tries[0]);
      if t.Answered? then (after, if Wins(met, t.now) then Acquired(met.Some?) else Held)
      else if t.fatal then (after, FailOpen)
      else Tried(after, token, tries[1..])
  }

  class LockRow {
    var row: Option<Row>

    constructor ()
      ensures row == None
    {
      row := None;
    }

    /** One committed acquire transaction: insert, or else the guarded update. */
    method Acquire(token: string, now: int) returns (won: bool, reclaimed: bool)
      modifies this
      ensures row == Claimed(old(row), token, now)
      ensures won == Wins(old(row), now) && reclaimed == Reclaims(old(row), now)
    {
      won, reclaimed := false, false;
      if row.None? {
        row := Some(Row(Running, token, now));
        won := true;
      } else {
        var r := row.value;
        if r.status.Failed? || (r.status.Running? && r.acquiredAt < now - STALE_SECONDS) {
          row := Some(r.(status := Running, token := token, acquiredAt := now));
          won, reclaimed := true, true;
        }
      }
    }

    /** What other callers' transactions make of the row while this caller waits. */
    method Others(es: seq<Event>)
      modifies this
      ensures row == After(old(row), es)
    {
      for i := 0 to |es|
        invariant row == After(old(row), es[..i])
      {
        assert es[..i + 1][..i] == es[..i];
        row := Next(row, es[i]);
      }
      assert es[..|es|] == es;
    }

    /** `tries` are the attempts the retry loop gets to make, the first and ten retries at most. */
    method TryAcquire(modeKnown: bool, token: string, tries: seq<Try>) returns (reply: Reply)
      requires |tries| <= RETRIES + 1
      modifies this
      ensures !modeKnown ==> reply == InvalidMode && row == old(row)
      ensures modeKnown ==> (row, reply) == Tried(old(row), token, tries)
    {
      if !modeKnown {
        return InvalidMode;
      }
      for i := 0 to |tries|
        invariant Tried(row, token, tries[i..]) == Tried(old(row), token, tries)
      {
        var t := tries[i];
        assert tries[i..][1..] == tries[i + 1..];
        Others(t.before);
        match t {
          case Answered(_, now) =>
            var won, reclaimed := Acquire(token, now);
            return if won then Acquired(reclaimed) else Held;
          case Broken(_, now, committed, fatal) =>
            if committed {
              var won, reclaimed := Acquire(token, now);
            }
            if fatal {
              return FailOpen;
            }
        }
      }
      return FailOpen;
    }

    method MarkCompleted(token: string)
      modifies this
      ensures row == Finished(old(row), token, Completed)
    {
      if row.Some? && row.value.token == token && row.value.status.Running? {
        row := Some(row.value.(status := Completed));
      }
    }

    method MarkFailed(token: string)
      modifies this
      ensures row == Finished(old(row), token, Failed)
    {
      if row.Some? && row.value.token == token && row.value.status.Running? {
        row := Some(row.value.(status := Failed));
      }
    }
  }

  /** A persisted acquisition leaves the row running under the caller's own token. */
  lemma {:induction false} AcquiredMeansHeld(row: Option<Row>, token: string, tries: seq<Try>)
    ensures Tried(row, token, tries).1.Acquired? ==> Holds(Tried(row, token, tries).0, token)
    decreases |tries|
  {
    if |tries| > 0 && tries[0].Broken? && !tries[0].fatal {
      AcquiredMeansHeld(AfterTry(row, token, tries[0]), token, tries[1..]);
    }
  }

  // ---- When "lock held" speaks of the caller's own lock ----

  /** The token is this caller's alone. */
  ghost predicate Private(token: string, es: seq<Event>) {
    forall e :: e in es ==> e.token != token
  }

  ghost predicate PrivateTo(token: string, tries: seq<Try>) {
    forall t :: t in tries ==> Private(token, t.before)
  }

  /** Some of these transactions acquires the row. */
  predicate SomeWins(row: Option<Row>, es: seq<Event>) {
    |es| > 0
    && (SomeWins(row, es[..|es| - 1])
        || (es[|es| - 1].Acquire? && Wins(After(row, es[..|es| - 1]), es[|es| - 1].now)))
  }

  /** This attempt acquires the row, heard of or not. */
  predicate TryWins(row: Option<Row>, t: Try) {
    Commits(t) && Wins(After(row, t.before), t.now)
  }

  /** Somebody acquires the row during these attempts. */
  predicate ChangesHands(row: Option<Row>, token: string, tries: seq<Try>)
    decreases |tries|
  {
    |tries| > 0
    && (SomeWins(row, tries[0].before) || TryWins(row, tries[0])
        || (tries[0].Broken? && ChangesHands(AfterTry(row, token, tries[0]), token, tries[1..])))
  }

  /** Some attempt acquired the row unheard, and nobody acquired it afterwards. */
  predicate WonSilently(row: Option<Row>, token: string, tries: seq<Try>)
    decreases |tries|
  {
    |tries| > 0 && tries[0].Broken?
    && var after := AfterTry(row, token, tries[0]);
       (TryWins(row, tries[0]) && !ChangesHands(after, token, tries[1..])) || WonSilently(after, token, tries[1..])
  }

  /** Other callers leave a running owner alone until one of them acquires the row. */
  lemma {:induction false} OthersTakeOver(row: Option<Row>, token: string, es: seq<Event>)
    requires Private(token, es)
    ensures Holds(After(row, es), token) <==> Holds(row, token) && !SomeWins(row, es)
  {
    if |es| > 0 {
      OthersTakeOver(row, token, es[..|es| - 1]);
      assert es[|es| - 1] in es;
    }
  }

  lemma {:induction false} HeldOwnIff(row: Option<Row>, token: string, tries: seq<Try>)
    requires PrivateTo(token, tries) && Tried(row, token, tries).1.Held?
    ensures Holds(Tried(row, token, tries).0, token) <==>
              (Holds(row, token) && !ChangesHands(row, token, tries)) || WonSilently(row, token, tries)
    decreases |tries|
  {
    OthersTakeOver(row, token, tries[0].before);
    if tries[0].Broken? {
      HeldOwnIff(AfterTry(row, token, tries[0]), token, tries[1..]);
    }
  }

  /** When the converse fails, whatever other callers do between the attempts: for a token that does
      not hold the row yet, "lock held" speaks of the caller's own lock exactly when one of its
      attempts won unheard and nobody acquired the row after it. */
  lemma HeldHidesOwnLockIff(row: Option<Row>, token: string, tries: seq<Try>)
    requires PrivateTo(token, tries) && !Holds(row, token) && Tried(row, token, tries).1.Held?
    ensures Holds(Tried(row, token, tries).0, token) <==> WonSilently(row, token, tries)
  {
    HeldOwnIff(row, token, tries);
  }

  /** The shortest such run: nobody does the work until the row is stale. */
  lemma LostAnswerReportsHeld(token: string, now: int, later: int)
    requires now <= later <= now + STALE_SECONDS
    ensures Tried(None, token, [Broken([], now, true, false), Answered([], later)])
         == (Some(Row(Running, token, now)), Held)
  {
    var tries := [Broken([], now, true, false), Answered([], later)];
    assert tries[1..] == [Answered([], later)];
  }

  // ---- Histories ----

  function Run(es: seq<Event>): Option<Row> {
    After(None, es)
  }

  /** The `i`-th event is an acquisition that succeeds. */
  predicate WinsAt(es: seq<Event>, i: nat)
    requires i < |es|
  {
    es[i].Acquire? && Wins(Run(es[..i]), es[i].now)
  }

  predicate CompletesAt(es: seq<Event>, i: nat)
    requires i < |es|
  {
    es[i].Complete? && Holds(Run(es[..i]), es[i].token)
  }

  ghost predicate Ordered(es: seq<Event>) {
    forall i, j :: 0 <= i <= j < |es| ==> es[i].now <= es[j].now
  }

  lemma RunStep(es: seq<Event>, n: nat)
    requires n < |es|
    ensures Run(es[..n + 1]) == Next(Run(es[..n]), es[n])
  {
    assert es[..n + 1][..n] == es[..n];
  }

  /** After a win at `i`, and as long as its owner has not failed it and time has not run past the
      limit, the row stays with that owner, running or completed. */
  lemma {:induction false} OwnerStays(es: seq<Event>, i: nat, n: nat)
    requires Ordered(es) && i < n <= |es| && WinsAt(es, i)
    requires forall k :: i < k < n ==> es[k].now <= es[i].now + STALE_SECONDS && es[k] != Fail(es[i].token, es[k].now)
    ensures var row := Run(es[..n]);
            row.Some? && row.value.token == es[i].token && row.value.acquiredAt == es[i].now
                && !row.value.status.Failed?
  {
    RunStep(es, n - 1);
    if n - 1 > i {
      OwnerStays(es, i, n - 1);
    }
  }

  /** Exclusion: of any two successful acquisitions, the earlier owner has marked its run failed
      in between or more than ten minutes have passed. */
  lemma Exclusion(es: seq<Event>, i: nat, j: nat)
    requires Ordered(es) && i < j < |es| && WinsAt(es, i) && WinsAt(es, j)
    ensures es[j].now > es[i].now + STALE_SECONDS || exists k :: i < k < j && es[k] == Fail(es[i].token, es[k].now)
  {
    if es[j].now <= es[i].now + STALE_SECONDS && !exists k :: i < k < j && es[k] == Fail(es[i].token, es[k].now) {
      assert forall k :: i < k < j ==> es[k].now <= es[j].now;
      OwnerStays(es, i, j);
    }
  }

  predicate Finishes(e: Event, token: string) {
    !e.Acquire? && e.token == token
  }

  /** A run from its acquisition at `i` to its first finishing call at `f`. */
  ghost predicate IsRun(es: seq<Event>, i: nat, f: nat) {
    && i < f < |es| && WinsAt(es, i) && Finishes(es[f], es[i].token)
    && forall k :: i < k < f ==> !Finishes(es[k], es[i].token)
  }

  /** Two runs that each finish within ten minutes never overlap. */
  lemma ShortRunsNeverOverlap(es: seq<Event>, i: nat, f: nat, j: nat)
    requires Ordered(es) && IsRun(es, i, f) && es[f].now <= es[i].now + STALE_SECONDS
    requires i < j < |es| && WinsAt(es, j)
    ensures es[f].now <= es[j].now
  {
    Exclusion(es, i, j);
    if es[j].now <= es[i].now + STALE_SECONDS {
      var k :| i < k < j && es[k] == Fail(es[i].token, es[k].now);
      assert f <= k;
    }
  }

  lemma {:induction false} TokenIsTheLastWinner(es: seq<Event>, n: nat) returns (w: nat)
    requires n <= |es| && Run(es[..n]).Some?
    ensures w < n && WinsAt(es, w) && Run(es[..n]).value.token == es[w].token
    ensures forall k :: w < k < n ==> !WinsAt(es, k)
  {
    RunStep(es, n - 1);
    if WinsAt(es, n - 1) {
      w := n - 1;
    } else {
      w := TokenIsTheLastWinner(es, n - 1);
    }
  }

  /** Fencing: once another caller has won, and the old owner has not won again since, the old
      owner's complete and fail change nothing. */
  lemma DisplacedOwnerIsFenced(es: seq<Event>, j: nat, n: nat, token: string)
    requires j < n < |es| && WinsAt(es, j) && Finishes(es[n], token)
    requires es[j].token != token && forall k :: j < k < n && WinsAt(es, k) ==> es[k].token != token
    ensures Run(es[..n + 1]) == Run(es[..n])
  {
    RunStep(es, n);
    if Run(es[..n]).Some? {
      var w := TokenIsTheLastWinner(es, n);
    }
  }

  lemma {:induction false} CompletedIsFinal(es: seq<Event>, i: nat, n: nat)
    requires i <= n <= |es| && Run(es[..i]).Some? && Run(es[..i]).value.status.Completed?
    ensures Run(es[..n]) == Run(es[..i])
  {
    if i < n {
      CompletedIsFinal(es, i, n - 1);
      RunStep(es, n - 1);
    }
  }

  /** The latest successful acquisition among the first `n` events. */
  function LastWin(es: seq<Event>, n: nat): (w: Option<nat>)
    requires n <= |es|
    ensures w.Some? ==> w.value < n && WinsAt(es, w.value)
  {
    if n == 0 then None else if WinsAt(es, n - 1) then Some(n - 1) else LastWin(es, n - 1)
  }

  /** The first finishing call of the winner at `w` among the first `n` events. */
  function FirstFinish(es: seq<Event>, w: nat, n: nat): (f: Option<nat>)
    requires w < n <= |es|
    ensures f.Some? ==> w < f.value < n && Finishes(es[f.value], es[w].token)
  {
    if n == w + 1 then None
    else if FirstFinish(es, w, n - 1).Some? then FirstFinish(es, w, n - 1)
    else if Finishes(es[n - 1], es[w].token) then Some(n - 1)
    else None
  }

  /** Since the last win the row knows only its winner, and the first finishing call settles it. */
  lemma {:induction false} RowSinceLastWin(es: seq<Event>, n: nat)
    requires n <= |es|
    ensures Run(es[..n]).Some? <==> LastWin(es, n).Some?
    ensures LastWin(es, n).Some? ==>
              var w := LastWin(es, n).value;
              var f := FirstFinish(es, w, n);
              Run(es[..n]) == Some(Row(
                  if f.None? then Running else if es[f.value].Fail? then Failed else Completed,
                  es[w].token, es[w].now))
  {
    if n > 0 {
      RowSinceLastWin(es, n - 1);
      RunStep(es, n - 1);
    }
  }

  /** Who gets the lock, over all histories: an acquisition succeeds exactly when nobody has won
      before, or the last winner's first finishing call was a failure, or it made none and is stale. */
  lemma AcquireSucceedsIff(es: seq<Event>, n: nat)
    requires n < |es| && es[n].Acquire?
    ensures WinsAt(es, n) <==>
              match LastWin(es, n)
              case None => true
              case Some(w) =>
                (match FirstFinish(es, w, n)
                 case None => es[w].now < es[n].now - STALE_SECONDS
                 case Some(f) => es[f].Fail?)
  {
    RowSinceLastWin(es, n);
  }

  /** At most one completion ever takes effect, and no acquisition succeeds after it. */
  lemma OneCompletion(es: seq<Event>, i: nat, j: nat)
    requires i < j < |es| && CompletesAt(es, i)
    ensures !CompletesAt(es, j) && !WinsAt(es, j)
  {
    RunStep(es, i);
    CompletedIsFinal(es, i + 1, j);
  }
}
