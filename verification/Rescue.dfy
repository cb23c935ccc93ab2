/**
 The rescue batch for queue rows that were armed with a deferred contract but never got their
 entry order: it creates the missing order, once.
 */
module Rescue {
  import opened Common
  import opened Texts

  datatype Key = Key(signal: string, client: string, mode: string)

  /** A queue row's last error; the ticker is "" when the armed text names none. */
  datatype LastError = Armed(ticker: string) | AwaitingReeval | RescueOk | RescueFailed | OtherError

  /** `planned` is whether a plan can be rebuilt and `proven` whether its trigger evidence, if
      any, belongs to it. */
  datatype Payload = Empty | Payload(ticker: string, score: real, planned: bool, proven: bool)
  datatype QueueRow = QueueRow(id: int, signal: string, client: string, watching: bool, created: int,
      lastError: LastError, payload: Payload)

  /** `entries` counts the ENTRY orders per signal, client and mode. */
  datatype Store = Store(entries: multiset<Key>, queue: seq<QueueRow>)

  /** Creating an order may raise or return no id, with or without having inserted it. */
  datatype Creation = Raises(inserted: bool) | NoId(inserted: bool) | Creates

  /** What the outside does while one row is handled. */
  datatype Outside = Outside(queryFails: bool, creation: Creation, writeFails: bool)

  /** `client` is the trimmed id the queries compare with; `machine` is the id the order machine
      writes into a new order, its own client id in lower case.  `floor` is the lowest score worth
      rescuing. */
  datatype Batch = Batch(client: string, machine: string, mode: string, dry: bool, from: int, until: int, floor: real)

  /** The order a row is asked about, and the order its repair creates. */
  function Asked(b: Batch, signal: string): Key {
    Key(signal, b.client, b.mode)
  }

  function Created(b: Batch, signal: string): Key {
    Key(signal, b.machine, b.mode)
  }

  predicate Eligible(s: Store, b: Batch, r: QueueRow) {
    && r.client == b.client && r.watching && r.lastError.Armed? && b.from <= r.created < b.until
    && Asked(b, r.signal) !in s.entries
  }

  /** The queue is listed by creation time, and so is what is loaded. */
  function Load(s: Store, b: Batch, queue: seq<QueueRow>): seq<QueueRow> {
    if |queue| == 0 then []
    else
      var front := Load(s, b, queue[..|queue| - 1]);
      if Eligible(s, b, queue[|queue| - 1]) then front + [queue[|queue| - 1]] else front
  }

  datatype Outcome = Skipped | AlreadyRepaired | WouldRepair | Repaired | Failed | Aborted

  /** What decides about a row before an order is created. */
  function Judge(s: Store, b: Batch, r: QueueRow, queryFails: bool): Outcome {
    if r.payload.Empty? || !r.lastError.Armed? then Skipped
    else if r.lastError.ticker == "" || r.lastError.ticker != r.payload.ticker then Skipped
    else if r.payload.score < b.floor then Skipped
    else if queryFails then Aborted
    else if Asked(b, r.signal) in s.entries then AlreadyRepaired
    else if !r.payload.planned || !r.payload.proven then Skipped
    else if b.dry then WouldRepair
    else Repaired
  }

  /** Rewrites the last error of the row with this id and client. */
  function Rewrite(queue: seq<QueueRow>, id: int, client: string, e: LastError): (q: seq<QueueRow>)
    ensures |q| == |queue|
    ensures forall i :: 0 <= i < |queue| ==>
        q[i] == if queue[i].id == id && queue[i].client == client then queue[i].(lastError := e) else queue[i]
  {
    if |queue| == 0 then []
    else
      var last := queue[|queue| - 1];
      Rewrite(queue[..|queue| - 1], id, client, e)
          + [if last.id == id && last.client == client then last.(lastError := e) else last]
  }

  function Written(s: Store, b: Batch, r: QueueRow, e: LastError, fails: bool): Store {
    if fails then s else s.(queue := Rewrite(s.queue, r.id, b.client, e))
  }

  function Repair(s: Store, b: Batch, r: QueueRow, o: Outside): (Store, Outcome) {
    var verdict := Judge(s, b, r, o.queryFails);
    if !verdict.Repaired? then (s, verdict)
    else
      var key := Created(b, r.signal);
      match o.creation
      case Creates =>
        (Written(s.(entries := s.entries + multiset{key}), b, r, RescueOk, o.writeFails), Repaired)
      case _ =>
        var after := if o.creation.inserted then s.(entries := s.entries + multiset{key}) else s;
        (Written(after, b, r, RescueFailed, o.writeFails), Failed)
  }

  /** The batch over loaded rows; an aborted row ends it. */
  function RepairAll(s: Store, b: Batch, rows: seq<QueueRow>, os: seq<Outside>): (r: (Store, seq<Outcome>))
    requires |rows| == |os|
    ensures |r.1| <= |rows|
    decreases |rows|
  {
    if |rows| == 0 then (s, [])
    else
      var first := Repair(s, b, rows[0], os[0]);
      if first.1.Aborted? then (first.0, [Aborted])
      else
        var rest := RepairAll(first.0, b, rows[1..], os[1..]);
        (rest.0, [first.1] + rest.1)
  }

  /** The whole batch when `done` rows are already handled and `rest` remains. */
  function Resumed(done: seq<Outcome>, rest: (Store, seq<Outcome>)): (Store, seq<Outcome>) {
    (rest.0, done + rest.1)
  }

  lemma RepairAllStep(s: Store, b: Batch, rows: seq<QueueRow>, os: seq<Outside>, done: seq<Outcome>)
    requires |rows| == |os| > 0
    ensures var first := Repair(s, b, rows[0], os[0]);
            Resumed(done, RepairAll(s, b, rows, os)) ==
              if first.1.Aborted? then (first.0, done + [Aborted])
              else Resumed(done + [first.1], RepairAll(first.0, b, rows[1..], os[1..]))
  {
    var first := Repair(s, b, rows[0], os[0]);
    if !first.1.Aborted? {
      var rest := RepairAll(first.0, b, rows[1..], os[1..]);
      assert done + ([first.1] + rest.1) == done + [first.1] + rest.1;
    }
  }

  function Tally(outcomes: seq<Outcome>, kinds: set<Outcome>): nat {
    if |outcomes| == 0 then 0 else (if outcomes[0] in kinds then 1 else 0) + Tally(outcomes[1..], kinds)
  }

  datatype Summary = Summary(ok: bool, scanned: nat, repaired: nat, already: nat, skipped: nat, failed: nat)

  class RescueJob {
    var entries: multiset<Key>
    var queue: seq<QueueRow>

    ghost function View(): Store
      reads this
    {
      Store(entries, queue)
    }

    method WriteResult(b: Batch, id: int, e: LastError, fails: bool)
      modifies `queue
      ensures queue == if fails then old(queue) else Rewrite(old(queue), id, b.client, e)
    {
      if !fails {
        queue := Rewrite(queue, id, b.client, e);
      }
    }

    method RepairRow(b: Batch, r: QueueRow, o: Outside) returns (outcome: Outcome)
      modifies this
      ensures (View(), outcome) == Repair(old(View()), b, r, o)
    {
      if r.payload.Empty? || !r.lastError.Armed? {
        return Skipped;
      }
      var armed := r.lastError.ticker;
      if armed == "" || armed != r.payload.ticker || r.payload.score < b.floor {
        return Skipped;
      }
      if o.queryFails {
        return Aborted;
      }
      if Asked(b, r.signal) in entries {
        return AlreadyRepaired;
      }
      if !r.payload.planned || !r.payload.proven {
        return Skipped;
      }
      if b.dry {
        return WouldRepair;
      }
      var key := Created(b, r.signal);
      if o.creation.Creates? {
        entries := entries + multiset{key};
        WriteResult(b, r.id, RescueOk, o.writeFails);
        return Repaired;
      }
      if o.creation.inserted {
        entries := entries + multiset{key};
      }
      WriteResult(b, r.id, RescueFailed, o.writeFails);
      return Failed;
    }

    /** `ready` is whether client, mode and, for a real run, order machine and watcher are given;
        `loads` whether the row query succeeds.  Without a summary the run has raised. */
    method Run(b: Batch, ready: bool, loads: bool, os: seq<Outside>) returns (summary: Option<Summary>)
      requires |os| == |Load(Store(entries, queue), b, queue)|
      modifies this
      ensures !ready || !loads ==> View() == old(View()) && summary == Some(Summary(false, 0, 0, 0, 0, 0))
      ensures ready && loads ==>
                var rows := Load(old(View()), b, old(queue));
                var (after, outcomes) := RepairAll(old(View()), b, rows, os);
                View() == after && summary == Totals(|rows|, outcomes)
    {
      if !ready || !loads {
        return Some(Summary(false, 0, 0, 0, 0, 0));
      }
      var rows := Load(Store(entries, queue), b, queue);
      var repaired, already, skipped, failed := 0, 0, 0, 0;
      ghost var outcomes: seq<Outcome> := [];
      ghost var all := RepairAll(View(), b, rows, os);
      assert rows[0..] == rows && os[0..] == os && outcomes + all.1 == all.1;
      for i := 0 to |rows|
        invariant |outcomes| == i && Aborted !in outcomes
        invariant all == Resumed(outcomes, RepairAll(View(), b, rows[i..], os[i..]))
        invariant repaired == Tally(outcomes, REPAIRS) && already == Tally(outcomes, ALREADIES)
        invariant skipped == Tally(outcomes, SKIPS) && failed == Tally(outcomes, FAILURES)
      {
        assert rows[i..][1..] == rows[i + 1..] && os[i..][1..] == os[i + 1..];
        ghost var was, store := outcomes, View();
        var outcome := RepairRow(b, rows[i], os[i]);
        outcomes := outcomes + [outcome];
        RepairAllStep(store, b, rows[i..], os[i..], was);
        if outcome.Aborted? {
          assert outcomes[i] == Aborted;
          return None;
        }
        TallySnoc(was, outcome, REPAIRS);
        TallySnoc(was, outcome, ALREADIES);
        TallySnoc(was, outcome, SKIPS);
        TallySnoc(was, outcome, FAILURES);
        if outcome.Repaired? || outcome.WouldRepair? {
          repaired := repaired + 1;
        } else if outcome.AlreadyRepaired? {
          already := already + 1;
        } else if outcome.Skipped? {
          skipped := skipped + 1;
        } else {
          failed := failed + 1;
        }
      }
      assert all.1 == outcomes;
      return Some(Summary(failed == 0, |rows|, repaired, already, skipped, failed));
    }
  }

  const REPAIRS: set<Outcome> := {Repaired, WouldRepair}
  const ALREADIES: set<Outcome> := {AlreadyRepaired}
  const SKIPS: set<Outcome> := {Skipped}
  const FAILURES: set<Outcome> := {Failed}

  function Totals(scanned: nat, outcomes: seq<Outcome>): Option<Summary> {
    if Aborted in outcomes then None
    else Some(Summary(Tally(outcomes, FAILURES) == 0, scanned, Tally(outcomes, REPAIRS), Tally(outcomes, ALREADIES),
        Tally(outcomes, SKIPS), Tally(outcomes, FAILURES)))
  }

  lemma {:induction false} TallySnoc(outcomes: seq<Outcome>, o: Outcome, kinds: set<Outcome>)
    ensures Tally(outcomes + [o], kinds) == Tally(outcomes, kinds) + (if o in kinds then 1 else 0)
  {
    if |outcomes| > 0 {
      TallySnoc(outcomes[1..], o, kinds);
      assert (outcomes + [o])[1..] == outcomes[1..] + [o];
    }
  }

  // ---- What one batch does ----

  lemma RepairAddsAtMostOne(s: Store, b: Batch, r: QueueRow, o: Outside, k: Key)
    ensures var (after, outcome) := Repair(s, b, r, o);
            && s.entries[k] <= after.entries[k] <= s.entries[k] + 1
            && (after.entries[k] > s.entries[k]
                ==> k == Created(b, r.signal) && !b.dry && s.entries[Asked(b, r.signal)] == 0)
            && (outcome.Repaired? ==> after.entries[Created(b, r.signal)] == s.entries[Created(b, r.signal)] + 1)
            && (b.dry ==> after == s && !outcome.Repaired? && !outcome.Failed?)
  {
  }

  function Max1(n: nat): nat {
    if n > 1 then n else 1
  }

  /** The batch looks for the orders it creates, or creates none for `k`. */
  predicate Settles(b: Batch, k: Key) {
    b.client == b.machine || b.dry || k.client != b.machine || k.mode != b.mode
  }

  /** One batch, repeated signals included: nothing outside the machine's client and the batch's mode
      gains an order, a dry run changes nothing, and a batch that looks for what it creates never
      gives a key a second ENTRY order. */
  lemma {:induction false} BatchIsSafe(s: Store, b: Batch, rows: seq<QueueRow>, os: seq<Outside>, k: Key)
    requires |rows| == |os|
    ensures var after := RepairAll(s, b, rows, os).0;
            && s.entries[k] <= after.entries[k]
            && (Settles(b, k) ==> after.entries[k] <= Max1(s.entries[k]))
            && (after.entries[k] > s.entries[k]
                ==> k.client == b.machine && k.mode == b.mode && exists r :: r in rows && r.signal == k.signal)
            && (b.dry ==> after == s)
    decreases |rows|
  {
    if |rows| > 0 {
      RepairAddsAtMostOne(s, b, rows[0], os[0], k);
      BatchIsSafe(Repair(s, b, rows[0], os[0]).0, b, rows[1..], os[1..], k);
      var rest := rows[1..];
      assert forall r :: r in rest ==> r in rows;
      assert rows[0] in rows;
    }
  }

  /** When the run returns, every scanned row is counted once. */
  lemma {:induction false} EveryRowIsCounted(s: Store, b: Batch, rows: seq<QueueRow>, os: seq<Outside>)
    requires |rows| == |os|
    ensures var outcomes := RepairAll(s, b, rows, os).1;
            Aborted !in outcomes ==>
              |outcomes| == |rows| == Tally(outcomes, REPAIRS) + Tally(outcomes, ALREADIES) + Tally(outcomes, SKIPS)
                  + Tally(outcomes, FAILURES)
    decreases |rows|
  {
    if |rows| > 0 {
      var first := Repair(s, b, rows[0], os[0]);
      if !first.1.Aborted? {
        EveryRowIsCounted(first.0, b, rows[1..], os[1..]);
        var rest := RepairAll(first.0, b, rows[1..], os[1..]).1;
        assert ([first.1] + rest)[1..] == rest;
        assert Aborted in rest ==> Aborted in [first.1] + rest;
      }
    }
  }

  /** A row is repaired exactly when it names the ticker it was armed for, scores enough, can be
      planned on proven evidence, no order is found and the creation succeeds; where the batch looks
      for what it creates, a real repair takes every row of that signal out of later batches. */
  lemma RepairedMeansDone(s: Store, b: Batch, r: QueueRow, o: Outside, x: QueueRow)
    ensures var (after, outcome) := Repair(s, b, r, o);
            && (outcome.Repaired? <==>
                  && r.payload.Payload? && r.lastError.Armed? && r.lastError.ticker == r.payload.ticker != ""
                  && r.payload.score >= b.floor && r.payload.planned && r.payload.proven && !o.queryFails && !b.dry
                  && s.entries[Asked(b, r.signal)] == 0 && o.creation.Creates?)
            && (outcome.Repaired? && x.signal == r.signal && Eligible(after, b, x) ==> b.client != b.machine)
            && (!outcome.Repaired? && !outcome.Failed? ==> after == s)
  {
  }

  // ---- Any number of runs ----

  /** One run over whatever it loaded, repeated signals included. */
  datatype Event = Event(b: Batch, rows: seq<QueueRow>, os: seq<Outside>)

  /** A row handled in some run: the key of its order and what became of it. */
  datatype Done = Done(key: Key, outcome: Outcome)

  function Log(b: Batch, rows: seq<QueueRow>, outcomes: seq<Outcome>): seq<Done>
    requires |outcomes| <= |rows|
  {
    if |outcomes| == 0 then [] else [Done(Created(b, rows[0].signal), outcomes[0])] + Log(b, rows[1..], outcomes[1..])
  }

  ghost predicate WellFormed(es: seq<Event>) {
    forall e :: e in es ==> |e.rows| == |e.os|
  }

  function After(s: Store, es: seq<Event>): (r: (Store, seq<Done>))
    requires WellFormed(es)
    decreases |es|
  {
    if |es| == 0 then (s, [])
    else
      var one := RepairAll(s, es[0].b, es[0].rows, es[0].os);
      var rest := After(one.0, es[1..]);
      (rest.0, Log(es[0].b, es[0].rows, one.1) + rest.1)
  }

  /** How often a key was repaired. */
  function Repairings(log: seq<Done>, k: Key): nat {
    if |log| == 0 then 0 else (if log[0].key == k && log[0].outcome.Repaired? then 1 else 0) + Repairings(log[1..], k)
  }

  lemma {:induction false} RepairingsAdd(a: seq<Done>, b: seq<Done>, k: Key)
    ensures Repairings(a + b, k) == Repairings(a, k) + Repairings(b, k)
  {
    if |a| == 0 {
      assert a + b == b;
    } else {
      RepairingsAdd(a[1..], b, k);
      assert (a + b)[1..] == a[1..] + b;
    }
  }

  /** Every repairing of a key is one more order for it. */
  lemma {:induction false} RepairsAreOrders(s: Store, b: Batch, rows: seq<QueueRow>, os: seq<Outside>, k: Key)
    requires |rows| == |os|
    ensures var (after, outcomes) := RepairAll(s, b, rows, os);
            s.entries[k] + Repairings(Log(b, rows, outcomes), k) <= after.entries[k]
    decreases |rows|
  {
    if |rows| > 0 {
      var first := Repair(s, b, rows[0], os[0]);
      RepairAddsAtMostOne(s, b, rows[0], os[0], k);
      if first.1.Aborted? {
        assert Log(b, rows, [Aborted])[1..] == [];
      } else {
        RepairsAreOrders(first.0, b, rows[1..], os[1..], k);
        var rest := RepairAll(first.0, b, rows[1..], os[1..]).1;
        assert ([first.1] + rest)[1..] == rest;
        var log := Log(b, rows, [first.1] + rest);
        assert log[1..] == Log(b, rows[1..], rest);
      }
    }
  }

  ghost predicate AllSettle(es: seq<Event>, k: Key) {
    forall e :: e in es ==> Settles(e.b, k)
  }

  /** Over any number of runs, with any failures in between: as long as every batch looks for the
      orders it creates, at most one ENTRY order and at most one repair per signal, client and mode. */
  lemma {:induction false} RescueIsSafe(s: Store, es: seq<Event>, k: Key)
    requires WellFormed(es)
    ensures var (after, log) := After(s, es);
            && s.entries[k] + Repairings(log, k) <= after.entries[k]
            && (AllSettle(es, k) ==> after.entries[k] <= Max1(s.entries[k]) && Repairings(log, k) <= 1)
    decreases |es|
  {
    if |es| > 0 {
      var e, rest := es[0], es[1..];
      var one := RepairAll(s, e.b, e.rows, e.os);
      BatchIsSafe(s, e.b, e.rows, e.os, k);
      RepairsAreOrders(s, e.b, e.rows, e.os, k);
      RescueIsSafe(one.0, rest, k);
      assert forall x :: x in es <==> x == e || x in rest;
      RepairingsAdd(Log(e.b, e.rows, one.1), After(one.0, rest).1, k);
    }
  }

  // ---- Exactly which clients are safe ----

  /** Each run handles what it loads from the store it meets. */
  ghost predicate Genuine(s: Store, es: seq<Event>)
    decreases |es|
  {
    |es| > 0 ==>
      && es[0].rows == Load(s, es[0].b, s.queue) && |es[0].rows| == |es[0].os|
      && Genuine(RepairAll(s, es[0].b, es[0].rows, es[0].os).0, es[1..])
  }

  ghost predicate Uses(es: seq<Event>, client: string, machine: string, mode: string) {
    forall e :: e in es ==> e.b.client == client && e.b.machine == machine && e.b.mode == mode
  }

  /** No genuine history of runs for this client, machine and mode gives any key a second order. */
  ghost predicate NeverTwice(client: string, machine: string, mode: string) {
    forall s: Store, es: seq<Event>, k: Key ::
      (WellFormed(es) && Genuine(s, es) && Uses(es, client, machine, mode))
          ==> After(s, es).0.entries[k] <= Max1(s.entries[k])
  }

  function Witness(client: string): QueueRow {
    QueueRow(1, "sig", client, true, 0, Armed("SPY"), Payload("SPY", 60.0, true, true))
  }

  function Again(client: string, machine: string, mode: string): Event {
    Event(Batch(client, machine, mode, false, 0, 1, 60.0), [Witness(client)], [Outside(false, Creates, true)])
  }

  /** With two different ids one failed result write is enough: the row stays eligible, the second
      run does not see the order of the first, and both report a repair. */
  lemma MismatchRepairsTwice(client: string, machine: string, mode: string)
    requires client != machine
    ensures var s, e := Store(multiset{}, [Witness(client)]), Again(client, machine, mode);
            && WellFormed([e, e]) && Genuine(s, [e, e]) && Uses([e, e], client, machine, mode)
            && After(s, [e, e]).0.entries[Key("sig", machine, mode)] == 2
            && Repairings(After(s, [e, e]).1, Key("sig", machine, mode)) == 2
  {
    var s, e, k := Store(multiset{}, [Witness(client)]), Again(client, machine, mode), Key("sig", machine, mode);
    var s1 := Store(multiset{k}, [Witness(client)]);
    var s2 := Store(multiset{k, k}, [Witness(client)]);
    OneRow(s, s1, e);
    OneRow(s1, s2, e);
    assert [e, e][1..] == [e] && [e][1..] == [];
    assert After(s2, []) == (s2, []);
    assert After(s1, [e]).0 == s2 && After(s1, [e]).1 == Log(e.b, e.rows, [Repaired]) + [];
    RepairingsAdd(Log(e.b, e.rows, [Repaired]), After(s1, [e]).1, k);
    LogOfOne(e, k);
  }

  lemma LogOfOne(e: Event, k: Key)
    requires |e.rows| == 1 && k == Created(e.b, e.rows[0].signal)
    ensures Repairings(Log(e.b, e.rows, [Repaired]), k) == 1
    ensures Log(e.b, e.rows, [Repaired]) + [] == Log(e.b, e.rows, [Repaired])
  {
    assert Log(e.b, e.rows, [Repaired]) == [Done(k, Repaired)] + Log(e.b, e.rows[1..], []);
    assert Log(e.b, e.rows, [Repaired])[1..] == [];
  }

  lemma OneRow(s: Store, after: Store, e: Event)
    requires e == Again(e.b.client, e.b.machine, e.b.mode) && s.queue == [Witness(e.b.client)]
    requires Asked(e.b, "sig") !in s.entries
    requires after == s.(entries := s.entries + multiset{Created(e.b, "sig")})
    ensures Load(s, e.b, s.queue) == e.rows && RepairAll(s, e.b, e.rows, e.os) == (after, [Repaired])
  {
    assert s.queue[..0] == [];
    assert Eligible(s, e.b, Witness(e.b.client));
    assert Repair(s, e.b, e.rows[0], e.os[0]) == (after, Repaired);
    assert RepairAll(after, e.b, e.rows[1..], e.os[1..]) == (after, []);
    assert [Repaired] + [] == [Repaired];
  }

  /** The law holds for a client exactly when the order machine writes that very id. */
  lemma NeverTwiceIff(client: string, machine: string, mode: string)
    ensures NeverTwice(client, machine, mode) <==> client == machine
  {
    if client == machine {
      forall s: Store, es: seq<Event>, k: Key | WellFormed(es) && Genuine(s, es) && Uses(es, client, machine, mode)
        ensures After(s, es).0.entries[k] <= Max1(s.entries[k])
      {
        RescueIsSafe(s, es, k);
      }
    } else {
      MismatchRepairsTwice(client, machine, mode);
      var s, e := Store(multiset{}, [Witness(client)]), Again(client, machine, mode);
      assert After(s, [e, e]).0.entries[Key("sig", machine, mode)] > Max1(s.entries[Key("sig", machine, mode)]);
    }
  }

  predicate HasCapital(id: string) {
    exists i :: 0 <= i < |id| && 'A' <= id[i] <= 'Z'
  }

  lemma {:induction false} LowerFixesIff(id: string)
    ensures Lower(id) == id <==> !HasCapital(id)
  {
    if id != "" {
      LowerFixesIff(id[1..]);
      assert Lower(id) == [LowerChar(id[0])] + Lower(id[1..]) && id == [id[0]] + id[1..];
      assert Lower(id)[1..] == Lower(id[1..]);
      if HasCapital(id[1..]) {
        var i :| 0 <= i < |id[1..]| && 'A' <= id[1..][i] <= 'Z';
        assert id[i + 1] == id[1..][i];
      }
      if !HasCapital(id[1..]) && HasCapital(id) {
        var i :| 0 <= i < |id| && 'A' <= id[i] <= 'Z';
        assert i > 0 ==> id[1..][i - 1] == id[i];
      }
    }
  }

  /** For one account, whose machine folds its id to lower case: safe exactly without a capital. */
  lemma OneAccountIsSafeIff(client: string, mode: string)
    ensures NeverTwice(client, Lower(client), mode) <==> !HasCapital(client)
  {
    NeverTwiceIff(client, Lower(client), mode);
    LowerFixesIff(client);
  }
}
