/**
 The rescue batch field by field: which rows it loads, what it makes of each, and what it reports.
 */
module RescueTable {
  import opened Common
  import opened Rescue

  /** A row is loaded exactly if it belongs to the batch's client, still watches under an armed text, was
      created inside the window, and has no order under that client and mode; the order of the queue is
      kept. */
  lemma {:induction false} LoadedIff(s: Store, b: Batch, queue: seq<QueueRow>, r: QueueRow)
    ensures r in Load(s, b, queue) <==>
              && r in queue && r.client == b.client && r.watching && r.lastError.Armed?
              && b.from <= r.created && r.created < b.until
              && s.entries[Key(r.signal, b.client, b.mode)] == 0
    ensures |queue| > 0 && r == queue[|queue| - 1] && Load(s, b, queue) != Load(s, b, queue[..|queue| - 1]) ==>
              Load(s, b, queue) == Load(s, b, queue[..|queue| - 1]) + [r]
  {
    if |queue| > 0 {
      LoadedIff(s, b, queue[..|queue| - 1], r);
      assert queue == queue[..|queue| - 1] + [queue[|queue| - 1]];
    }
  }

  /** The row names the ticker it was armed for and scores enough. */
  ghost predicate Worth(b: Batch, r: QueueRow) {
    && r.payload != Empty && r.lastError.Armed? && r.lastError.ticker != "" && r.lastError.ticker == r.payload.ticker
    && r.payload.score >= b.floor
  }

  /** An order is tried for it. */
  ghost predicate Tried(s: Store, b: Batch, r: QueueRow, o: Outside) {
    && Worth(b, r) && !o.queryFails && s.entries[Key(r.signal, b.client, b.mode)] == 0
    && r.payload.planned && r.payload.proven && !b.dry
  }

  /** What becomes of a row. */
  lemma OutcomeIs(s: Store, b: Batch, r: QueueRow, o: Outside)
    ensures var outcome, found := Repair(s, b, r, o).1, s.entries[Key(r.signal, b.client, b.mode)] > 0;
            && (outcome == Aborted <==> Worth(b, r) && o.queryFails)
            && (outcome == AlreadyRepaired <==> Worth(b, r) && !o.queryFails && found)
            && (outcome == WouldRepair <==>
                  Worth(b, r) && !o.queryFails && !found && r.payload.planned && r.payload.proven && b.dry)
            && (outcome == Repaired <==> Tried(s, b, r, o) && o.creation == Creates)
            && (outcome == Failed <==> Tried(s, b, r, o) && o.creation != Creates)
  {
  }

  /** What it leaves: an order for the order machine's client if one was inserted, whatever was answered,
      and, unless that write fails too, the result in the row. */
  lemma EffectIs(s: Store, b: Batch, r: QueueRow, o: Outside, i: nat)
    requires i < |s.queue|
    ensures var after := Repair(s, b, r, o).0;
            var inserted := Tried(s, b, r, o) && (o.creation == Creates || o.creation.inserted);
            && after.entries ==
                 (if inserted then s.entries + multiset{Key(r.signal, b.machine, b.mode)} else s.entries)
            && |after.queue| == |s.queue|
            && after.queue[i] ==
                 (if Tried(s, b, r, o) && !o.writeFails && s.queue[i].id == r.id && s.queue[i].client == b.client
                  then s.queue[i].(lastError := if o.creation == Creates then RescueOk else RescueFailed)
                  else s.queue[i])
  {
  }

  lemma {:induction false} TallyIs(outcomes: seq<Outcome>)
    ensures Tally(outcomes, REPAIRS) == multiset(outcomes)[Repaired] + multiset(outcomes)[WouldRepair]
    ensures Tally(outcomes, ALREADIES) == multiset(outcomes)[AlreadyRepaired]
    ensures Tally(outcomes, SKIPS) == multiset(outcomes)[Skipped]
    ensures Tally(outcomes, FAILURES) == multiset(outcomes)[Failed]
  {
    if |outcomes| > 0 {
      TallyIs(outcomes[1..]);
      assert outcomes == [outcomes[0]] + outcomes[1..];
    }
  }

  /** What a batch reports: nothing if a row aborted it, else the rows scanned and how many ended each way,
      and success exactly without a failure. */
  lemma ReportIs(scanned: nat, outcomes: seq<Outcome>)
    ensures var m := multiset(outcomes);
            Totals(scanned, outcomes) ==
              if m[Aborted] > 0 then None
              else Some(Summary(m[Failed] == 0, scanned, m[Repaired] + m[WouldRepair], m[AlreadyRepaired], m[Skipped],
                                m[Failed]))
  {
    TallyIs(outcomes);
  }
}
