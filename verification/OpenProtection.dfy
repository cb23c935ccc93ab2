/**
 Market-open protection: in the first minutes of a session each identity may be triggered by
 one registration only, however many polls and batches it takes that one to get through.
 */
module OpenProtection {
  import opened Common

  /** Who may retry: a registration token, or for older watchers the order and signal ids. */
  datatype Owner = Registration(token: string) | Legacy(order: string, signal: string)

  /** A completed watcher of one poll; `key` is the protected identity, the ticker unless the
      identity hook says otherwise.  `expired` is the watcher's own state. */
  datatype Item = Item(trigger: bool, key: string, ticker: string, owner: Owner, expired: bool)

  datatype Gate = Gate(count: nat, keys: set<string>, tickers: set<string>, owners: map<string, Owner>)

  const OPEN := Gate(0, {}, {}, map[])

  predicate Taken(g: Gate, it: Item) {
    it.key in g.keys || (g.keys == {} && it.ticker in g.tickers)
  }

  predicate Owns(g: Gate, it: Item) {
    it.key in g.owners && g.owners[it.key] == it.owner
  }

  function Enter(g: Gate, it: Item): Gate {
    if !it.trigger || Taken(g, it) then g
    else Gate(g.count + 1, g.keys + {it.key}, g.tickers + (if it.ticker == "" then {} else {it.ticker}),
        g.owners[it.key := it.owner])
  }

  function Passed(g: Gate, it: Item): Item {
    if !it.trigger || !Taken(g, it) || Owns(g, it) then it
    else it.(trigger := false, expired := true)
  }

  function GateAfter(g: Gate, items: seq<Item>): Gate {
    if |items| == 0 then g else Enter(GateAfter(g, items[..|items| - 1]), items[|items| - 1])
  }

  function Output(g: Gate, items: seq<Item>): (out: seq<Item>)
    ensures |out| == |items|
  {
    if |items| == 0 then []
    else Output(g, items[..|items| - 1]) + [Passed(GateAfter(g, items[..|items| - 1]), items[|items| - 1])]
  }

  /** The watcher's open-protection fields and the loop that applies them. */
  class OpenGuard {
    var count: nat
    var keys: set<string>
    var tickers: set<string>
    var owners: map<string, Owner>
    var date: Option<int>

    ghost function View(): Gate
      reads this
    {
      Gate(count, keys, tickers, owners)
    }

    constructor ()
      ensures View() == OPEN && date == None
    {
      count, keys, tickers, owners, date := 0, {}, {}, map[], None;
    }

    /** A poll on another date than the last one starts over. */
    method OpenDay(today: int)
      modifies this
      ensures date == Some(today)
      ensures View() == if old(date) == Some(today) then old(View()) else OPEN
    {
      if date != Some(today) {
        date := Some(today);
        count, tickers, keys, owners := 0, {}, {}, map[];
      }
    }

    method Apply(completed: seq<Item>, active: bool) returns (protected: seq<Item>)
      modifies `count, `keys, `tickers, `owners
      ensures active ==> protected == Output(old(View()), completed) && View() == GateAfter(old(View()), completed)
      ensures !active ==> protected == completed && View() == old(View())
    {
      if !active {
        return completed;
      }
      ghost var before := View();
      protected := [];
      for i := 0 to |completed|
        invariant protected == Output(before, completed[..i])
        invariant View() == GateAfter(before, completed[..i])
      {
        var it := completed[i];
        assert completed[..i + 1][..i] == completed[..i];
        ghost var gate := View();
        if !it.trigger {
          protected := protected + [it];
        } else {
          var already := it.key in keys;
          if !already && keys == {} {
            already := it.ticker in tickers;
          }
          if already {
            if it.key in owners && owners[it.key] == it.owner {
              protected := protected + [it];
            } else {
              protected := protected + [it.(trigger := false, expired := true)];
            }
          } else {
            count := count + 1;
            keys := keys + {it.key};
            owners := owners[it.key := it.owner];
            if it.ticker != "" {
              tickers := tickers + {it.ticker};
            }
            protected := protected + [it];
          }
        }
        assert View() == Enter(gate, it);
      }
      assert completed[..|completed|] == completed;
    }
  }

  // ---- One batch ----

  ghost predicate Consistent(g: Gate) {
    g.count == |g.keys| && g.keys == g.owners.Keys
  }

  /** No ticker was put into the historical ticker set before the first key. */
  predicate Unseeded(g: Gate) {
    g.keys == {} ==> g.tickers == {}
  }

  /** Who holds a key once the batch is through: the recorded owner, or the first to ask. */
  function Holder(g: Gate, items: seq<Item>, key: string): Option<Owner> {
    if key in g.owners then Some(g.owners[key])
    else if |items| == 0 then None
    else if items[0].trigger && items[0].key == key then Some(items[0].owner)
    else Holder(g, items[1..], key)
  }

  lemma {:induction false} HolderOfPrefix(g: Gate, items: seq<Item>, key: string)
    requires |items| > 0
    ensures var front, last := items[..|items| - 1], items[|items| - 1];
            Holder(g, items, key) ==
                if Holder(g, front, key).None? && last.trigger && last.key == key
                    then Some(last.owner) else Holder(g, front, key)
  {
    if |items| > 1 && key !in g.owners && !(items[0].trigger && items[0].key == key) {
      HolderOfPrefix(g, items[1..], key);
      assert items[1..][..|items| - 2] == items[..|items| - 1][1..];
    }
  }

  /** How many items the historical ticker set alone holds back: while no key is admitted, all up
      to the first trigger whose ticker is not in it. */
  function Opening(g: Gate, items: seq<Item>): (n: nat)
    ensures n <= |items|
  {
    if g.keys != {} || |items| == 0 || (items[0].trigger && items[0].ticker !in g.tickers) then 0
    else 1 + Opening(g, items[1..])
  }

  /** The ticker set alone holds nothing back any more. */
  predicate Started(g: Gate, items: seq<Item>) {
    g.keys != {} || g.tickers == {} || |items| == 0 || (items[0].trigger && items[0].ticker !in g.tickers)
  }

  function OwnerIn(g: Gate, key: string): Option<Owner> {
    if key in g.owners then Some(g.owners[key]) else None
  }

  /** `h` knows exactly the holders of the batch. */
  ghost predicate Bound(g: Gate, items: seq<Item>, h: Gate) {
    forall key :: OwnerIn(h, key) == Holder(g, items, key)
  }

  lemma OneMoreBinds(g: Gate, items: seq<Item>, h: Gate)
    requires |items| > 0 && Consistent(h) && Bound(g, items[..|items| - 1], h)
    requires var last := items[|items| - 1]; h.keys == {} && last.trigger ==> last.ticker !in h.tickers
    ensures Bound(g, items, Enter(h, items[|items| - 1]))
  {
    var last := items[|items| - 1];
    forall key ensures OwnerIn(Enter(h, last), key) == Holder(g, items, key) {
      HolderOfPrefix(g, items, key);
      assert OwnerIn(h, key) == Holder(g, items[..|items| - 1], key);
    }
  }

  /** The loop's bookkeeping: each admitted key is counted once and bound to its first holder. */
  lemma {:induction false} BatchBinds(g: Gate, items: seq<Item>)
    requires Consistent(g) && Started(g, items)
    ensures var h := GateAfter(g, items);
            && Consistent(h) && g.keys <= h.keys && (Unseeded(g) ==> Unseeded(h))
            && (|items| > 0 && g.tickers != {} ==> h.keys != {})
            && (h.keys == {} ==> h == g) && Bound(g, items, h)
  {
    if |items| > 0 {
      var front := items[..|items| - 1];
      BatchBinds(g, front);
      OneMoreBinds(g, items, GateAfter(g, front));
    } else {
      assert forall key :: OwnerIn(g, key) == Holder(g, items, key);
    }
  }

  /** Nothing enters before the opening. */
  lemma {:induction false} ClosedBefore(g: Gate, items: seq<Item>, i: nat)
    requires i <= Opening(g, items)
    ensures GateAfter(g, items[..i]) == g
    ensures i < Opening(g, items) ==> g.keys == {} && (items[i].trigger ==> items[i].ticker in g.tickers)
  {
    if i > 0 {
      ClosedBefore(g, items, i - 1);
      assert items[..i][..i - 1] == items[..i - 1];
    }
    if i < Opening(g, items) { OpeningAt(g, items, i); }
    if i > 0 { OpeningAt(g, items, i - 1); }
  }

  lemma {:induction false} OpeningAt(g: Gate, items: seq<Item>, i: nat)
    requires i < Opening(g, items)
    ensures g.keys == {} && !(items[i].trigger && items[i].ticker !in g.tickers)
  {
    if i > 0 {
      OpeningAt(g, items[1..], i - 1);
    }
  }

  lemma {:induction false} OpeningStarts(g: Gate, items: seq<Item>)
    ensures Started(g, items[Opening(g, items)..])
  {
    if g.keys == {} && |items| > 0 && !(items[0].trigger && items[0].ticker !in g.tickers) {
      OpeningStarts(g, items[1..]);
      assert items[Opening(g, items)..] == items[1..][Opening(g, items[1..])..];
    } else {
      assert items[0..] == items;
    }
  }

  lemma {:induction false} GateSplits(g: Gate, items: seq<Item>, n: nat)
    requires n <= |items|
    ensures GateAfter(g, items) == GateAfter(GateAfter(g, items[..n]), items[n..])
  {
    if n == |items| {
      assert items[..n] == items;
    } else {
      var front := items[..|items| - 1];
      GateSplits(g, front, n);
      assert front[..n] == items[..n] && items[n..][..|items| - n - 1] == front[n..];
    }
  }

  lemma {:induction false} HolderIsSettled(g: Gate, items: seq<Item>, n: nat, key: string)
    requires n <= |items| && Holder(g, items[..n], key).Some?
    ensures Holder(g, items, key) == Holder(g, items[..n], key)
  {
    if n < |items| {
      assert items[..|items| - 1][..n] == items[..n];
      HolderIsSettled(g, items[..|items| - 1], n, key);
      HolderOfPrefix(g, items, key);
    } else {
      assert items[..n] == items;
    }
  }

  lemma {:induction false} OutputAt(g: Gate, items: seq<Item>, i: nat)
    requires i < |items|
    ensures Output(g, items)[i] == Passed(GateAfter(g, items[..i]), items[i])
  {
    if i < |items| - 1 {
      OutputAt(g, items[..|items| - 1], i);
      assert items[..|items| - 1][..i] == items[..i];
    }
  }

  /** Order and length are kept, for every gate.  An item changes exactly when it is a trigger that
      the ticker set alone still holds back, or whose key some other registration holds; it then
      becomes an expired non-trigger. */
  lemma OnlyTheHolderPasses(g: Gate, items: seq<Item>, i: nat)
    requires Consistent(g) && i < |items|
    ensures var it, n := items[i], Opening(g, items);
            Output(g, items)[i] ==
              if it.trigger && (i < n || Holder(g, items[n..], it.key) != Some(it.owner))
                  then it.(trigger := false, expired := true) else it
  {
    var n := Opening(g, items);
    OutputAt(g, items, i);
    if i < n {
      ClosedBefore(g, items, i);
    } else {
      ClosedBefore(g, items, n);
      OpeningStarts(g, items);
      GateSplits(g, items[..i], n);
      assert items[..i][..n] == items[..n] && items[..i][n..] == items[n..][..i - n];
      PassesFromTheOpening(g, items[n..], i - n);
    }
  }

  lemma PassesFromTheOpening(g: Gate, items: seq<Item>, i: nat)
    requires Consistent(g) && Started(g, items) && i < |items|
    ensures var it := items[i];
            Passed(GateAfter(g, items[..i]), it) ==
              if it.trigger && Holder(g, items, it.key) != Some(it.owner)
                  then it.(trigger := false, expired := true) else it
  {
    var it := items[i];
    BatchBinds(g, items[..i]);
    if it.trigger {
      assert OwnerIn(GateAfter(g, items[..i]), it.key) == Holder(g, items[..i], it.key);
      var upTo := items[..i + 1];
      assert upTo[..i] == items[..i];
      HolderOfPrefix(g, upTo, it.key);
      HolderIsSettled(g, items, i + 1, it.key);
    }
  }

  lemma {:induction false} HolderIsFirst(g: Gate, items: seq<Item>, i: nat)
    requires i < |items| && items[i].trigger && items[i].key !in g.owners
    requires forall j :: 0 <= j < i ==> !(items[j].trigger && items[j].key == items[i].key)
    ensures Holder(g, items, items[i].key) == Some(items[i].owner)
  {
    if i > 0 {
      HolderIsFirst(g, items[1..], i - 1);
    }
  }

  /** How long the historical ticker-only seed protects: the first request for a seeded ticker's key
      gets through exactly when an earlier trigger of the batch had a ticker outside the seed.  No
      session of the watcher itself reaches a seeded gate (`OneRegistrationPerKey`). */
  lemma SeedProtectsUntil(g: Gate, items: seq<Item>, i: nat)
    requires Consistent(g) && g.keys == {} && i < |items| && items[i].trigger && items[i].ticker in g.tickers
    requires forall j :: 0 <= j < i ==> !(items[j].trigger && items[j].key == items[i].key)
    ensures Output(g, items)[i] == items[i]
        <==> exists j :: 0 <= j < i && items[j].trigger && items[j].ticker !in g.tickers
  {
    var n := Opening(g, items);
    OnlyTheHolderPasses(g, items, i);
    if n < i {
      OpeningIsATrigger(g, items);
      HolderIsFirst(g, items[n..], i - n);
    } else {
      forall j | 0 <= j < i ensures !(items[j].trigger && items[j].ticker !in g.tickers) {
        OpeningAt(g, items, j);
      }
      if n == i { OpeningIsATrigger(g, items); }
    }
  }

  lemma {:induction false} OpeningIsATrigger(g: Gate, items: seq<Item>)
    requires g.keys == {} && Opening(g, items) < |items|
    ensures var it := items[Opening(g, items)]; it.trigger && it.ticker !in g.tickers
  {
    if !(items[0].trigger && items[0].ticker !in g.tickers) {
      OpeningIsATrigger(g, items[1..]);
    }
  }

  // ---- A whole session ----

  datatype Poll = Poll(date: int, active: bool, items: seq<Item>)

  /** A trigger passed while protection was active, on the `day`-th session. */
  datatype Pass = Pass(day: nat, key: string, owner: Owner)
  datatype Session = Session(date: Option<int>, day: nat, gate: Gate, passes: set<Pass>)

  function Passes(day: nat, out: seq<Item>): set<Pass> {
    set i | 0 <= i < |out| && out[i].trigger :: Pass(day, out[i].key, out[i].owner)
  }

  function Next(s: Session, p: Poll): Session {
    var renewed := s.date != Some(p.date);
    var day, gate := if renewed then s.day + 1 else s.day, if renewed then OPEN else s.gate;
    if p.active then Session(Some(p.date), day, GateAfter(gate, p.items), s.passes + Passes(day, Output(gate, p.items)))
    else Session(Some(p.date), day, gate, s.passes)
  }

  function Run(polls: seq<Poll>): Session {
    if |polls| == 0 then Session(None, 0, OPEN, {}) else Next(Run(polls[..|polls| - 1]), polls[|polls| - 1])
  }

  ghost predicate Kept(s: Session) {
    && Consistent(s.gate) && Unseeded(s.gate)
    && (forall p :: p in s.passes ==>
          && p.day <= s.day
          && (p.day == s.day ==> p.key in s.gate.owners && s.gate.owners[p.key] == p.owner))
    && (forall p, q :: p in s.passes && q in s.passes && p.day == q.day && p.key == q.key ==> p.owner == q.owner)
  }

  lemma BatchPassesHolders(g: Gate, items: seq<Item>, day: nat, p: Pass)
    requires Consistent(g) && Unseeded(g) && p in Passes(day, Output(g, items))
    ensures p.day == day && p.key in GateAfter(g, items).owners && GateAfter(g, items).owners[p.key] == p.owner
  {
    var i :| 0 <= i < |items| && Output(g, items)[i].trigger
        && p == Pass(day, Output(g, items)[i].key, Output(g, items)[i].owner);
    OutputAt(g, items, i);
    PassesFromTheOpening(g, items, i);
    BatchBinds(g, items);
    assert OwnerIn(GateAfter(g, items), p.key) == Holder(g, items, p.key);
  }

  lemma HoldersStay(g: Gate, items: seq<Item>, key: string)
    requires Consistent(g) && Unseeded(g) && key in g.owners
    ensures key in GateAfter(g, items).owners && GateAfter(g, items).owners[key] == g.owners[key]
  {
    BatchBinds(g, items);
    assert OwnerIn(GateAfter(g, items), key) == Holder(g, items, key);
  }

  /** Over all polls and batches: one registration per key and session, and the counter is the
      number of keys, which are exactly the owned ones. */
  lemma {:induction false} OneRegistrationPerKey(polls: seq<Poll>)
    ensures Kept(Run(polls))
  {
    if |polls| > 0 {
      var s, p := Run(polls[..|polls| - 1]), polls[|polls| - 1];
      OneRegistrationPerKey(polls[..|polls| - 1]);
      var renewed := s.date != Some(p.date);
      var day, gate := if renewed then s.day + 1 else s.day, if renewed then OPEN else s.gate;
      if p.active {
        BatchBinds(gate, p.items);
        forall q | q in Passes(day, Output(gate, p.items))
            ensures q.day == day
            ensures q.key in GateAfter(gate, p.items).owners && GateAfter(gate, p.items).owners[q.key] == q.owner {
          BatchPassesHolders(gate, p.items, day, q);
        }
        forall key | key in gate.owners
            ensures key in GateAfter(gate, p.items).owners
            ensures GateAfter(gate, p.items).owners[key] == gate.owners[key] {
          HoldersStay(gate, p.items, key);
        }
      }
    }
  }

  /** How many sessions the polls have seen: the first, and one more at every change of date. */
  ghost function Sessions(polls: seq<Poll>): nat {
    if |polls| == 0 then 0
    else
      var n := |polls| - 1;
      Sessions(polls[..n]) + (if n == 0 || polls[n].date != polls[n - 1].date then 1 else 0)
  }

  /** The gate a poll meets: an open one in a new session, else the one the polls before it left. */
  ghost function GateAt(polls: seq<Poll>, m: nat): Gate
    requires m < |polls|
  {
    if m == 0 || polls[m].date != polls[m - 1].date then OPEN else Run(polls[..m]).gate
  }

  lemma {:induction false} SessionIs(polls: seq<Poll>)
    ensures Run(polls).day == Sessions(polls)
    ensures Run(polls).date == (if |polls| == 0 then None else Some(polls[|polls| - 1].date))
  {
    if |polls| > 0 {
      SessionIs(polls[..|polls| - 1]);
    }
  }

  /** Poll `m` was protected and let this registration through on this key. */
  ghost predicate LetsThrough(polls: seq<Poll>, m: nat, key: string, owner: Owner) {
    && m < |polls| && polls[m].active
    && exists i :: 0 <= i < |polls[m].items| && LetThrough(GateAt(polls, m), polls[m].items, i, key, owner)
  }

  ghost predicate LetThrough(g: Gate, items: seq<Item>, i: nat, key: string, owner: Owner)
    requires i < |items|
  {
    Output(g, items)[i].trigger && Output(g, items)[i].key == key && Output(g, items)[i].owner == owner
  }

  lemma {:induction false} PassIsRecorded(polls: seq<Poll>, m: nat, key: string, owner: Owner)
    requires LetsThrough(polls, m, key, owner)
    ensures Pass(Sessions(polls[..m + 1]), key, owner) in Run(polls).passes
  {
    var front := polls[..|polls| - 1];
    if m < |front| {
      assert front[..m] == polls[..m] && front[..m + 1] == polls[..m + 1];
      assert GateAt(front, m) == GateAt(polls, m);
      var i :| 0 <= i < |polls[m].items| && LetThrough(GateAt(polls, m), polls[m].items, i, key, owner);
      assert LetThrough(GateAt(front, m), front[m].items, i, key, owner);
      assert LetsThrough(front, m, key, owner);
      PassIsRecorded(front, m, key, owner);
    } else {
      SessionIs(front);
      SessionIs(polls);
      assert polls[..m + 1] == polls && polls[..m] == front;
      var items := polls[m].items;
      var i :| 0 <= i < |items| && LetThrough(GateAt(polls, m), items, i, key, owner);
      assert Pass(Sessions(polls), key, owner) in Passes(Sessions(polls), Output(GateAt(polls, m), items));
    }
  }

  /** In any two protected polls of one session, early or late, only one registration gets through on a
      key. */
  lemma OneOwnerPerSession(polls: seq<Poll>, m: nat, n: nat, key: string, first: Owner, second: Owner)
    requires LetsThrough(polls, m, key, first) && LetsThrough(polls, n, key, second)
    requires Sessions(polls[..m + 1]) == Sessions(polls[..n + 1])
    ensures first == second
  {
    PassIsRecorded(polls, m, key, first);
    PassIsRecorded(polls, n, key, second);
    OneRegistrationPerKey(polls);
  }

  /** The non-empty tickers of the items that raised the count. */
  ghost function CountedTickers(g: Gate, items: seq<Item>): set<string> {
    if |items| == 0 then {}
    else
      var front, last := items[..|items| - 1], items[|items| - 1];
      CountedTickers(g, front)
      + (if GateAfter(g, items).count > GateAfter(g, front).count && last.ticker != "" then {last.ticker} else {})
  }

  /** The ticker set is bookkeeping: what it held, and the tickers of the items counted since. */
  lemma {:induction false} TickersAre(g: Gate, items: seq<Item>)
    ensures GateAfter(g, items).tickers == g.tickers + CountedTickers(g, items)
  {
    if |items| > 0 {
      TickersAre(g, items[..|items| - 1]);
    }
  }
}
