/**
 The nightly edge statistics, in exact reals: grouping trades into buckets, the expectancy and
 drawdown of a bucket, and the label drawn from them.
 */
module EdgeStats {
  import opened Common
  import opened Joins

  datatype Dimension = Ticker | Timeframe | Setup | TimeOfDay | Direction

  /** The five bucket fields ("" when missing) and the net result, if it was logged. */
  datatype Trade = Trade(ticker: string, timeframe: string, setup: string, timeOfDay: string, direction: string,
      netPnl: Option<real>)

  function FieldOf(t: Trade, d: Dimension): string {
    match d
    case Ticker => t.ticker
    case Timeframe => t.timeframe
    case Setup => t.setup
    case TimeOfDay => t.timeOfDay
    case Direction => t.direction
  }

  /** One dimension alone, or all five joined. */
  datatype Bucketing = Single(d: Dimension) | Combo

  function OrElse(s: string, fallback: string): string {
    if s == "" then fallback else s
  }

  function ComboParts(t: Trade): seq<string> {
    [OrElse(t.ticker, "?"), OrElse(t.direction, "?"), OrElse(t.timeframe, "?"), OrElse(t.setup, "?"),
        OrElse(t.timeOfDay, "?")]
  }

  function KeyOf(t: Trade, b: Bucketing): string {
    if b.Single? then OrElse(FieldOf(t, b.d), "unknown") else Join(ComboParts(t))
  }

  function Pnl(t: Trade): real {
    if t.netPnl.Some? then t.netPnl.value else 0.0
  }

  function Pnls(ts: seq<Trade>): seq<real> {
    if |ts| == 0 then [] else Pnls(ts[..|ts| - 1]) + [Pnl(ts[|ts| - 1])]
  }

  function Sum(rs: seq<real>): real {
    if |rs| == 0 then 0.0 else Sum(rs[..|rs| - 1]) + rs[|rs| - 1]
  }

  // ---- Grouping ----

  function GroupOf(ts: seq<Trade>, b: Bucketing, key: string): seq<Trade> {
    if |ts| == 0 then []
    else
      var front := GroupOf(ts[..|ts| - 1], b, key);
      if KeyOf(ts[|ts| - 1], b) == key then front + [ts[|ts| - 1]] else front
  }

  /** The keys in order of first appearance. */
  function KeysOf(ts: seq<Trade>, b: Bucketing): seq<string> {
    if |ts| == 0 then []
    else
      var front, last := KeysOf(ts[..|ts| - 1], b), ts[|ts| - 1];
      if KeyOf(last, b) in front then front else front + [KeyOf(last, b)]
  }

  /** There is a key for every trade and a trade for every key. */
  lemma {:induction false} KeysHaveTrades(ts: seq<Trade>, b: Bucketing, key: string)
    ensures key in KeysOf(ts, b) <==> GroupOf(ts, b, key) != []
    ensures forall t :: t in GroupOf(ts, b, key) <==> t in ts && KeyOf(t, b) == key
  {
    if |ts| > 0 {
      KeysHaveTrades(ts[..|ts| - 1], b, key);
      assert ts == ts[..|ts| - 1] + [ts[|ts| - 1]];
    }
  }

  lemma GroupSnoc(ts: seq<Trade>, i: nat, b: Bucketing, key: string)
    requires i < |ts|
    ensures GroupOf(ts[..i + 1], b, key) == GroupOf(ts[..i], b, key) + (if KeyOf(ts[i], b) == key then [ts[i]] else [])
    ensures KeysOf(ts[..i + 1], b) == KeysOf(ts[..i], b)
        + (if KeyOf(ts[i], b) in KeysOf(ts[..i], b) then [] else [KeyOf(ts[i], b)])
  {
    assert ts[..i + 1][..i] == ts[..i];
  }

  lemma NewKeyIsEmpty(ts: seq<Trade>, b: Bucketing, key: string)
    requires key !in KeysOf(ts, b)
    ensures GroupOf(ts, b, key) == []
  {
    KeysHaveTrades(ts, b, key);
  }

  /** The dictionary after some trades: one entry per key, holding that key's trades. */
  ghost predicate Grouped(groups: map<string, seq<Trade>>, ts: seq<Trade>, b: Bucketing) {
    && (forall k :: k in groups <==> k in KeysOf(ts, b))
    && (forall k :: k in groups ==> groups[k] == GroupOf(ts, b, k))
  }

  function Filed(groups: map<string, seq<Trade>>, key: string, t: Trade): map<string, seq<Trade>> {
    groups[key := (if key in groups then groups[key] else []) + [t]]
  }

  lemma FilingKeepsGroups(groups: map<string, seq<Trade>>, ts: seq<Trade>, i: nat, b: Bucketing)
    requires i < |ts| && Grouped(groups, ts[..i], b)
    ensures Grouped(Filed(groups, KeyOf(ts[i], b), ts[i]), ts[..i + 1], b)
  {
    var key := KeyOf(ts[i], b);
    var after := Filed(groups, key, ts[i]);
    GroupSnoc(ts, i, b, key);
    if key !in groups {
      NewKeyIsEmpty(ts[..i], b, key);
    }
    forall k | k in after ensures after[k] == GroupOf(ts[..i + 1], b, k) {
      GroupSnoc(ts, i, b, k);
    }
  }

  lemma OpenedThenFiled(groups: map<string, seq<Trade>>, key: string, t: Trade)
    ensures key !in groups ==> var empty := groups[key := []]; empty[key := empty[key] + [t]] == Filed(groups, key, t)
  {
  }

  method Group(trades: seq<Trade>, b: Bucketing) returns (keys: seq<string>, groups: map<string, seq<Trade>>)
    ensures keys == KeysOf(trades, b)
    ensures Grouped(groups, trades, b)
  {
    keys, groups := [], map[];
    for i := 0 to |trades|
      invariant keys == KeysOf(trades[..i], b)
      invariant Grouped(groups, trades[..i], b)
    {
      var t := trades[i];
      var key := KeyOf(t, b);
      FilingKeepsGroups(groups, trades, i, b);
      OpenedThenFiled(groups, key, t);
      GroupSnoc(trades, i, b, key);
      if key !in groups {
        keys := keys + [key];
        groups := groups[key := []];
      }
      groups := groups[key := groups[key] + [t]];
    }
    assert trades[..|trades|] == trades;
  }

  function CountOver(ts: seq<Trade>, b: Bucketing, keys: seq<string>): nat {
    if |keys| == 0 then 0 else CountOver(ts, b, keys[..|keys| - 1]) + |GroupOf(ts, b, keys[|keys| - 1])|
  }

  function PnlOver(ts: seq<Trade>, b: Bucketing, keys: seq<string>): real {
    if |keys| == 0 then 0.0 else PnlOver(ts, b, keys[..|keys| - 1]) + Sum(Pnls(GroupOf(ts, b, keys[|keys| - 1])))
  }

  ghost predicate Distinct(ks: seq<string>) {
    forall i, j :: 0 <= i < j < |ks| ==> ks[i] != ks[j]
  }

  lemma {:induction false} KeysAreDistinct(ts: seq<Trade>, b: Bucketing)
    ensures Distinct(KeysOf(ts, b))
  {
    if |ts| > 0 {
      KeysAreDistinct(ts[..|ts| - 1], b);
    }
  }

  lemma SumSnoc(ts: seq<Trade>, t: Trade)
    ensures Sum(Pnls(ts + [t])) == Sum(Pnls(ts)) + Pnl(t)
  {
    assert (ts + [t])[..|ts|] == ts;
    assert Pnls(ts + [t])[..|Pnls(ts)|] == Pnls(ts);
  }

  /** Adding one trade changes the totals over some distinct keys by that trade, if its key is one. */
  lemma {:induction false} OneMoreTrade(ts: seq<Trade>, t: Trade, b: Bucketing, keys: seq<string>)
    requires Distinct(keys)
    ensures CountOver(ts + [t], b, keys) == CountOver(ts, b, keys) + (if KeyOf(t, b) in keys then 1 else 0)
    ensures PnlOver(ts + [t], b, keys) == PnlOver(ts, b, keys) + (if KeyOf(t, b) in keys then Pnl(t) else 0.0)
  {
    if |keys| > 0 {
      var front, last := keys[..|keys| - 1], keys[|keys| - 1];
      OneMoreTrade(ts, t, b, front);
      assert (ts + [t])[..|ts|] == ts;
      assert forall k :: k in keys <==> k in front || k == last;
      if KeyOf(t, b) == last {
        SumSnoc(GroupOf(ts, b, last), t);
      }
    }
  }

  lemma EmptyKey(ts: seq<Trade>, b: Bucketing, keys: seq<string>, k: string)
    requires GroupOf(ts, b, k) == []
    ensures CountOver(ts, b, keys + [k]) == CountOver(ts, b, keys) && PnlOver(ts, b, keys + [k]) == PnlOver(ts, b, keys)
  {
    assert (keys + [k])[..|keys|] == keys;
  }

  /** Adding the last trade to the totals over all keys. */
  lemma LastTradeCounts(ts: seq<Trade>, b: Bucketing)
    requires |ts| > 0
    ensures var front := ts[..|ts| - 1];
            && CountOver(ts, b, KeysOf(ts, b)) == CountOver(front, b, KeysOf(front, b)) + 1
            && PnlOver(ts, b, KeysOf(ts, b)) == PnlOver(front, b, KeysOf(front, b)) + Pnl(ts[|ts| - 1])
  {
    var front, last := ts[..|ts| - 1], ts[|ts| - 1];
    assert front + [last] == ts;
    KeysAreDistinct(ts, b);
    OldTotals(front, b, KeyOf(last, b));
    OneMoreTrade(front, last, b, KeysOf(ts, b));
  }

  /** Every bucket type partitions the trades: no trade and no money is lost or counted twice. */
  lemma {:induction false} BucketsConserve(ts: seq<Trade>, b: Bucketing)
    ensures CountOver(ts, b, KeysOf(ts, b)) == |ts|
    ensures PnlOver(ts, b, KeysOf(ts, b)) == Sum(Pnls(ts))
  {
    if |ts| > 0 {
      BucketsConserve(ts[..|ts| - 1], b);
      LastTradeCounts(ts, b);
    }
  }

  /** A key that is new has nothing in it yet. */
  lemma OldTotals(ts: seq<Trade>, b: Bucketing, k: string)
    ensures var keys := if k in KeysOf(ts, b) then KeysOf(ts, b) else KeysOf(ts, b) + [k];
            CountOver(ts, b, keys) == CountOver(ts, b, KeysOf(ts, b))
                && PnlOver(ts, b, keys) == PnlOver(ts, b, KeysOf(ts, b)) && k in keys
  {
    KeysHaveTrades(ts, b, k);
    if k !in KeysOf(ts, b) {
      EmptyKey(ts, b, KeysOf(ts, b), k);
    }
  }

  // ---- Combo keys ----

  /** The trade with these five parts. */
  function TradeOf(parts: seq<string>): Trade
    requires |parts| == 5
  {
    Trade(parts[0], parts[2], parts[3], parts[4], parts[1], None)
  }

  lemma PartsOfTrade(parts: seq<string>)
    requires |parts| == 5 && NoneEmpty(parts)
    ensures ComboParts(TradeOf(parts)) == parts
  {
  }

  /** Which combo buckets are exact: some different setup shares the key of `t` exactly when a
      separator inside one of its fields could pass to a neighbouring field and leave something
      behind; without one, the key means the five fields. */
  lemma CombosMergeIff(t: Trade)
    ensures Ambiguous(ComboParts(t))
        <==> exists u: Trade :: KeyOf(u, Combo) == KeyOf(t, Combo) && ComboParts(u) != ComboParts(t)
  {
    var ps := ComboParts(t);
    HasRivalIff(ps);
    if Ambiguous(ps) {
      var qs :| Rivals(ps, qs) && ps != qs;
      PartsOfTrade(qs);
      assert KeyOf(TradeOf(qs), Combo) == KeyOf(t, Combo);
    } else {
      forall u: Trade | KeyOf(u, Combo) == KeyOf(t, Combo) ensures ComboParts(u) == ps {
        assert Rivals(ps, ComboParts(u));
      }
    }
  }

  lemma SeparatorMergesCombos()
    ensures var t, u := Trade("A", "d", "x|y", "z", "C", None), Trade("A", "d|x", "y", "z", "C", None);
            KeyOf(t, Combo) == KeyOf(u, Combo) && ComboParts(t) != ComboParts(u)
  {
    var t, u := Trade("A", "d", "x|y", "z", "C", None), Trade("A", "d|x", "y", "z", "C", None);
    var ps, qs := ComboParts(t), ComboParts(u);
    assert ps[2] + [BAR] + ps[3] == "d|x|y" == qs[2] + [BAR] + qs[3];
    NeighboursMayShift(ps, qs, 2);
    assert |ps[2]| != |qs[2]|;
  }

  // ---- Drawdown ----

  /** The cumulative result after 0, 1, 2, ... trades. */
  function Curve(rs: seq<real>): (c: seq<real>)
    ensures |c| == |rs| + 1
  {
    if |rs| == 0 then [0.0]
    else
      var front := Curve(rs[..|rs| - 1]);
      front + [front[|rs| - 1] + rs[|rs| - 1]]
  }

  /** The largest fall of a curve from an earlier point of it. */
  ghost predicate IsFall(c: seq<real>, d: real) {
    && (forall i, j :: 0 <= i <= j < |c| ==> c[i] - c[j] <= d)
    && (exists i, j :: 0 <= i <= j < |c| && c[i] - c[j] == d)
  }

  method MaxDrawdown(rs: seq<real>) returns (worst: real)
    ensures IsFall(Curve(rs), worst)
  {
    var peak, cumulative := 0.0, 0.0;
    worst := 0.0;
    ghost var c := [0.0];
    ghost var top, from, to := 0, 0, 0;
    for n := 0 to |rs|
      invariant c == Curve(rs[..n]) && 0 <= top <= n && 0 <= from <= to <= n
      invariant cumulative == c[n] && peak == c[top] && worst == c[from] - c[to]
      invariant forall i :: 0 <= i <= n ==> c[i] <= peak
      invariant forall i, j :: 0 <= i <= j <= n ==> c[i] - c[j] <= worst
    {
      cumulative := cumulative + rs[n];
      c := c + [cumulative];
      assert rs[..n + 1][..n] == rs[..n];
      if cumulative > peak {
        peak := cumulative;
        top := n + 1;
      }
      var fall := peak - cumulative;
      if fall > worst {
        worst := fall;
        from, to := top, n + 1;
      }
    }
    assert rs[..|rs|] == rs;
  }

  function Reverse(rs: seq<real>): (r: seq<real>)
    ensures |r| == |rs|
    ensures forall i :: 0 <= i < |rs| ==> r[i] == rs[|rs| - 1 - i]
  {
    if |rs| == 0 then [] else [rs[|rs| - 1]] + Reverse(rs[..|rs| - 1])
  }

  lemma {:induction false} CurveStep(rs: seq<real>, k: nat)
    requires k < |rs|
    ensures Curve(rs)[0] == 0.0 && Curve(rs)[k + 1] == Curve(rs)[k] + rs[k]
  {
    if k < |rs| - 1 {
      CurveStep(rs[..|rs| - 1], k);
    } else if k > 0 {
      CurveStep(rs[..|rs| - 1], 0);
    }
  }

  lemma {:induction false} CurveOfReverse(rs: seq<real>, k: nat)
    requires k <= |rs|
    ensures Curve(Reverse(rs))[k] == Curve(rs)[|rs|] - Curve(rs)[|rs| - k]
  {
    if k > 0 {
      CurveOfReverse(rs, k - 1);
      CurveStep(Reverse(rs), k - 1);
      CurveStep(rs, |rs| - k);
    } else if |rs| > 0 {
      CurveStep(Reverse(rs), 0);
    }
  }

  lemma FallOfReverse(rs: seq<real>, d: real)
    requires IsFall(Curve(rs), d)
    ensures IsFall(Curve(Reverse(rs)), d)
  {
    var n, c, r := |rs|, Curve(rs), Curve(Reverse(rs));
    forall k | 0 <= k <= n ensures r[k] == c[n] - c[n - k] {
      CurveOfReverse(rs, k);
    }
    var i, j :| 0 <= i <= j < |c| && c[i] - c[j] == d;
    assert r[n - j] - r[n - i] == d;
  }

  /** The trades are read newest first; that does not change the drawdown. */
  lemma DrawdownIgnoresDirection(rs: seq<real>, d: real, e: real)
    requires IsFall(Curve(rs), d) && IsFall(Curve(Reverse(rs)), e)
    ensures d == e
  {
    FallOfReverse(rs, d);
  }

  // ---- Expectancy ----

  predicate IsWin(r: real) {
    r > 0.0
  }

  /** The winning or the remaining results; a result of zero counts as a loss. */
  function Side(rs: seq<real>, win: bool): seq<real> {
    if |rs| == 0 then []
    else
      var front := Side(rs[..|rs| - 1], win);
      if IsWin(rs[|rs| - 1]) == win then front + [rs[|rs| - 1]] else front
  }

  function Mean(rs: seq<real>): real {
    if |rs| == 0 then 0.0 else Sum(rs) / |rs| as real
  }

  function Abs(x: real): real {
    if x < 0.0 then -x else x
  }

  function Share(x: real, n: nat): real
    requires n > 0
  {
    x / n as real
  }

  function WinRate(rs: seq<real>): real
    requires |rs| > 0
  {
    Share(|Side(rs, true)| as real, |rs|)
  }

  function LossRate(rs: seq<real>): real
    requires |rs| > 0
  {
    1.0 - WinRate(rs)
  }

  function WinPart(rs: seq<real>): real
    requires |rs| > 0
  {
    WinRate(rs) * Mean(Side(rs, true))
  }

  function LossPart(rs: seq<real>): real
    requires |rs| > 0
  {
    LossRate(rs) * Abs(Mean(Side(rs, false)))
  }

  /** As the source writes it: win rate times average win, less loss rate times average loss. */
  function Expectancy(rs: seq<real>): real
    requires |rs| > 0
  {
    WinPart(rs) - LossPart(rs)
  }

  /** 999 stands for a bucket with wins and no losses. */
  function ProfitFactor(rs: seq<real>): real {
    var wins, losses := Sum(Side(rs, true)), Abs(Sum(Side(rs, false)));
    if losses > 0.0 then wins / losses else if wins > 0.0 then 999.0 else 0.0
  }

  lemma {:induction false} SidesAddUp(rs: seq<real>)
    ensures |Side(rs, true)| + |Side(rs, false)| == |rs|
    ensures Sum(Side(rs, true)) + Sum(Side(rs, false)) == Sum(rs)
    ensures Sum(Side(rs, false)) <= 0.0 <= Sum(Side(rs, true))
  {
    if |rs| > 0 {
      var front, last := rs[..|rs| - 1], rs[|rs| - 1];
      SidesAddUp(front);
      var side := Side(front, IsWin(last));
      assert (side + [last])[..|side|] == side;
    }
  }

  lemma NoZeroProduct(x: real, m: real)
    requires x != 0.0 && m > 0.0
    ensures x * m != 0.0
  {
    if x > 0.0 {
      assert x * m > 0.0;
    } else {
      assert x * m < 0.0;
    }
  }

  /** A quotient is the one number that multiplies back. */
  lemma QuotientIs(x: real, m: real, e: real)
    requires m > 0.0 && e * m == x
    ensures x / m == e
  {
    var q := x / m;
    assert q * m == x;
    assert (e - q) * m == 0.0;
    if e != q {
      NoZeroProduct(e - q, m);
    }
  }

  lemma {:induction false} MeanTimesCount(rs: seq<real>)
    ensures Mean(rs) * |rs| as real == Sum(rs)
  {
  }

  lemma {:induction false} MeanSign(rs: seq<real>)
    requires Sum(rs) <= 0.0
    ensures Mean(rs) <= 0.0
  {
  }

  lemma ShareTimesCount(x: real, n: nat)
    requires n > 0
    ensures Share(x, n) * n as real == x
  {
  }

  lemma SharesAdd(a: real, b: real, n: nat)
    requires n > 0
    ensures Share(a, n) + Share(b, n) == Share(a + b, n)
  {
    ShareTimesCount(a, n);
    ShareTimesCount(b, n);
    assert (Share(a, n) + Share(b, n)) * n as real == a + b;
    QuotientIs(a + b, n as real, Share(a, n) + Share(b, n));
  }

  lemma RestIsShare(a: nat, b: nat, n: nat)
    requires a + b == n > 0
    ensures 1.0 - Share(a as real, n) == Share(b as real, n)
  {
    SharesAdd(a as real, b as real, n);
    QuotientIs(n as real, n as real, 1.0);
  }

  /** The share of some results times their average is the share of their sum. */
  lemma PartIsShare(count: nat, mean: real, sum: real, n: nat)
    requires n > 0 && mean * count as real == sum
    ensures Share(count as real, n) * mean == Share(sum, n)
  {
    var rate := Share(count as real, n);
    ShareTimesCount(count as real, n);
    assert rate * mean * n as real == mean * (rate * n as real);
    QuotientIs(sum, n as real, rate * mean);
  }

  lemma LossFromShare(rate: real, mean: real, count: nat, sum: real, n: nat)
    requires n > 0 && rate == Share(count as real, n) && mean * count as real == sum && mean <= 0.0
    ensures rate * Abs(mean) == -Share(sum, n)
  {
    PartIsShare(count, mean, sum, n);
    assert rate * (-mean) == -(rate * mean);
  }

  lemma {:induction false} WinPartIsShare(rs: seq<real>)
    requires |rs| > 0
    ensures WinPart(rs) == Share(Sum(Side(rs, true)), |rs|)
  {
    var wins := Side(rs, true);
    MeanTimesCount(wins);
    PartIsShare(|wins|, Mean(wins), Sum(wins), |rs|);
  }

  lemma {:induction false} LossRateIsShare(rs: seq<real>)
    requires |rs| > 0
    ensures LossRate(rs) == Share(|Side(rs, false)| as real, |rs|)
  {
    SidesAddUp(rs);
    RestIsShare(|Side(rs, true)|, |Side(rs, false)|, |rs|);
  }

  lemma {:induction false} LossMeanSign(rs: seq<real>)
    ensures Mean(Side(rs, false)) <= 0.0
  {
    SidesAddUp(rs);
    MeanSign(Side(rs, false));
  }

  lemma {:induction false} LossPartIsShare(rs: seq<real>)
    requires |rs| > 0
    ensures LossPart(rs) == -Share(Sum(Side(rs, false)), |rs|)
  {
    var losses := Side(rs, false);
    LossMeanSign(rs);
    MeanTimesCount(losses);
    LossRateIsShare(rs);
    LossFromShare(LossRate(rs), Mean(losses), |losses|, Sum(losses), |rs|);
  }

  /** The rate-and-average formula is the plain mean of all results. */
  lemma {:induction false} ExpectancyIsMean(rs: seq<real>)
    requires |rs| > 0
    ensures Expectancy(rs) == Share(Sum(rs), |rs|)
  {
    WinPartIsShare(rs);
    LossPartIsShare(rs);
    SharesAdd(Sum(Side(rs, true)), Sum(Side(rs, false)), |rs|);
    SidesAddUp(rs);
  }

  // ---- Labels ----

  datatype Label = Promote | Kill | Downgrade | Watch

  function LabelOf(n: nat, expectancy: real, factor: real, winRate: real): Label {
    if n >= 25 && expectancy > 0.0 && factor > 1.3 then Promote
    else if n >= 15 && expectancy < 0.0 then Kill
    else if n >= 20 && factor < 0.9 then Kill
    else if n >= 15 && (expectancy <= 0.0 || winRate < 0.4 || factor < 1.0) then Downgrade
    else Watch
  }

  /** Rounding keeps the order and the values the rules compare with. */
  ghost predicate Rounds(round: real -> real) {
    && (forall x, y :: x <= y ==> round(x) <= round(y))
    && round(0.0) == 0.0 && round(0.9) == 0.9 && round(1.0) == 1.0 && round(1.3) == 1.3
  }

  function BucketLabel(rs: seq<real>, cents: real -> real, points: real -> real): Label
    requires |rs| > 0
  {
    LabelOf(|rs|, cents(Expectancy(rs)), points(ProfitFactor(rs)), points(WinRate(rs)))
  }

  lemma PositiveMean(total: real, n: nat)
    requires n > 0
    ensures total / n as real > 0.0 <==> total > 0.0
    ensures total / n as real < 0.0 <==> total < 0.0
  {
  }

  lemma FactorAbove(wins: real, losses: real, bound: real)
    requires losses > 0.0
    ensures wins / losses > bound <==> wins > bound * losses
    ensures wins / losses < bound <==> wins < bound * losses
  {
    var q := wins / losses;
    assert q * losses == wins;
    assert (q - bound) * losses == wins - bound * losses;
  }

  lemma RoundedComparison(round: real -> real, x: real)
    requires Rounds(round)
    ensures (round(x) > 0.0 ==> x > 0.0) && (round(x) < 0.0 ==> x < 0.0)
    ensures (round(x) > 1.3 ==> x > 1.3) && (round(x) < 0.9 ==> x < 0.9)
  {
    if x <= 0.0 { assert round(x) <= round(0.0); }
    if x >= 0.0 { assert round(x) >= round(0.0); }
    if x <= 1.3 { assert round(x) <= round(1.3); }
    if x >= 0.9 { assert round(x) >= round(0.9); }
  }

  lemma {:induction false} FactorMeans(rs: seq<real>)
    ensures var wins, losses := Sum(Side(rs, true)), Abs(Sum(Side(rs, false)));
            (ProfitFactor(rs) > 1.3 ==> wins > 1.3 * losses) && (ProfitFactor(rs) < 0.9 ==> wins <= 0.9 * losses)
  {
    SidesAddUp(rs);
    var wins, losses := Sum(Side(rs, true)), Abs(Sum(Side(rs, false)));
    if losses > 0.0 {
      FactorAbove(wins, losses, 1.3);
      FactorAbove(wins, losses, 0.9);
    }
  }

  /** Whatever the rounding: a promoted bucket has at least 25 trades, made money, and won more
      than 1.3 times what it lost; a killed one lost money or won at most 0.9 times its losses; and
      from 15 trades on only a bucket that made money is still just watched. */
  lemma {:induction false} LabelsMeanWhatTheySay(rs: seq<real>, cents: real -> real, points: real -> real)
    requires |rs| > 0 && Rounds(cents) && Rounds(points)
    ensures var verdict, wins, losses := BucketLabel(rs, cents, points), Sum(Side(rs, true)), Abs(Sum(Side(rs, false)));
            && (verdict.Promote? ==> |rs| >= 25 && Sum(rs) > 0.0 && wins > 1.3 * losses)
            && (verdict.Kill? ==> |rs| >= 15 && (Sum(rs) < 0.0 || wins <= 0.9 * losses))
            && (|rs| < 15 ==> verdict.Watch?)
            && (|rs| >= 15 && verdict.Watch? ==> Sum(rs) > 0.0)
  {
    ExpectancyIsMean(rs);
    PositiveMean(Sum(rs), |rs|);
    RoundedComparison(cents, Expectancy(rs));
    RoundedComparison(points, ProfitFactor(rs));
    FactorMeans(rs);
  }
}
