/**
 Which trades share a bucket, and the labels of a bucket exactly, over the trades themselves: how many
 there are, how many won, and what was won and given back.
 */
module EdgeLabels {
  import opened EdgeStats

  /** Two texts fall together: equal, or both missing or spelled like a missing one. */
  ghost predicate Together(x: string, y: string) {
    x == y || (x in {"", "unknown"} && y in {"", "unknown"})
  }

  /** Which trades share a bucket of one dimension: those whose field of that name falls together. */
  lemma SharesBucketIff(t: Trade, u: Trade)
    ensures KeyOf(t, Single(Ticker)) == KeyOf(u, Single(Ticker)) <==> Together(t.ticker, u.ticker)
    ensures KeyOf(t, Single(Timeframe)) == KeyOf(u, Single(Timeframe)) <==> Together(t.timeframe, u.timeframe)
    ensures KeyOf(t, Single(Setup)) == KeyOf(u, Single(Setup)) <==> Together(t.setup, u.setup)
    ensures KeyOf(t, Single(TimeOfDay)) == KeyOf(u, Single(TimeOfDay)) <==> Together(t.timeOfDay, u.timeOfDay)
    ensures KeyOf(t, Single(Direction)) == KeyOf(u, Single(Direction)) <==> Together(t.direction, u.direction)
  {
  }

  ghost function WinCount(rs: seq<real>): nat {
    |set i | 0 <= i < |rs| && rs[i] > 0.0|
  }

  /** What the results above zero add up to. */
  ghost function Gained(rs: seq<real>): real {
    if |rs| == 0 then 0.0 else Gained(rs[..|rs| - 1]) + (if rs[|rs| - 1] > 0.0 then rs[|rs| - 1] else 0.0)
  }

  /** What the results below zero add up to, without the sign. */
  ghost function GivenBack(rs: seq<real>): real {
    if |rs| == 0 then 0.0 else GivenBack(rs[..|rs| - 1]) + (if rs[|rs| - 1] < 0.0 then -rs[|rs| - 1] else 0.0)
  }

  lemma {:induction false} CountSides(rs: seq<real>)
    ensures |Side(rs, true)| == WinCount(rs)
  {
    if |rs| > 0 {
      var n := |rs| - 1;
      CountSides(rs[..n]);
      var before, after := set i | 0 <= i < n && rs[..n][i] > 0.0, set i | 0 <= i < |rs| && rs[i] > 0.0;
      assert after == before + (if rs[n] > 0.0 then {n} else {});
    }
  }

  lemma {:induction false} SumSides(rs: seq<real>)
    ensures Sum(Side(rs, true)) == Gained(rs) && Sum(Side(rs, false)) == -GivenBack(rs)
    ensures Gained(rs) >= 0.0 && GivenBack(rs) >= 0.0
  {
    if |rs| > 0 {
      var front, last := rs[..|rs| - 1], rs[|rs| - 1];
      SumSides(front);
      SumSnoc(Side(front, true), last);
      SumSnoc(Side(front, false), last);
    }
  }

  lemma SumSnoc(rs: seq<real>, r: real)
    ensures Sum(rs + [r]) == Sum(rs) + r
  {
    assert (rs + [r])[..|rs|] == rs;
  }

  /** Money won per money given back; 999 without a loss, 0 without a gain either. */
  function Factor(won: real, lost: real): real {
    if lost > 0.0 then won / lost else if won > 0.0 then 999.0 else 0.0
  }

  lemma FactorIs(rs: seq<real>)
    ensures ProfitFactor(rs) == Factor(Gained(rs), GivenBack(rs))
  {
    SumSides(rs);
  }

  /** Against a bound, without a quotient. */
  lemma FactorAgainst(won: real, lost: real, bound: real)
    requires won >= 0.0 && lost >= 0.0 && 0.0 < bound < 999.0
    ensures Factor(won, lost) > bound <==> won > bound * lost
    ensures Factor(won, lost) < bound <==> (if lost > 0.0 then won < bound * lost else won == 0.0)
  {
    if lost > 0.0 { FactorAbove(won, lost, bound); } else { assert bound * lost == 0.0; }
  }

  lemma RateBelow(k: nat, n: nat)
    requires n > 0
    ensures Share(k as real, n) < 0.4 <==> 5 * k < 2 * n
  {
    FactorAbove(k as real, n as real, 0.4);
    assert (5 * k) as real == 5.0 * k as real && (2 * n) as real == 2.0 * n as real;
  }

  lemma TotalIs(rs: seq<real>)
    requires |rs| > 0
    ensures Expectancy(rs) > 0.0 <==> Gained(rs) > GivenBack(rs)
    ensures Expectancy(rs) < 0.0 <==> Gained(rs) < GivenBack(rs)
  {
    ExpectancyIsMean(rs);
    PositiveMean(Sum(rs), |rs|);
    SidesAddUp(rs);
    SumSides(rs);
  }

  function Exactly(x: real): real {
    x
  }

  /** What the three figures a label looks at say about the trades. */
  ghost predicate Figures(n: nat, mean: real, factor: real, rate: real, won: real, lost: real, k: nat) {
    && won >= 0.0 && lost >= 0.0 && (mean > 0.0 <==> won > lost) && (mean < 0.0 <==> won < lost)
    && (factor > 1.3 <==> won > 1.3 * lost)
    && (factor < 0.9 <==> if lost > 0.0 then won < 0.9 * lost else won == 0.0)
    && (factor < 1.0 <==> if lost > 0.0 then won < lost else won == 0.0)
    && (rate < 0.4 <==> 5 * k < 2 * n)
  }

  lemma MeanFigure(rs: seq<real>, factor: real, rate: real)
    requires |rs| > 0 && factor == Factor(Gained(rs), GivenBack(rs)) && rate == Share(WinCount(rs) as real, |rs|)
    ensures Figures(|rs|, Expectancy(rs), factor, rate, Gained(rs), GivenBack(rs), WinCount(rs))
  {
    TotalIs(rs);
    SumSides(rs);
    OtherFigures(|rs|, factor, rate, Gained(rs), GivenBack(rs), WinCount(rs));
  }

  lemma OtherFigures(n: nat, factor: real, rate: real, won: real, lost: real, k: nat)
    requires n > 0 && won >= 0.0 && lost >= 0.0 && factor == Factor(won, lost) && rate == Share(k as real, n)
    ensures Figures(n, won - lost, factor, rate, won, lost, k)
  {
    FactorAgainst(won, lost, 1.3);
    FactorAgainst(won, lost, 0.9);
    FactorAgainst(won, lost, 1.0);
    RateBelow(k, n);
  }

  function LabelFor(n: nat, won: real, lost: real, k: nat): Label {
    if n >= 25 && won > lost && won > 1.3 * lost then Promote
    else if (n >= 15 && won < lost) || (n >= 20 && (won < 0.9 * lost || won == lost == 0.0)) then Kill
    else if n >= 15 && (won <= lost || 5 * k < 2 * n) then Downgrade
    else Watch
  }

  lemma Chain(n: nat, mean: real, factor: real, rate: real, won: real, lost: real, k: nat)
    requires Figures(n, mean, factor, rate, won, lost, k)
    ensures LabelOf(n, mean, factor, rate) == LabelFor(n, won, lost, k)
  {
  }

  /** The label where nothing is rounded: promoted from 25 trades on if more than 1.3 times the losses
      was won; killed from 15 on if money was lost, from 20 on if less than 0.9 times the losses was won
      or nothing moved; downgraded from 15 on if no money was made or fewer than two in five won. */
  lemma ExactLabelIs(rs: seq<real>)
    requires |rs| > 0
    ensures BucketLabel(rs, Exactly, Exactly) == LabelFor(|rs|, Gained(rs), GivenBack(rs), WinCount(rs))
  {
    var mean, factor, rate := Expectancy(rs), ProfitFactor(rs), WinRate(rs);
    CountSides(rs);
    FactorIs(rs);
    MeanFigure(rs, factor, rate);
    Chain(|rs|, mean, factor, rate, Gained(rs), GivenBack(rs), WinCount(rs));
  }

  /** With any rounding: exactly when a bucket is promoted, killed or only watched, over the rounded mean
      result, factor and win rate. */
  lemma RoundedLabelIs(rs: seq<real>, cents: real -> real, points: real -> real)
    requires |rs| > 0
    ensures var mean, rate := cents(Share(Sum(rs), |rs|)), points(Share(WinCount(rs) as real, |rs|));
            var factor := points(Factor(Gained(rs), GivenBack(rs)));
            && (BucketLabel(rs, cents, points).Promote? <==> |rs| >= 25 && mean > 0.0 && factor > 1.3)
            && (BucketLabel(rs, cents, points).Kill? <==> (|rs| >= 15 && mean < 0.0) || (|rs| >= 20 && factor < 0.9))
            && (BucketLabel(rs, cents, points).Watch? <==>
                  |rs| < 15 || (mean > 0.0 && rate >= 0.4 && factor >= 1.0 && (|rs| < 25 || factor <= 1.3)))
  {
    ExpectancyIsMean(rs);
    CountSides(rs);
    FactorIs(rs);
  }
}
