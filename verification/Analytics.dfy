/** Performance figures: the drawdown of the equity curve and the expectancy of a trade. */
module Analytics {
  import opened Options
  import opened Rounding
  import opened Sums

  datatype Cycle = Cycle(endingEquity: Option<real>, pnl: Option<real>)

  /** A chart point has four decimals. */
  const CHART_SCALE: Scale := 10000.0

  // ---------- the curve ----------

  function NextEquity(equity: real, cycle: Cycle): real {
    if cycle.endingEquity.Some? then cycle.endingEquity.value
    else if cycle.pnl.Some? then equity + cycle.pnl.value
    else equity
  }

  /** The initial balance followed by the equity after every cycle. */
  function EquityPath(cycles: seq<Cycle>, initialBalance: real): (path: seq<real>)
    ensures |path| == |cycles| + 1
  {
    if |cycles| == 0 then [initialBalance]
    else
      var before := EquityPath(cycles[..|cycles| - 1], initialBalance);
      before + [NextEquity(before[|before| - 1], cycles[|cycles| - 1])]
  }

  function Drop(from: real, to: real): real
    requires from > 0.0
  {
    (from - to) / from
  }

  predicate NonNegative(path: seq<real>) {
    forall i | 0 <= i < |path| :: path[i] >= 0.0
  }

  predicate IsPeak(path: seq<real>, peak: real) {
    peak in path && forall i | 0 <= i < |path| :: path[i] <= peak
  }

  /** dd is the largest relative drop from any point of the path to itself or a later one. */
  ghost predicate IsMaxDrop(path: seq<real>, dd: real) {
    && (forall i, j | 0 <= i <= j < |path| && path[i] > 0.0 :: Drop(path[i], path[j]) <= dd)
    && (exists i, j :: 0 <= i <= j < |path| && path[i] > 0.0 && Drop(path[i], path[j]) == dd)
  }

  lemma DropTimes(from: real, to: real)
    requires from > 0.0
    ensures (1.0 - Drop(from, to)) * from == to
  {
    assert Drop(from, to) * from == from - to;
  }

  lemma Positive(x: real, a: real)
    requires a > 0.0
    ensures x * a >= 0.0 <==> x >= 0.0
    ensures x * a > 0.0 <==> x > 0.0
  {
  }

  lemma DropAtMostOne(from: real, to: real)
    requires from > 0.0
    ensures Drop(from, to) <= 1.0 <==> to >= 0.0
    ensures Drop(from, to) >= 0.0 <==> to <= from
  {
    DropTimes(from, to);
    Positive(1.0 - Drop(from, to), from);
    Positive(Drop(from, to), from);
  }

  /** From a higher start, the drop to a non-negative equity is larger. */
  lemma DropGrowsWithStart(a: real, b: real, to: real)
    requires 0.0 < a <= b && to >= 0.0
    ensures Drop(a, to) <= Drop(b, to)
  {
    var x, y := 1.0 - Drop(a, to), 1.0 - Drop(b, to);
    DropTimes(a, to);
    DropTimes(b, to);
    Positive(x, a);
    TimesMonotone(x, a, b);
    assert (x - y) * b == x * b - y * b;
    Positive(x - y, b);
  }

  // ---------- the pass ----------

  lemma PathStep(cycles: seq<Cycle>, initialBalance: real, i: nat)
    requires i < |cycles|
    ensures var before, after := EquityPath(cycles[..i], initialBalance), EquityPath(cycles[..i + 1], initialBalance);
            after == before + [NextEquity(before[|before| - 1], cycles[i])]
  {
    assert cycles[..i + 1][..i] == cycles[..i];
  }

  /** One further point: the peak and the drawdown so far become those with it. */
  function Advance(state: (real, real), equity: real): (real, real) {
    var peak := if equity > state.0 then equity else state.0;
    (peak, if peak > 0.0 && Drop(peak, equity) > state.1 then Drop(peak, equity) else state.1)
  }

  /** The running peak and drawdown over a path. */
  function Pass(path: seq<real>): (real, real)
    requires |path| > 0
  {
    if |path| == 1 then (path[0], 0.0)
    else Advance(Pass(path[..|path| - 1]), path[|path| - 1])
  }

  lemma PassAppend(path: seq<real>, equity: real)
    requires |path| > 0
    ensures Pass(path + [equity]) == Advance(Pass(path), equity)
  {
    assert (path + [equity])[..|path|] == path;
  }

  /** Every equity of the path was at most the running peak, from which it dropped by at most dd. */
  lemma {:induction false} PassIsMaxDrop(path: seq<real>)
    requires |path| > 0 && path[0] > 0.0
    ensures IsPeak(path, Pass(path).0) && Pass(path).0 > 0.0 && Pass(path).1 >= 0.0
    ensures NonNegative(path) ==> IsMaxDrop(path, Pass(path).1)
    ensures Pass(path).1 <= 1.0 <==> NonNegative(path)
  {
    if |path| == 1 {
      assert path[0] in path;
      DropAtMostOne(path[0], path[0]);
      DropTimes(path[0], path[0]);
      assert Drop(path[0], path[0]) == 0.0;
    } else {
      PassIsMaxDrop(path[..|path| - 1]);
      PassStep(path);
    }
  }

  lemma PassStep(path: seq<real>)
    requires |path| > 1
    requires var init := path[..|path| - 1];
             && IsPeak(init, Pass(init).0) && Pass(init).0 > 0.0 && Pass(init).1 >= 0.0
             && (NonNegative(init) ==> IsMaxDrop(init, Pass(init).1))
             && (Pass(init).1 <= 1.0 <==> NonNegative(init))
    ensures IsPeak(path, Pass(path).0) && Pass(path).0 > 0.0 && Pass(path).1 >= 0.0
    ensures NonNegative(path) ==> IsMaxDrop(path, Pass(path).1)
    ensures Pass(path).1 <= 1.0 <==> NonNegative(path)
  {
    hide Drop, IsMaxDrop;
    var n := |path| - 1;
    var init, last := path[..n], path[n];
    assert init + [last] == path;
    DropAtMostOne(Pass(path).0, last);
    PeakGrows(init, last, Pass(init).0);
    if NonNegative(path) {
      assert NonNegative(init) && path[n] >= 0.0;
      MaxDropGrows(init, last, Pass(init).0, Pass(init).1);
    } else if NonNegative(init) {
      assert last < 0.0;
    }
  }

  /** The largest drop of a longer path is an earlier one or the drop from the peak to the last point. */
  lemma MaxDropGrows(path: seq<real>, last: real, peak: real, dd: real)
    requires last >= 0.0 && peak > 0.0 && IsPeak(path, peak) && IsMaxDrop(path, dd)
    ensures IsMaxDrop(path + [last], Advance((peak, dd), last).1)
  {
    hide Drop;
    var longer, now := path + [last], Advance((peak, dd), last);
    PeakGrows(path, last, peak);
    forall i, j | 0 <= i <= j < |longer| && longer[i] > 0.0 ensures Drop(longer[i], longer[j]) <= now.1 {
      if j == |path| {
        DropGrowsWithStart(longer[i], now.0, last);
      } else {
        assert Drop(path[i], path[j]) <= dd;
      }
    }
    MaxDropIsAttained(path, last, peak, dd);
  }

  lemma MaxDropIsAttained(path: seq<real>, last: real, peak: real, dd: real)
    requires peak > 0.0 && IsPeak(path, peak) && IsMaxDrop(path, dd)
    ensures var longer := path + [last];
            exists i, j :: 0 <= i <= j < |longer| && longer[i] > 0.0
                           && Drop(longer[i], longer[j]) == Advance((peak, dd), last).1
  {
    hide Drop;
    var longer, now := path + [last], Advance((peak, dd), last);
    if now.1 == dd {
      var i, j :| 0 <= i <= j < |path| && path[i] > 0.0 && Drop(path[i], path[j]) == dd;
      assert longer[i] == path[i] && longer[j] == path[j];
    } else {
      PeakGrows(path, last, peak);
      var i :| 0 <= i < |longer| && longer[i] == now.0;
      assert longer[|path|] == last;
    }
  }

  lemma PeakGrows(path: seq<real>, last: real, peak: real)
    requires IsPeak(path, peak)
    ensures IsPeak(path + [last], if last > peak then last else peak)
  {
    assert (path + [last])[|path|] == last;
  }

  /** The service's loop: one pass over the cycles, with the chart points it returns. */
  method BuildEquityCurve(cycles: seq<Cycle>, initialBalance: real)
      returns (curve: seq<real>, maxDrawdown: real, peakEquity: real)
    ensures |curve| == |cycles|
    ensures forall i | 0 <= i < |curve| :: curve[i] == RoundAt(EquityPath(cycles, initialBalance)[i + 1], 10000.0)
    ensures (peakEquity, maxDrawdown) == Pass(EquityPath(cycles, initialBalance))
  {
    hide RoundAt, NextEquity, Drop;
    curve := [];
    var currentEquity := initialBalance;
    peakEquity := initialBalance;
    maxDrawdown := 0.0;
    ghost var path := [initialBalance];
    for i := 0 to |cycles|
      invariant |curve| == i
      invariant path == EquityPath(cycles[..i], initialBalance)
      invariant currentEquity == path[i]
      invariant forall k | 0 <= k < i :: curve[k] == RoundAt(path[k + 1], CHART_SCALE)
      invariant (peakEquity, maxDrawdown) == Pass(path)
    {
      PathStep(cycles, initialBalance, i);
      currentEquity := NextEquity(currentEquity, cycles[i]);
      PassAppend(path, currentEquity);
      path := path + [currentEquity];
      if currentEquity > peakEquity {
        peakEquity := currentEquity;
      }
      if peakEquity > 0.0 {
        var dd := Drop(peakEquity, currentEquity);
        if dd > maxDrawdown {
          maxDrawdown := dd;
        }
      }
      curve := curve + [RoundAt(currentEquity, CHART_SCALE)];
    }
    assert cycles[..|cycles|] == cycles;
  }

  /** From a positive balance: the peak is the highest equity; the drawdown is the largest drop from any
      point to a later one when no equity is negative; and it stays within [0, 1] exactly then. */
  lemma DrawdownIsLargestDrop(cycles: seq<Cycle>, initialBalance: real)
    requires initialBalance > 0.0
    ensures var path := EquityPath(cycles, initialBalance);
            var (peak, dd) := Pass(path);
            && IsPeak(path, peak)
            && (NonNegative(path) ==> IsMaxDrop(path, dd))
            && (0.0 <= dd <= 1.0 <==> NonNegative(path))
  {
    PathStartsAt(cycles, initialBalance);
    PassIsMaxDrop(EquityPath(cycles, initialBalance));
  }

  lemma {:induction false} PathStartsAt(cycles: seq<Cycle>, initialBalance: real)
    ensures EquityPath(cycles, initialBalance)[0] == initialBalance
  {
    if |cycles| > 0 { PathStartsAt(cycles[..|cycles| - 1], initialBalance); }
  }

  // ---------- expectancy ----------

  function Wins(pnls: seq<real>): seq<real> {
    if |pnls| == 0 then [] else Wins(pnls[..|pnls| - 1]) + if pnls[|pnls| - 1] > 0.0 then [pnls[|pnls| - 1]] else []
  }

  function Losses(pnls: seq<real>): seq<real> {
    if |pnls| == 0 then [] else Losses(pnls[..|pnls| - 1]) + if pnls[|pnls| - 1] <= 0.0 then [pnls[|pnls| - 1]] else []
  }

  function Abs(x: real): real {
    if x < 0.0 then -x else x
  }

  function Over(total: real, n: nat): real
    requires n > 0
  {
    total / n as real
  }

  function Mean(xs: seq<real>): real {
    if |xs| == 0 then 0.0 else Over(Total(xs), |xs|)
  }

  function WinRate(pnls: seq<real>): real {
    if |pnls| == 0 then 0.0 else Over(|Wins(pnls)| as real, |pnls|)
  }

  function TotalPnl(pnls: seq<real>): real {
    Total(Wins(pnls)) - Abs(Total(Losses(pnls)))
  }

  function Expectancy(pnls: seq<real>): real {
    Times(WinRate(pnls), Mean(Wins(pnls))) - Times(1.0 - WinRate(pnls), Abs(Mean(Losses(pnls))))
  }

  lemma {:induction false} WinsAndLossesSplit(pnls: seq<real>)
    ensures |Wins(pnls)| + |Losses(pnls)| == |pnls|
    ensures Total(Wins(pnls)) + Total(Losses(pnls)) == Total(pnls)
    ensures Total(Wins(pnls)) >= 0.0 && Total(Losses(pnls)) <= 0.0
  {
    if |pnls| > 0 {
      var init, last := pnls[..|pnls| - 1], pnls[|pnls| - 1];
      WinsAndLossesSplit(init);
      if last > 0.0 {
        TotalAppend(Wins(init), last);
        assert Wins(pnls) == Wins(init) + [last];
        assert Losses(pnls) == Losses(init);
      } else {
        TotalAppend(Losses(init), last);
        assert Wins(pnls) == Wins(init);
        assert Losses(pnls) == Losses(init) + [last];
      }
    }
  }

  /** A share of k in n times the mean over the k is the total over n. */
  lemma ShareOfMean(xs: seq<real>, n: nat)
    requires n > 0
    ensures Times(Over(|xs| as real, n), Mean(xs)) == Over(Total(xs), n)
  {
    if |xs| > 0 {
      ShareOfQuotient(|xs| as real, n as real, Total(xs));
    }
  }

  lemma ShareOfQuotient(k: real, n: real, t: real)
    requires k > 0.0 && n > 0.0
    ensures Times(k / n, t / k) == t / n
  {
    var a, b := k / n, t / k;
    assert a * n == k && b * k == t;
    assert n * (a * b) == b * (a * n);
    QuotientIs(a * b, n, t);
  }

  lemma QuotientsAdd(a: real, b: real, n: real)
    requires n > 0.0
    ensures a / n + b / n == (a + b) / n
  {
  }

  /** Win rate, average win and average loss combine to the plain mean profit per trade, and the reported
      total is the plain sum. */
  lemma ExpectancyIsMeanPnl(pnls: seq<real>)
    ensures TotalPnl(pnls) == Total(pnls)
    ensures Expectancy(pnls) == Mean(pnls)
  {
    hide Over;
    WinsAndLossesSplit(pnls);
    if |pnls| > 0 { SharesRecombine(pnls); }
  }

  lemma SharesRecombine(pnls: seq<real>)
    requires |pnls| > 0
    ensures Expectancy(pnls) == Mean(pnls)
  {
    hide Wins, Losses, Total, Times, Mean, Abs, Over;
    WinsAndLossesSplit(pnls);
    var n, wins, losses := |pnls|, Wins(pnls), Losses(pnls);
    SharesAreWhole(|wins|, |losses|, n);
    ShareOfMean(wins, n);
    ShareOfMean(losses, n);
    MeanSign(losses);
    TimesNegated(Over(|losses| as real, n), Mean(losses));
    MeansAdd(wins, losses, pnls);
  }

  lemma SharesAreWhole(k: nat, rest: nat, n: nat)
    requires n > 0 && k + rest == n
    ensures 1.0 - Over(k as real, n) == Over(rest as real, n)
  {
    QuotientsAdd(k as real, rest as real, n as real);
    QuotientIs(1.0, n as real, k as real + rest as real);
  }

  lemma MeansAdd(xs: seq<real>, ys: seq<real>, all: seq<real>)
    requires |all| > 0 && Total(xs) + Total(ys) == Total(all)
    ensures Over(Total(xs), |all|) + Over(Total(ys), |all|) == Mean(all)
  {
    QuotientsAdd(Total(xs), Total(ys), |all| as real);
  }

  lemma MeanSign(xs: seq<real>)
    requires Total(xs) <= 0.0
    ensures Abs(Mean(xs)) == -Mean(xs)
  {
    if |xs| > 0 { DivMonotone(Total(xs), 0.0, |xs| as real); }
  }

  // ---------- the figures, one by one ----------

  /** After each cycle the curve is at the equity the cycle ended with, where it is on record; otherwise it moves by the
      cycle's profit, where that is. */
  lemma {:induction false} CurveFollowsCycles(cycles: seq<Cycle>, initialBalance: real, i: nat)
    requires i < |cycles|
    ensures var path := EquityPath(cycles, initialBalance);
            && path[0] == initialBalance
            && (cycles[i].endingEquity.Some? ==> path[i + 1] == cycles[i].endingEquity.value)
            && (cycles[i].endingEquity.None? && cycles[i].pnl.Some? ==> path[i + 1] == path[i] + cycles[i].pnl.value)
            && (cycles[i].endingEquity.None? && cycles[i].pnl.None? ==> path[i + 1] == path[i])
  {
    var n := |cycles| - 1;
    PathBegins(cycles, initialBalance);
    if i < n { CurveFollowsCycles(cycles[..n], initialBalance, i); }
  }

  lemma {:induction false} PathBegins(cycles: seq<Cycle>, initialBalance: real)
    ensures EquityPath(cycles, initialBalance)[0] == initialBalance
  {
    if |cycles| > 0 { PathBegins(cycles[..|cycles| - 1], initialBalance); }
  }

  function CountProfits(pnls: seq<real>): nat {
    if |pnls| == 0 then 0 else CountProfits(pnls[..|pnls| - 1]) + if pnls[|pnls| - 1] > 0.0 then 1 else 0
  }

  lemma {:induction false} WinsAreProfits(pnls: seq<real>)
    ensures |Wins(pnls)| == CountProfits(pnls)
  {
    if |pnls| > 0 { WinsAreProfits(pnls[..|pnls| - 1]); }
  }

  /** The win rate is the share of trades that made a profit; one that broke even did not. */
  lemma WinRateCountsProfits(pnls: seq<real>)
    ensures |pnls| > 0 ==> WinRate(pnls) == CountProfits(pnls) as real / |pnls| as real
    ensures |pnls| == 0 ==> WinRate(pnls) == 0.0
  {
    WinsAreProfits(pnls);
  }
}
