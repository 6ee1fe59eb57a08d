/**
 One cycle end to end: the portfolio engine's target, what the risk engine lets through, and what the broker makes
 of that.
 */
module TradingCycle {
  import opened Bounds
  import opened BrokerRuns
  import opened BrokerTheorems
  import opened Decisions
  import opened Ledger
  import opened Options
  import opened PositionTable
  import opened RiskCalculator
  import opened RiskEngine
  import opened RiskThresholds
  import opened Rounding
  import opened StepOutcomes
  import opened Targets
  import Exposure = PortfolioExposure
  import Portfolio = PortfolioEngine

  // ---------- what a reduction does to sides ----------

  predicate Stripped(p: TargetPosition) {
    p.side == LONG && p.overrideStop == None && p.overrideTarget == None
  }

  predicate AllStripped(ps: seq<TargetPosition>) {
    forall i | 0 <= i < |ps| :: Stripped(ps[i])
  }

  lemma {:induction false} CappedAreStripped(ps: seq<TargetPosition>, cap: real)
    ensures AllStripped(Capped(ps, cap))
  {
    if |ps| > 0 { CappedAreStripped(ps[..|ps| - 1], cap); }
  }

  lemma {:induction false} RescaledAreStripped(ps: seq<TargetPosition>, scale: real)
    ensures AllStripped(Rescaled(ps, scale))
  {
    hide Round10, Times;
    if |ps| > 0 { RescaledAreStripped(ps[..|ps| - 1], scale); }
  }

  /** Whatever was asked for, a reduced target holds longs only, without overrides. */
  lemma ReducedAreStripped(limits: RiskLimits, t: PortfolioTarget)
    requires limits.Valid()
    ensures AllStripped(TryReduce(limits, t).positions)
  {
    hide AllStripped, Capped, Rescaled, SumWeights, GrossOf, CashBeside, Selected;
    var capped := Capped(Selected(limits, t), limits.maxPositionWeight);
    CappedAreStripped(Selected(limits, t), limits.maxPositionWeight);
    RescaledAreStripped(capped, limits.maxGrossExposure / (if SumWeights(capped) > 0.0 then SumWeights(capped) else 1.0));
    var fitted := FitGross(limits, capped);
    RescaledAreStripped(fitted, (1.0 - limits.minCashWeight) / (if GrossOf(fitted) > 0.0 then GrossOf(fitted) else 1.0));
  }

  predicate SidesKept(qs: seq<TargetPosition>, ps: seq<TargetPosition>) {
    |qs| == |ps| && forall i | 0 <= i < |ps| :: qs[i].side == ps[i].side
  }

  predicate AllLong(ps: seq<TargetPosition>) {
    forall i | 0 <= i < |ps| :: ps[i].side == LONG
  }

  /** What the risk engine accepts keeps the sides that were asked for if and only if the target passed unchanged or
      asked for longs only. */
  lemma SidesAreKeptIff(limits: RiskLimits, t: PortfolioTarget)
    requires limits.Valid() && t.Valid()
    requires Assess(limits, t).APPROVED? || Assess(limits, t).REDUCED?
    ensures SidesKept(Assess(limits, t).target.positions, Selected(limits, t))
       <==> WithinLimits(limits, t) || AllLong(Selected(limits, t))
  {
    NoIssuesWithinLimits(limits, t);
    if !WithinLimits(limits, t) {
      ReducedAreStripped(limits, t);
      FittedWithinLimits(limits, t);
      hide TryReduce, Issues, WithinLimits, Selected, PortfolioTarget.Valid, GrossOf, CashBeside, WeightsUpTo;
      StrippedKeep(TryReduce(limits, t).positions, Selected(limits, t));
    }
  }

  lemma StrippedKeep(qs: seq<TargetPosition>, ps: seq<TargetPosition>)
    requires AllStripped(qs) && |qs| == |ps|
    ensures SidesKept(qs, ps) <==> AllLong(ps)
  {
    if SidesKept(qs, ps) {
      forall i | 0 <= i < |ps| ensures ps[i].side == LONG {
        assert Stripped(qs[i]) && qs[i].side == ps[i].side;
      }
    }
  }

  lemma OneShort()
    ensures var t := PortfolioTarget("X", [TargetPosition("S", SHORT, 0.5, 1.0, 1.0, None, None)], 0.5, 0.5, map[]);
            t.Valid() && !WithinLimits(RiskLimits(10, 0.50, 0.10, 0.50), t)
  {
    var p := TargetPosition("S", SHORT, 0.5, 1.0, 1.0, None, None);
    assert [p][0].weight == 0.5;
  }

  lemma OutsideLimits(limits: RiskLimits, t: PortfolioTarget)
    requires limits.Valid() && !WithinLimits(limits, t)
    ensures !Assess(limits, t).APPROVED?
    ensures Assess(limits, t).REDUCED? ==> Assess(limits, t).target == TryReduce(limits, t)
  {
    NoIssuesWithinLimits(limits, t);
    hide TryReduce, Issues;
  }

  /** For instance, a single short above the default weight limit is accepted as a long. */
  lemma ShortBecomesLong()
    ensures exists limits: RiskLimits, t: PortfolioTarget ::
      && limits.Valid() && t.Valid() && Assess(limits, t).REDUCED?
      && |t.positions| == 1 && t.positions[0].side == SHORT
      && |Assess(limits, t).target.positions| == 1 && Assess(limits, t).target.positions[0].side == LONG
  {
    hide Assess, TryReduce, WithinLimits, GrossOf, CashBeside, WeightsUpTo, PortfolioTarget.Valid;
    var limits := RiskLimits(10, 0.50, 0.10, 0.50);
    var t := PortfolioTarget("X", [TargetPosition("S", SHORT, 0.5, 1.0, 1.0, None, None)], 0.5, 0.5, map[]);
    OneShort();
    ShippedLimitsNeverReject(limits, t);
    OutsideLimits(limits, t);
    FittedWithinLimits(limits, t);
    ReducedAreStripped(limits, t);
    assert Stripped(TryReduce(limits, t).positions[0]);
  }

  lemma {:induction false} LongSide(ts: seq<TargetPosition>, symbol: string)
    requires AllStripped(ts)
    ensures TargetSide(ts, symbol) != Some(SHORT)
  {
    if |ts| > 0 {
      assert Stripped(ts[0]);
      LongSide(ts[1..], symbol);
    }
  }

  lemma StrippedAreLong(ts: seq<TargetPosition>, t: TargetPosition)
    requires AllStripped(ts) && t in ts
    ensures t.side == LONG
  {
    var i :| 0 <= i < |ts| && ts[i] == t;
    assert Stripped(ts[i]);
  }

  /** Executing a target of longs only adds rows, and no short among them. */
  lemma StrippedOpenNoShort(c: Calculator, l: Ledger, target: PortfolioTarget, quotes: Quotes, now: int)
    requires AllTradable(c, quotes) && AllStripped(target.positions)
    ensures var rows := ExecuteTarget(c, l, target, quotes, now).ledger.rows;
            && l.rows <= rows
            && forall i | |l.rows| <= i < |rows| :: rows[i].side == LONG
  {
    hide OpenAll, Revalued, BeginOpening, AllStripped;
    RevaluedRows();
    OpeningStarts(l, target, quotes, now);
    OpenAllFiles(c, BeginOpening(l, target, quotes, now), l, target.positions);
    forall t | t in target.positions ensures t.side == LONG {
      StrippedAreLong(target.positions, t);
    }
  }

  /** Closing towards a target of longs only leaves no short open that it could price. */
  lemma StrippedCloseShorts(a: Account, feeText: real -> string, l: Ledger, target: PortfolioTarget, quotes: Quotes, now: int)
    requires AllStripped(target.positions)
    ensures var rows := CloseNotInTarget(a.c, feeText, l, target, quotes, now).ledger.rows;
            && |rows| == |l.rows|
            && forall i | 0 <= i < |rows| && rows[i].status.OPEN? && rows[i].side == SHORT :: Unpriced(quotes, l.rows[i])
  {
    hide CloseNotInTarget, TargetSide, Unpriced, AllStripped;
    ClosedRows(a, feeText, target, quotes, now, l);
    forall i | 0 <= i < |l.rows| ensures WantedBy(target, l.rows[i]) ==> l.rows[i].side == LONG {
      LongSide(target.positions, l.rows[i].symbol);
    }
  }

  /** So once a reduced target has been handed to the broker, in any state, no short is open in the rows it could price:
      the closing step ends those that were open, and the opening step adds none. */
  lemma ReducedTargetsLeaveNoShort(a: Account, feeText: real -> string, l: Ledger, limits: RiskLimits, t: PortfolioTarget,
                                   quotes: Quotes, now: int, later: Quotes, laterNow: int)
    requires AllTradable(a.c, later)
    requires limits.Valid() && Assess(limits, t).REDUCED?
    ensures var target := Assess(limits, t).target;
            var closed := CloseNotInTarget(a.c, feeText, l, target, quotes, now).ledger;
            var after := ExecuteTarget(a.c, closed, target, later, laterNow).ledger;
            && |closed.rows| == |l.rows| && closed.rows <= after.rows
            && (forall i | 0 <= i < |after.rows| && after.rows[i].status.OPEN? && after.rows[i].side == SHORT ::
                  i < |l.rows| && Unpriced(quotes, l.rows[i]))
  {
    hide *;
    var target := Assess(limits, t).target;
    ReducedTarget(limits, t);
    StrippedCloseShorts(a, feeText, l, target, quotes, now);
    var closed := CloseNotInTarget(a.c, feeText, l, target, quotes, now).ledger;
    StrippedOpenNoShort(a.c, closed, target, later, laterNow);
  }

  lemma ReducedTarget(limits: RiskLimits, t: PortfolioTarget)
    requires limits.Valid() && Assess(limits, t).REDUCED?
    ensures AllStripped(Assess(limits, t).target.positions)
  {
    ReducedAreStripped(limits, t);
    hide TryReduce, Issues, AllStripped;
  }

  // ---------- what a cycle can commit ----------

  function SumNotional(rows: Table): real {
    if |rows| == 0 then 0.0 else SumNotional(rows[..|rows| - 1]) + rows[|rows| - 1].notional
  }

  /** The rows that were added. */
  function Added(before: Table, after: Table): Table
    requires |before| <= |after|
  {
    after[|before|..]
  }

  lemma NotionalAtMostShare(c: Calculator, weight: real, equity: real)
    ensures c.TargetNotional(weight, equity) <= Times(weight, equity)
  {
    hide Times;
  }

  lemma AddedOneMore(before: Table, after: Table, row: Position)
    requires before <= after
    ensures SumNotional(Added(before, after + [row])) == SumNotional(Added(before, after)) + row.notional
    ensures |Added(before, after + [row])| == |Added(before, after)| + 1
  {
    assert Added(before, after + [row]) == Added(before, after) + [row];
    assert (Added(before, after) + [row])[..|Added(before, after)|] == Added(before, after);
  }

  lemma ShareAdds(equity: real, sum: real, weight: real)
    ensures Times(equity, sum + weight) == Times(equity, sum) + Times(weight, equity)
    ensures Times(equity, 0.0) == 0.0
    ensures weight >= 0.0 && equity >= 0.0 ==> Times(weight, equity) >= 0.0
    ensures weight >= 0.0 && equity <= 0.0 ==> Times(weight, equity) <= 0.0
  {
  }

  lemma OpenAllOneMore(c: Calculator, o: Opening, l: Ledger, ts: seq<TargetPosition>)
    requires AllTradable(c, o.quotes)
    ensures |ts| == 0 ==> OpenAll(c, o, Progress(l, [], []), ts).ledger == l && SumWeights(ts) == 0.0
    ensures |ts| > 0 ==>
              var init, last := ts[..|ts| - 1], ts[|ts| - 1];
              && OpenAll(c, o, Progress(l, [], []), ts) == OpenOne(c, o, OpenAll(c, o, Progress(l, [], []), init), last)
              && SumWeights(ts) == SumWeights(init) + last.weight
  {
    hide OpenOne, AllTradable;
  }

  lemma NothingAdded(rows: Table)
    ensures Added(rows, rows) == [] && SumNotional([]) == 0.0
  {
  }

  /** Opening commits at most each weight's share of the starting equity, however many orders are let through. */
  lemma {:induction false} OpeningCommitsAtMost(c: Calculator, o: Opening, l: Ledger, ts: seq<TargetPosition>)
    requires AllTradable(c, o.quotes)
    requires forall i | 0 <= i < |ts| :: ts[i].weight >= 0.0
    ensures var rows := OpenAll(c, o, Progress(l, [], []), ts).ledger.rows;
            && l.rows <= rows && |Added(l.rows, rows)| <= |ts|
            && SumNotional(Added(l.rows, rows)) <= Times(Max(0.0, o.startingEquity), SumWeights(ts))
  {
    hide *;
    OpenAllOneMore(c, o, l, ts);
    if |ts| == 0 {
      NothingAdded(l.rows);
      ShareAdds(Max(0.0, o.startingEquity), 0.0, 0.0);
    } else {
      var init, last := ts[..|ts| - 1], ts[|ts| - 1];
      OpeningCommitsAtMost(c, o, l, init);
      OpenOneCommits(c, o, l, OpenAll(c, o, Progress(l, [], []), init), last);
      ShareAdds(Max(0.0, o.startingEquity), SumWeights(init), last.weight);
    }
  }

  lemma OpenOneCommits(c: Calculator, o: Opening, l: Ledger, pr: Progress, t: TargetPosition)
    requires AllTradable(c, o.quotes) && l.rows <= pr.ledger.rows && t.weight >= 0.0
    ensures var rows := OpenOne(c, o, pr, t).ledger.rows;
            && l.rows <= rows && |Added(l.rows, rows)| <= |Added(l.rows, pr.ledger.rows)| + 1
            && SumNotional(Added(l.rows, rows))
               <= SumNotional(Added(l.rows, pr.ledger.rows)) + Times(t.weight, Max(0.0, o.startingEquity))
  {
    hide AllTradable, Times, SumNotional, Added, Calculator.TargetNotional, Calculator.Fee;
    ShareAdds(o.startingEquity, 0.0, t.weight);
    ShareAdds(Max(0.0, o.startingEquity), 0.0, t.weight);
    if Screen(c, o, pr.ledger, t) == EXECUTED {
      NotionalAtMostShare(c, t.weight, o.startingEquity);
      OpenedNotional(c, o, t);
      AddedOneMore(l.rows, pr.ledger.rows, OpenRow(c, o, t));
    }
  }

  lemma OpenedNotional(c: Calculator, o: Opening, t: TargetPosition)
    requires AllTradable(c, o.quotes)
    requires t.symbol in o.quotes && o.quotes[t.symbol].close.Some? && o.quotes[t.symbol].close.value > 0.0
    ensures OpenRow(c, o, t).notional == c.TargetNotional(t.weight, o.startingEquity)
  {
  }

  lemma AcceptedSum(limits: RiskLimits, t: PortfolioTarget)
    requires limits.Valid() && t.Valid() && SumWeights(t.positions) == t.grossExposure
    requires Assess(limits, t).APPROVED? || Assess(limits, t).REDUCED?
    ensures var target := Assess(limits, t).target;
            && SumWeights(target.positions) <= limits.maxGrossExposure + EPSILON + 0.5 * TENTH
            && |target.positions| <= limits.maxPositions
            && forall i | 0 <= i < |target.positions| :: 0.0 <= target.positions[i].weight <= limits.maxPositionWeight + EPSILON
  {
    hide Round10, Issues, SumWeights, FitCash, FitGross, CashBeside;
    AcceptedTargetsPass(limits, t);
    Round10Error(SumWeights(TryReduce(limits, t).positions));
  }

  /** From any state of any run: under limits of at most 19 positions and a safe gross limit the portfolio engine's
      target is always accepted, and executing what is accepted opens at most the permitted number of positions, for at
      most the permitted gross share of the account's equity. */
  lemma OpeningStaysWithinLimits(a: Account, feeText: real -> string, steps: seq<Step>, start: int,
                                 e: Portfolio.Settings, limits: RiskLimits, exchange: string, ds: seq<TradingDecision>,
                                 held: seq<string>, riskLevel: int, quotes: Quotes, now: int)
    requires Runs(a, steps, start) && AllTradable(a.c, quotes)
    requires limits.Valid() && limits.maxPositions <= 19 && limits.maxGrossExposure <= SafeGross(limits.maxPositions)
    ensures var assessed := Assess(limits, Portfolio.Target(e, exchange, ds, held, riskLevel));
            var l := Reached(a, feeText, steps);
            && (assessed.APPROVED? || assessed.REDUCED?)
            && var after := ExecuteTarget(a.c, l, assessed.target, quotes, now).ledger;
               && l.rows <= after.rows
               && |Added(l.rows, after.rows)| <= limits.maxPositions
               && SumNotional(Added(l.rows, after.rows))
                  <= Times(Max(0.0, l.equity), limits.maxGrossExposure + EPSILON + 0.5 * TENTH)
  {
    var t := Portfolio.Target(e, exchange, ds, held, riskLevel);
    hide Portfolio.Target, Assess, SafeGross, OpenAll, Reached, SumWeights, SumNotional, Added, Revalued, Times, AllTradable;
    Exposure.TargetIsWhole(e, exchange, ds, held, riskLevel);
    ReductionAlwaysSucceeds(limits, t);
    AcceptedSum(limits, t);
    var target, l := Assess(limits, t).target, Reached(a, feeText, steps);
    OpeningStarts(l, target, quotes, now);
    hide BeginOpening;
    var o := BeginOpening(l, target, quotes, now);
    OpeningCommitsAtMost(a.c, o, l, target.positions);
    TimesMonotone(Max(0.0, l.equity), SumWeights(target.positions), limits.maxGrossExposure + EPSILON + 0.5 * TENTH);
    RevaluedRows();
  }
}
