/** What the risk engine answers, in terms of the limits and the weights: which breach is reported, and what a reduced
    target weighs. */
module RiskDecisions {
  import opened Options
  import opened PositionTable
  import opened RiskEngine
  import opened Rounding
  import opened Sums
  import opened Targets

  // ---------- breaches ----------

  lemma {:induction false} WeightIssuesSayWhich(limits: RiskLimits, ps: seq<TargetPosition>, issue: Issue)
    ensures issue in WeightIssues(limits, ps) <==>
            exists i :: 0 <= i < |ps| && ps[i].weight > limits.maxPositionWeight + 0.000000001
                        && issue == MAX_POSITION_WEIGHT_EXCEEDED(ps[i].symbol)
  {
    if |ps| > 0 {
      var init := ps[..|ps| - 1];
      WeightIssuesSayWhich(limits, init, issue);
      assert forall i | 0 <= i < |init| :: init[i] == ps[i];
    }
  }

  /** Each breach is reported under its own code, and nothing else is: beyond a billionth for weights. */
  lemma IssuesSayWhich(limits: RiskLimits, t: PortfolioTarget, issue: Issue)
    ensures issue in Issues(limits, t) <==>
            match issue
            case MAX_POSITIONS_EXCEEDED => |t.positions| > limits.maxPositions
            case MAX_GROSS_EXPOSURE_EXCEEDED => t.grossExposure > limits.maxGrossExposure + 0.000000001
            case MIN_CASH_WEIGHT_VIOLATED => t.cashWeight < limits.minCashWeight - 0.000000001
            case MAX_POSITION_WEIGHT_EXCEEDED(symbol) =>
              exists i :: 0 <= i < |t.positions| && t.positions[i].symbol == symbol
                          && t.positions[i].weight > limits.maxPositionWeight + 0.000000001
  {
    hide WeightIssues;
    WeightIssuesSayWhich(limits, t.positions, issue);
    if issue.MAX_POSITION_WEIGHT_EXCEEDED? && issue in WeightIssues(limits, t.positions) {
      var i :| 0 <= i < |t.positions| && t.positions[i].weight > limits.maxPositionWeight + 0.000000001
               && issue == MAX_POSITION_WEIGHT_EXCEEDED(t.positions[i].symbol);
    }
  }

  predicate Breaches(limits: RiskLimits, t: PortfolioTarget) {
    || |t.positions| > limits.maxPositions
    || t.grossExposure > limits.maxGrossExposure + 0.000000001
    || t.cashWeight < limits.minCashWeight - 0.000000001
    || exists i :: 0 <= i < |t.positions| && t.positions[i].weight > limits.maxPositionWeight + 0.000000001
  }

  // ---------- what is left of the weights ----------

  function TenDecimals(x: real): real {
    RoundAt(x, 10000000000.0)
  }

  /** The first positions, as many as the limit allows, each with its weight cut to the limit. */
  function CutWeights(limits: RiskLimits, t: PortfolioTarget): (ws: seq<real>) {
    var n := if |t.positions| > limits.maxPositions then limits.maxPositions else |t.positions|;
    seq(n, i requires 0 <= i < n =>
      if t.positions[i].weight > limits.maxPositionWeight then limits.maxPositionWeight else t.positions[i].weight)
  }

  /** All weights by one factor, to ten decimals. */
  function Scaled(ws: seq<real>, factor: real): (r: seq<real>)
    ensures |r| == |ws|
  {
    seq(|ws|, i requires 0 <= i < |ws| => TenDecimals(Times(ws[i], factor)))
  }

  function ToGross(limits: RiskLimits, ws: seq<real>): (r: seq<real>)
    requires limits.Valid()
    ensures |r| == |ws|
  {
    if Total(ws) > limits.maxGrossExposure then Scaled(ws, limits.maxGrossExposure / Total(ws)) else ws
  }

  function CashLeft(ws: seq<real>): real {
    var gross := TenDecimals(Total(ws));
    TenDecimals(if gross < 1.0 then 1.0 - gross else 0.0)
  }

  function ToCash(limits: RiskLimits, ws: seq<real>): (r: seq<real>)
    ensures |r| == |ws|
  {
    var gross := TenDecimals(Total(ws));
    if gross > 0.0 && CashLeft(ws) < limits.minCashWeight then Scaled(ws, (1.0 - limits.minCashWeight) / gross) else ws
  }

  function ReducedWeights(limits: RiskLimits, t: PortfolioTarget): seq<real>
    requires limits.Valid()
  {
    ToCash(limits, ToGross(limits, CutWeights(limits, t)))
  }

  /** Position i of the original as a reduced target holds it. */
  function Kept(p: TargetPosition, weight: real): TargetPosition {
    TargetPosition(p.symbol, LONG, weight, p.confidence, p.finalScore, None, None)
  }

  // ---------- the engine's positions have these weights ----------

  /** The positions are those of the original, with the given weights. */
  predicate Weighs(ps: seq<TargetPosition>, of: seq<TargetPosition>, ws: seq<real>) {
    |ps| == |ws| <= |of| && forall i | 0 <= i < |ps| :: ps[i].weight == ws[i] && ps[i] == Kept(of[i], ws[i])
  }

  lemma {:induction false} SumIsTotal(ps: seq<TargetPosition>, of: seq<TargetPosition>, ws: seq<real>)
    requires Weighs(ps, of, ws)
    ensures SumWeights(ps) == Total(ws)
  {
    if |ps| > 0 { SumIsTotal(ps[..|ps| - 1], of, ws[..|ws| - 1]); }
  }

  lemma {:induction false} CappedIs(ps: seq<TargetPosition>, cap: real)
    ensures |Capped(ps, cap)| == |ps|
    ensures forall i | 0 <= i < |ps| :: Capped(ps, cap)[i] == Kept(ps[i], if ps[i].weight > cap then cap else ps[i].weight)
  {
    if |ps| > 0 { CappedIs(ps[..|ps| - 1], cap); }
  }

  lemma {:induction false} RescaledIs(ps: seq<TargetPosition>, of: seq<TargetPosition>, ws: seq<real>, factor: real)
    requires Weighs(ps, of, ws)
    ensures Weighs(Rescaled(ps, factor), of, Scaled(ws, factor))
  {
    hide RoundAt, Times;
    if |ps| > 0 {
      var n := |ps| - 1;
      RescaledIs(ps[..n], of, ws[..n], factor);
      assert Scaled(ws, factor)[..n] == Scaled(ws[..n], factor);
      assert Rescaled(ps, factor)[..n] == Rescaled(ps[..n], factor);
    }
  }

  lemma CutIs(limits: RiskLimits, t: PortfolioTarget)
    ensures Weighs(Capped(Selected(limits, t), limits.maxPositionWeight), t.positions, CutWeights(limits, t))
  {
    CappedIs(Selected(limits, t), limits.maxPositionWeight);
  }

  lemma GrossIs(limits: RiskLimits, ps: seq<TargetPosition>, of: seq<TargetPosition>, ws: seq<real>)
    requires limits.Valid() && Weighs(ps, of, ws)
    ensures Weighs(FitGross(limits, ps), of, ToGross(limits, ws))
  {
    hide Weighs, Scaled, Rescaled;
    SumIsTotal(ps, of, ws);
    if Total(ws) > limits.maxGrossExposure { RescaledIs(ps, of, ws, limits.maxGrossExposure / Total(ws)); }
  }

  lemma CashIs(limits: RiskLimits, ps: seq<TargetPosition>, of: seq<TargetPosition>, ws: seq<real>)
    requires Weighs(ps, of, ws)
    ensures GrossOf(ps) == TenDecimals(Total(ws)) && CashBeside(GrossOf(ps)) == CashLeft(ws)
    ensures Weighs(FitCash(limits, ps), of, ToCash(limits, ws))
  {
    hide Weighs, Scaled, Rescaled, RoundAt;
    SumIsTotal(ps, of, ws);
    if GrossOf(ps) > 0.0 { RescaledIs(ps, of, ws, (1.0 - limits.minCashWeight) / GrossOf(ps)); }
  }

  lemma ReductionIs(limits: RiskLimits, t: PortfolioTarget)
    requires limits.Valid()
    ensures var r, ws := TryReduce(limits, t), ReducedWeights(limits, t);
            && Weighs(r.positions, t.positions, ws)
            && r == PortfolioTarget(t.exchange, r.positions, CashLeft(ws), TenDecimals(Total(ws)), map[])
  {
    hide Weighs, FitGross, FitCash, Capped, ToGross, ToCash, CutWeights, CashLeft, RoundAt, GrossOf, CashBeside;
    CutIs(limits, t);
    var ps, ws := Capped(Selected(limits, t), limits.maxPositionWeight), CutWeights(limits, t);
    GrossIs(limits, ps, t.positions, ws);
    var qs, vs := FitGross(limits, ps), ToGross(limits, ws);
    CashIs(limits, qs, t.positions, vs);
    CashIs(limits, FitCash(limits, qs), t.positions, ToCash(limits, vs));
  }

  lemma BreachMeansIssue(limits: RiskLimits, t: PortfolioTarget)
    ensures Issues(limits, t) == [] <==> !Breaches(limits, t)
  {
    NoIssuesWithinLimits(limits, t);
  }

  /** The answer: a target without a breach passes as it is; any other is cut and scaled to these weights, and passes so
      if that is a target at all and has no breach; otherwise it is refused or rejected. */
  lemma AnswersExactly(limits: RiskLimits, t: PortfolioTarget) returns (reduced: PortfolioTarget)
    requires limits.Valid()
    ensures var ws := ReducedWeights(limits, t);
            && Weighs(reduced.positions, t.positions, ws)
            && reduced == PortfolioTarget(t.exchange, reduced.positions, CashLeft(ws), TenDecimals(Total(ws)), map[])
    ensures Assess(limits, t)
            == if !Breaches(limits, t) then APPROVED(t)
               else if !reduced.Valid() then INVALID_TARGET
               else if !Breaches(limits, reduced) then REDUCED(reduced, Issues(limits, t))
               else REJECTED(Issues(limits, t))
  {
    hide Breaches, Weighs, ReducedWeights, CashLeft, TryReduce, Issues, PortfolioTarget.Valid, RoundAt;
    reduced := TryReduce(limits, t);
    ReductionIs(limits, t);
    BreachMeansIssue(limits, t);
    BreachMeansIssue(limits, reduced);
  }
}
