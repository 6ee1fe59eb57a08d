/**
 The risk engine: checks a portfolio target against limits, and if it fails reduces it by
 capping, two rescalings and rounding to ten decimals, then checks again.
 */
module RiskEngine {
  import opened Options
  import opened PositionTable
  import opened Rounding
  import opened Targets

  const WEIGHT_SCALE: Scale := 10000000000.0

  /** One unit in the tenth decimal. */
  const TENTH := 0.0000000001
  const EPSILON := 0.000000001

  function Round10(x: real): real {
    RoundAt(x, WEIGHT_SCALE)
  }

  datatype RiskLimits = RiskLimits(
    maxPositions: nat,
    maxGrossExposure: real,
    maxPositionWeight: real,
    minCashWeight: real)
  {
    predicate Valid() {
      && maxPositions >= 1
      && 0.0 <= maxGrossExposure <= 1.0
      && 0.0 <= maxPositionWeight <= 1.0
      && 0.0 <= minCashWeight <= 1.0
    }
  }

  datatype Issue =
    | MAX_POSITIONS_EXCEEDED
    | MAX_GROSS_EXPOSURE_EXCEEDED
    | MIN_CASH_WEIGHT_VIOLATED
    | MAX_POSITION_WEIGHT_EXCEEDED(symbol: string)

  datatype Assessment =
    | APPROVED(target: PortfolioTarget)
    | REDUCED(target: PortfolioTarget, issues: seq<Issue>)
    | REJECTED(issues: seq<Issue>)
    | INVALID_TARGET  // the reduced target broke a field constraint, and its construction raised

  // ---------- the checks ----------

  function WeightIssues(limits: RiskLimits, ps: seq<TargetPosition>): seq<Issue> {
    if |ps| == 0 then []
    else
      var p := ps[|ps| - 1];
      WeightIssues(limits, ps[..|ps| - 1])
      + if p.weight > limits.maxPositionWeight + EPSILON then [MAX_POSITION_WEIGHT_EXCEEDED(p.symbol)] else []
  }

  function Issues(limits: RiskLimits, t: PortfolioTarget): seq<Issue> {
    (if |t.positions| > limits.maxPositions then [MAX_POSITIONS_EXCEEDED] else [])
    + (if t.grossExposure > limits.maxGrossExposure + EPSILON then [MAX_GROSS_EXPOSURE_EXCEEDED] else [])
    + (if t.cashWeight < limits.minCashWeight - EPSILON then [MIN_CASH_WEIGHT_VIOLATED] else [])
    + WeightIssues(limits, t.positions)
  }

  lemma WeightIssuesNext(limits: RiskLimits, ps: seq<TargetPosition>, i: nat)
    requires i < |ps|
    ensures WeightIssues(limits, ps[..i + 1])
            == WeightIssues(limits, ps[..i])
               + if ps[i].weight > limits.maxPositionWeight + EPSILON then [MAX_POSITION_WEIGHT_EXCEEDED(ps[i].symbol)] else []
  {
    assert ps[..i + 1][..i] == ps[..i];
  }

  method CollectIssues(limits: RiskLimits, t: PortfolioTarget) returns (issues: seq<Issue>)
    ensures issues == Issues(limits, t)
    ensures issues == [] <==> WithinLimits(limits, t)
  {
    hide WeightIssues, WithinLimits;
    issues := [];
    if |t.positions| > limits.maxPositions {
      issues := issues + [MAX_POSITIONS_EXCEEDED];
    }
    if t.grossExposure > limits.maxGrossExposure + EPSILON {
      issues := issues + [MAX_GROSS_EXPOSURE_EXCEEDED];
    }
    if t.cashWeight < limits.minCashWeight - EPSILON {
      issues := issues + [MIN_CASH_WEIGHT_VIOLATED];
    }
    var found := WeightViolations(limits, t.positions);
    issues := issues + found;
    NoIssuesWithinLimits(limits, t);
  }

  /** The loop over the positions at the end of the checks. */
  method WeightViolations(limits: RiskLimits, ps: seq<TargetPosition>) returns (issues: seq<Issue>)
    ensures issues == WeightIssues(limits, ps)
  {
    issues := [];
    for i := 0 to |ps|
      invariant issues == WeightIssues(limits, ps[..i])
    {
      WeightIssuesNext(limits, ps, i);
      if ps[i].weight > limits.maxPositionWeight + EPSILON {
        issues := issues + [MAX_POSITION_WEIGHT_EXCEEDED(ps[i].symbol)];
      }
    }
    assert ps[..|ps|] == ps;
  }

  /** What it means to pass every check. */
  predicate WithinLimits(limits: RiskLimits, t: PortfolioTarget) {
    && |t.positions| <= limits.maxPositions
    && t.grossExposure <= limits.maxGrossExposure + EPSILON
    && t.cashWeight >= limits.minCashWeight - EPSILON
    && forall i | 0 <= i < |t.positions| :: t.positions[i].weight <= limits.maxPositionWeight + EPSILON
  }

  lemma {:induction false} NoWeightIssues(limits: RiskLimits, ps: seq<TargetPosition>)
    ensures WeightIssues(limits, ps) == [] <==>
            forall i | 0 <= i < |ps| :: ps[i].weight <= limits.maxPositionWeight + EPSILON
  {
    if |ps| > 0 {
      var init := ps[..|ps| - 1];
      NoWeightIssues(limits, init);
      assert forall i | 0 <= i < |init| :: init[i] == ps[i];
    }
  }

  lemma NoIssuesWithinLimits(limits: RiskLimits, t: PortfolioTarget)
    ensures Issues(limits, t) == [] <==> WithinLimits(limits, t)
  {
    NoWeightIssues(limits, t.positions);
  }

  // ---------- the reduction ----------

  /** A reduced position keeps its symbol and scores; side and overrides fall back to their defaults. */
  function Rebuilt(p: TargetPosition, weight: real): TargetPosition {
    TargetPosition(p.symbol, LONG, weight, p.confidence, p.finalScore, None, None)
  }

  function Capped(ps: seq<TargetPosition>, cap: real): seq<TargetPosition> {
    if |ps| == 0 then []
    else
      var p := ps[|ps| - 1];
      Capped(ps[..|ps| - 1], cap) + [Rebuilt(p, if cap < p.weight then cap else p.weight)]
  }

  function Rescaled(ps: seq<TargetPosition>, scale: real): seq<TargetPosition> {
    if |ps| == 0 then []
    else
      var p := ps[|ps| - 1];
      Rescaled(ps[..|ps| - 1], scale) + [Rebuilt(p, Round10(Times(p.weight, scale)))]
  }

  function Selected(limits: RiskLimits, t: PortfolioTarget): seq<TargetPosition> {
    if |t.positions| > limits.maxPositions then t.positions[..limits.maxPositions] else t.positions
  }

  function FitGross(limits: RiskLimits, ps: seq<TargetPosition>): seq<TargetPosition>
    requires limits.Valid()
  {
    var gross := SumWeights(ps);
    if gross > limits.maxGrossExposure then Rescaled(ps, limits.maxGrossExposure / gross) else ps
  }

  function GrossOf(ps: seq<TargetPosition>): real {
    Round10(SumWeights(ps))
  }

  function CashBeside(gross: real): real {
    Round10(if 1.0 - gross > 0.0 then 1.0 - gross else 0.0)
  }

  function FitCash(limits: RiskLimits, ps: seq<TargetPosition>): seq<TargetPosition> {
    var gross := GrossOf(ps);
    if CashBeside(gross) < limits.minCashWeight && gross > 0.0 then
      Rescaled(ps, (1.0 - limits.minCashWeight) / gross)
    else ps
  }

  function TryReduce(limits: RiskLimits, t: PortfolioTarget): PortfolioTarget
    requires limits.Valid()
  {
    var ps := FitCash(limits, FitGross(limits, Capped(Selected(limits, t), limits.maxPositionWeight)));
    PortfolioTarget(t.exchange, ps, CashBeside(GrossOf(ps)), GrossOf(ps), map[])
  }

  function Assess(limits: RiskLimits, t: PortfolioTarget): Assessment
    requires limits.Valid()
  {
    var issues := Issues(limits, t);
    if issues == [] then APPROVED(t)
    else
      var reduced := TryReduce(limits, t);
      if !reduced.Valid() then INVALID_TARGET
      else if Issues(limits, reduced) == [] then REDUCED(reduced, issues)
      else REJECTED(issues)
  }

  // ---------- what rounding can do to a target ----------

  lemma Round10Error(x: real)
    ensures -0.5 * TENTH <= Round10(x) - x <= 0.5 * TENTH
    ensures OnGrid(Round10(x), WEIGHT_SCALE)
  {
    RoundError(x, WEIGHT_SCALE);
    RoundedIsOnGrid(x, WEIGHT_SCALE);
  }

  lemma Round10Fixed(x: real)
    requires OnGrid(x, WEIGHT_SCALE)
    ensures Round10(x) == x
  {
    RoundFixesGrid(x, WEIGHT_SCALE);
  }

  lemma Round10Monotone(x: real, y: real)
    requires x <= y
    ensures Round10(x) <= Round10(y)
  {
    RoundMonotone(x, y, WEIGHT_SCALE);
  }

  lemma WholeWeights()
    ensures OnGrid(0.0, WEIGHT_SCALE) && OnGrid(1.0, WEIGHT_SCALE)
  {
    assert 0.0 == Tick(0, WEIGHT_SCALE);
    assert 1.0 == Tick(10000000000, WEIGHT_SCALE);
  }

  /** Weights between 0 and a bound, position by position. */
  predicate WeightsUpTo(ps: seq<TargetPosition>, bound: real) {
    forall i | 0 <= i < |ps| :: 0.0 <= ps[i].weight <= bound
  }

  /** qs has the symbols of ps in order, and no weight exceeds that of ps by more than `slack`. */
  predicate AtMost(qs: seq<TargetPosition>, ps: seq<TargetPosition>, slack: real) {
    && |qs| == |ps|
    && forall i | 0 <= i < |ps| :: qs[i].symbol == ps[i].symbol && qs[i].weight <= ps[i].weight + slack
  }

  ghost predicate AllOnGrid(ps: seq<TargetPosition>) {
    forall i | 0 <= i < |ps| :: OnGrid(ps[i].weight, WEIGHT_SCALE)
  }

  lemma {:induction false} GridSumOfWeights(ps: seq<TargetPosition>)
    requires AllOnGrid(ps)
    ensures OnGrid(SumWeights(ps), WEIGHT_SCALE)
  {
    WholeWeights();
    if |ps| > 0 {
      GridSumOfWeights(ps[..|ps| - 1]);
      GridSum(SumWeights(ps[..|ps| - 1]), ps[|ps| - 1].weight, WEIGHT_SCALE);
    }
  }

  lemma {:induction false} SumNonNegative(ps: seq<TargetPosition>, bound: real)
    requires WeightsUpTo(ps, bound)
    ensures SumWeights(ps) >= 0.0
  {
    if |ps| > 0 {
      SumNonNegative(ps[..|ps| - 1], bound);
    }
  }

  lemma WeightsAppend(ps: seq<TargetPosition>, p: TargetPosition, bound: real)
    ensures WeightsUpTo(ps + [p], bound) <==> WeightsUpTo(ps, bound) && 0.0 <= p.weight <= bound
  {
    assert (ps + [p])[|ps|] == p;
    assert forall i | 0 <= i < |ps| :: (ps + [p])[i] == ps[i];
  }

  lemma AtMostAppend(qs: seq<TargetPosition>, ps: seq<TargetPosition>, q: TargetPosition, p: TargetPosition, slack: real)
    requires AtMost(qs, ps, slack) && q.symbol == p.symbol && q.weight <= p.weight + slack
    ensures AtMost(qs + [q], ps + [p], slack)
  {
  }

  lemma {:induction false} CappedWeights(ps: seq<TargetPosition>, cap: real, bound: real)
    requires WeightsUpTo(ps, bound) && cap >= 0.0
    ensures var qs := Capped(ps, cap);
            WeightsUpTo(qs, cap) && AtMost(qs, ps, 0.0)
  {
    if |ps| > 0 {
      var init, p := ps[..|ps| - 1], ps[|ps| - 1];
      CappedWeights(init, cap, bound);
      var q := Rebuilt(p, if cap < p.weight then cap else p.weight);
      assert 0.0 <= q.weight <= cap;
      hide WeightsUpTo, AtMost;
      assert init + [p] == ps;
      WeightsAppend(Capped(init, cap), q, cap);
      AtMostAppend(Capped(init, cap), init, q, p, 0.0);
    }
  }

  /** One weight, scaled down and rounded: on the grid, non-negative, off by at most half a unit either way. */
  lemma RescaledWeight(w: real, scale: real)
    requires w >= 0.0 && 0.0 <= scale <= 1.0
    ensures var r := Round10(Times(w, scale));
            && 0.0 <= r <= w + 0.5 * TENTH && OnGrid(r, WEIGHT_SCALE)
            && -0.5 * TENTH <= r - Times(w, scale) <= 0.5 * TENTH
            && (w <= 1.0 ==> r <= 1.0)
  {
    hide Round10, Times;
    TimesShrinks(w, scale);
    Round10Error(Times(w, scale));
    WholeWeights();
    Round10Fixed(0.0);
    Round10Fixed(1.0);
    Round10Monotone(0.0, Times(w, scale));
    if w <= 1.0 { Round10Monotone(Times(w, scale), 1.0); }
  }

  lemma RescaledAppend(ps: seq<TargetPosition>, scale: real)
    ensures |ps| == 0 ==> Rescaled(ps, scale) == []
    ensures |ps| > 0 ==>
              Rescaled(ps, scale) == Rescaled(ps[..|ps| - 1], scale)
                                     + [Rebuilt(ps[|ps| - 1], Round10(Times(ps[|ps| - 1].weight, scale)))]
  {
    hide Round10, Times;
  }

  lemma GridAppend(ps: seq<TargetPosition>, p: TargetPosition)
    ensures AllOnGrid(ps + [p]) <==> AllOnGrid(ps) && OnGrid(p.weight, WEIGHT_SCALE)
  {
    hide OnGrid;
    assert (ps + [p])[|ps|] == p;
    assert forall i | 0 <= i < |ps| :: (ps + [p])[i] == ps[i];
  }

  lemma NothingRescaled(bound: real, slack: real)
    ensures WeightsUpTo([], bound) && AtMost([], [], slack) && AllOnGrid([])
  {
  }

  /** Scaling down and rounding to ten decimals: every weight lands on the grid and grows by at most
      half a unit. */
  lemma {:induction false} RescaledWeights(ps: seq<TargetPosition>, scale: real, bound: real)
    requires WeightsUpTo(ps, bound) && 0.0 <= scale <= 1.0
    ensures var qs := Rescaled(ps, scale);
            && WeightsUpTo(qs, bound + 0.5 * TENTH) && AtMost(qs, ps, 0.5 * TENTH) && AllOnGrid(qs)
            && (WeightsUpTo(ps, 1.0) ==> WeightsUpTo(qs, 1.0))
  {
    hide *;
    RescaledAppend(ps, scale);
    if |ps| == 0 {
      assert ps == [];
      NothingRescaled(bound + 0.5 * TENTH, 0.5 * TENTH);
      NothingRescaled(1.0, 0.0);
    } else {
      var init, p := ps[..|ps| - 1], ps[|ps| - 1];
      var q := Rebuilt(p, Round10(Times(p.weight, scale)));
      assert init + [p] == ps;
      RebuiltAs(p, Round10(Times(p.weight, scale)));
      WeightsAppend(init, p, bound);
      WeightsAppend(init, p, 1.0);
      RescaledWeights(init, scale, bound);
      RescaledWeight(p.weight, scale);
      WeightsAppend(Rescaled(init, scale), q, bound + 0.5 * TENTH);
      WeightsAppend(Rescaled(init, scale), q, 1.0);
      AtMostAppend(Rescaled(init, scale), init, q, p, 0.5 * TENTH);
      GridAppend(Rescaled(init, scale), q);
    }
  }

  lemma RebuiltAs(p: TargetPosition, weight: real)
    ensures Rebuilt(p, weight).weight == weight && Rebuilt(p, weight).symbol == p.symbol
  {
  }

  /** The sum misses its exact value by at most half a unit per position, either way. */
  lemma {:induction false} RescaledSum(ps: seq<TargetPosition>, scale: real, bound: real)
    requires WeightsUpTo(ps, bound) && 0.0 <= scale <= 1.0
    ensures var off := SumWeights(Rescaled(ps, scale)) - Times(SumWeights(ps), scale);
            -0.5 * TENTH * |ps| as real <= off <= 0.5 * TENTH * |ps| as real
  {
    hide Round10, Times, OnGrid;
    if |ps| == 0 {
      TimesShrinks(0.0, scale);
    } else {
      var init, p := ps[..|ps| - 1], ps[|ps| - 1];
      RescaledSum(init, scale, bound);
      RescaledWeight(p.weight, scale);
      SumWeightsAppend(Rescaled(init, scale), Rebuilt(p, Round10(Times(p.weight, scale))));
      TimesDistributes(SumWeights(init), p.weight, scale);
    }
  }

  lemma GridWeightShrinks(w: real, scale: real)
    requires w >= 0.0 && OnGrid(w, WEIGHT_SCALE) && 0.0 <= scale <= 1.0
    ensures Round10(Times(w, scale)) <= w
  {
    hide Round10, Times, OnGrid;
    TimesShrinks(w, scale);
    Round10Fixed(w);
    Round10Monotone(Times(w, scale), w);
  }

  /** On the grid, scaling down and rounding never increases a weight, so it never increases the sum. */
  lemma {:induction false} RescaledOnGridShrinks(ps: seq<TargetPosition>, scale: real, bound: real)
    requires WeightsUpTo(ps, bound) && AllOnGrid(ps) && 0.0 <= scale <= 1.0
    ensures var qs := Rescaled(ps, scale);
            SumWeights(qs) <= SumWeights(ps) && AtMost(qs, ps, 0.0)
  {
    hide Round10, Times, OnGrid;
    if |ps| > 0 {
      var init, p := ps[..|ps| - 1], ps[|ps| - 1];
      RescaledOnGridShrinks(init, scale, bound);
      GridWeightShrinks(p.weight, scale);
      SumWeightsAppend(Rescaled(init, scale), Rebuilt(p, Round10(Times(p.weight, scale))));
    }
  }

  // ---------- the two fits ----------

  /** After the gross fit: the sum is within half a unit per position of the limit, and either the
      weights are on the grid or nothing was changed and the sum obeys the limit exactly. */
  lemma FitGrossFits(limits: RiskLimits, ps: seq<TargetPosition>)
    requires limits.Valid() && WeightsUpTo(ps, 1.0)
    ensures var qs := FitGross(limits, ps);
            && WeightsUpTo(qs, 1.0) && AtMost(qs, ps, 0.5 * TENTH)
            && SumWeights(qs) <= limits.maxGrossExposure + 0.5 * TENTH * |ps| as real
            && (AllOnGrid(qs) || SumWeights(qs) <= limits.maxGrossExposure)
  {
    hide Round10, Times;
    var gross := SumWeights(ps);
    if gross > limits.maxGrossExposure {
      var scale := limits.maxGrossExposure / gross;
      QuotientScales(limits.maxGrossExposure, gross);
      RescaledWeights(ps, scale, 1.0);
      RescaledSum(ps, scale, 1.0);
    }
  }

  lemma QuotientScales(part: real, whole: real)
    requires 0.0 <= part <= whole && whole > 0.0
    ensures 0.0 <= part / whole <= 1.0
    ensures Times(whole, part / whole) == part
  {
  }

  lemma CashBesideExact(gross: real)
    requires OnGrid(gross, WEIGHT_SCALE)
    ensures CashBeside(gross) == if gross < 1.0 then 1.0 - gross else 0.0
  {
    WholeWeights();
    GridSum(1.0, gross, WEIGHT_SCALE);
    Round10Fixed(0.0);
    if gross < 1.0 { Round10Fixed(1.0 - gross); }
  }

  lemma ScaledSlack(a: real, b: real, scale: real)
    requires a <= b + 0.5 * TENTH && 0.0 <= scale <= 1.0
    ensures Times(a, scale) <= Times(b, scale) + 0.5 * TENTH
  {
    TimesMonotone(scale, a, b + 0.5 * TENTH);
    assert Times(scale, b + 0.5 * TENTH) == Times(b, scale) + scale * (0.5 * TENTH);
  }

  /** Scaling the weights, whose rounded sum is `gross`, down to a sum of `allowed`: it is missed by at
      most half a unit per position, and one half more if the sum itself was rounded. */
  lemma RescaledTo(ps: seq<TargetPosition>, gross: real, allowed: real)
    requires WeightsUpTo(ps, 1.0) && gross == GrossOf(ps) && 0.0 <= allowed <= gross && gross > 0.0
    ensures var qs := Rescaled(ps, allowed / gross);
            && WeightsUpTo(qs, 1.0) && AtMost(qs, ps, 0.5 * TENTH)
            && GrossOf(qs) == SumWeights(qs)
            && GrossOf(qs) <= allowed + 0.5 * TENTH * (|ps| + 1) as real
            && GrossOf(qs) <= SumWeights(ps) + 0.5 * TENTH * |ps| as real
            && (AllOnGrid(ps) ==> GrossOf(qs) <= SumWeights(ps))
  {
    hide Round10, Times;
    var scale := allowed / gross;
    QuotientScales(allowed, gross);
    RescaledWeights(ps, scale, 1.0);
    RescaledSum(ps, scale, 1.0);
    GridSumOfWeights(Rescaled(ps, scale));
    Round10Fixed(SumWeights(Rescaled(ps, scale)));
    Round10Error(SumWeights(ps));
    SumNonNegative(ps, 1.0);
    TimesShrinks(SumWeights(ps), scale);
    ScaledSlack(SumWeights(ps), gross, scale);
    if AllOnGrid(ps) { RescaledOnGridShrinks(ps, scale, 1.0); }
  }

  /** A rounded sum within half a unit per position of the gross limit, or exactly obeying it. */
  lemma GrossWithinLimit(limits: RiskLimits, ps: seq<TargetPosition>)
    requires |ps| >= 1
    requires SumWeights(ps) <= limits.maxGrossExposure + 0.5 * TENTH * |ps| as real
    requires AllOnGrid(ps) || SumWeights(ps) <= limits.maxGrossExposure
    ensures GrossOf(ps) <= limits.maxGrossExposure + 0.5 * TENTH * |ps| as real
  {
    hide Round10;
    Round10Error(SumWeights(ps));
    if AllOnGrid(ps) {
      GridSumOfWeights(ps);
      Round10Fixed(SumWeights(ps));
    }
  }

  lemma ShortOfCash(limits: RiskLimits, ps: seq<TargetPosition>)
    requires limits.Valid() && CashBeside(GrossOf(ps)) < limits.minCashWeight
    ensures GrossOf(ps) > 0.0 && 1.0 - limits.minCashWeight <= GrossOf(ps)
  {
    hide Round10, CashBeside;
    Round10Error(SumWeights(ps));
    CashBesideExact(GrossOf(ps));
  }

  /** After the cash fit the gross limit still holds, and the minimum cash is met or missed by little. */
  lemma FitCashFits(limits: RiskLimits, ps: seq<TargetPosition>)
    requires limits.Valid() && WeightsUpTo(ps, 1.0) && |ps| >= 1
    requires SumWeights(ps) <= limits.maxGrossExposure + 0.5 * TENTH * |ps| as real
    requires AllOnGrid(ps) || SumWeights(ps) <= limits.maxGrossExposure
    ensures var qs := FitCash(limits, ps);
            && WeightsUpTo(qs, 1.0) && AtMost(qs, ps, 0.5 * TENTH)
            && GrossOf(qs) <= limits.maxGrossExposure + 0.5 * TENTH * |ps| as real
            && (CashBeside(GrossOf(qs)) >= limits.minCashWeight
                || GrossOf(qs) <= 1.0 - limits.minCashWeight + 0.5 * TENTH * (|ps| + 1) as real)
  {
    hide Round10, Times, CashBeside, GrossOf, AllOnGrid, WeightsUpTo, AtMost, SumWeights, Rescaled;
    AtMostItself(ps);
    if CashBeside(GrossOf(ps)) < limits.minCashWeight {
      ShortOfCash(limits, ps);
      RescaledTo(ps, GrossOf(ps), 1.0 - limits.minCashWeight);
    } else {
      GrossWithinLimit(limits, ps);
    }
  }

  lemma AtMostItself(ps: seq<TargetPosition>)
    ensures AtMost(ps, ps, 0.5 * TENTH)
  {
  }

  // ---------- the main results ----------

  /** Whatever the limits, a target that is approved or reduced passes every check. */
  lemma AcceptedTargetsPass(limits: RiskLimits, t: PortfolioTarget)
    requires limits.Valid()
    ensures Assess(limits, t).APPROVED? || Assess(limits, t).REDUCED? ==> WithinLimits(limits, Assess(limits, t).target)
    ensures Assess(limits, t).APPROVED? <==> WithinLimits(limits, t)
  {
    NoIssuesWithinLimits(limits, t);
    NoIssuesWithinLimits(limits, TryReduce(limits, t));
  }

  /** With at most 19 positions, reducing a valid target gives one that passes every check whenever it is a target at
      all: only a rounded sum above 1 is refused.  It is a prefix of the original, with no weight grown by more than
      1e-10. */
  lemma ReductionPassesUnlessOverOne(limits: RiskLimits, t: PortfolioTarget)
    requires limits.Valid() && t.Valid() && limits.maxPositions <= 19
    ensures var r := TryReduce(limits, t);
            && (r.Valid() <==> r.grossExposure <= 1.0)
            && (r.Valid() ==> Issues(limits, r) == [])
            && AtMost(r.positions, Selected(limits, t), TENTH)
  {
    hide Round10, Times, CashBeside, RoundAt, FitCash, FitGross, Capped, SumWeights, Issues, GrossOf;
    FittedWithinLimits(limits, t);
    var r := TryReduce(limits, t);
    Round10Grid(r.positions);
    CashBesideExact(r.grossExposure);
    RoundedSumNonNegative(r.positions);
    WeightsWithinLimit(limits, r.positions);
    NoIssuesWithinLimits(limits, r);
  }

  lemma Round10Grid(ps: seq<TargetPosition>)
    ensures OnGrid(GrossOf(ps), WEIGHT_SCALE)
  {
    Round10Error(SumWeights(ps));
  }

  lemma WeightsWithinLimit(limits: RiskLimits, ps: seq<TargetPosition>)
    requires WeightsUpTo(ps, limits.maxPositionWeight + TENTH)
    ensures forall i | 0 <= i < |ps| :: ps[i].weight <= limits.maxPositionWeight + EPSILON
  {
  }

  /** What capping and the two fits leave, in one place. */
  lemma FittedWithinLimits(limits: RiskLimits, t: PortfolioTarget)
    requires limits.Valid() && t.Valid()
    ensures var n, qs := limits.maxPositions as real, TryReduce(limits, t).positions;
            && WeightsUpTo(qs, 1.0) && WeightsUpTo(qs, limits.maxPositionWeight + TENTH)
            && |qs| <= limits.maxPositions && AtMost(qs, Selected(limits, t), TENTH)
            && GrossOf(qs) <= limits.maxGrossExposure + 0.5 * TENTH * n
            && (CashBeside(GrossOf(qs)) >= limits.minCashWeight
                || GrossOf(qs) <= 1.0 - limits.minCashWeight + 0.5 * TENTH * (n + 1.0))
  {
    hide Round10, Times, CashBeside, RoundAt, FitCash, FitGross, Capped, SumWeights, GrossOf;
    var selected := Selected(limits, t);
    CappedWeights(selected, limits.maxPositionWeight, 1.0);
    var capped := Capped(selected, limits.maxPositionWeight);
    FitGrossFits(limits, capped);
    var fitted := FitGross(limits, capped);
    if |fitted| >= 1 {
      FitCashFits(limits, fitted);
      var qs := FitCash(limits, fitted);
      Chained(qs, fitted, capped, selected, limits.maxPositionWeight);
    } else {
      EmptyFits(limits, fitted);
      assert fitted == [];
    }
  }

  /** Two fits that each add at most half a unit to a weight add at most one together. */
  lemma Chained(qs: seq<TargetPosition>, fitted: seq<TargetPosition>, capped: seq<TargetPosition>,
                selected: seq<TargetPosition>, cap: real)
    requires AtMost(qs, fitted, 0.5 * TENTH) && AtMost(fitted, capped, 0.5 * TENTH) && AtMost(capped, selected, 0.0)
    requires WeightsUpTo(capped, cap) && WeightsUpTo(qs, 1.0)
    ensures AtMost(qs, selected, TENTH) && WeightsUpTo(qs, cap + TENTH)
  {
  }

  lemma RoundedSumNonNegative(ps: seq<TargetPosition>)
    requires WeightsUpTo(ps, 1.0)
    ensures GrossOf(ps) >= 0.0
  {
    hide Round10;
    SumNonNegative(ps, 1.0);
    WholeWeights();
    Round10Fixed(0.0);
    Round10Monotone(0.0, SumWeights(ps));
  }

  lemma EmptyFits(limits: RiskLimits, ps: seq<TargetPosition>)
    requires limits.Valid() && |ps| == 0
    ensures FitCash(limits, ps) == [] && GrossOf(FitCash(limits, ps)) == 0.0
    ensures CashBeside(0.0) == 1.0
  {
    WholeWeights();
    Round10Fixed(0.0);
    CashBesideExact(0.0);
  }
}
