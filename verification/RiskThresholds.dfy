/**
 Where the risk engine's reduction can fail: exactly which position limits admit a rejection, and exactly which
 limits admit a target that its own constructor refuses.
 */
module RiskThresholds {
  import opened Options
  import opened PositionTable
  import opened Repeats
  import opened RiskEngine
  import opened Rounding
  import opened Targets

  // ---------- what rounding can gain ----------

  /** A weight of 1 in units of the tenth decimal, and one unit more. */
  const OVER := 10000000001

  /** Rounding n weights can gain half a unit for each, but no more than doubles a sum. */
  function Room(n: nat): int {
    if n < OVER then n else OVER
  }

  /** The largest gross limit from which rounding n weights cannot reach a unit above 1. */
  function SafeGross(n: nat): real {
    1.0 + TENTH - 0.5 * TENTH * Room(n) as real
  }

  function Units(ps: seq<TargetPosition>, scale: real): int {
    if |ps| == 0 then 0
    else Units(ps[..|ps| - 1], scale) + Unit(ps[|ps| - 1].weight, scale)
  }

  /** The exact sum before rounding, in units. */
  function Exact(ps: seq<TargetPosition>, scale: real): real {
    Times(SumWeights(ps), scale) * WEIGHT_SCALE
  }

  /** One weight, rounded, in units. */
  function Unit(w: real, scale: real): int {
    HalfEven(Times(w, scale) * WEIGHT_SCALE)
  }

  lemma UnitIsRounded(w: real, scale: real)
    ensures Round10(Times(w, scale)) == Tick(Unit(w, scale), WEIGHT_SCALE)
  {
    hide HalfEven, Times;
  }

  lemma TicksAdd(a: int, b: int)
    ensures Tick(a, WEIGHT_SCALE) + Tick(b, WEIGHT_SCALE) == Tick(a + b, WEIGHT_SCALE)
    ensures Tick(0, WEIGHT_SCALE) == 0.0
  {
  }

  lemma UnitsAppend(ps: seq<TargetPosition>, scale: real)
    ensures |ps| == 0 ==> Units(ps, scale) == 0 && SumWeights(Rescaled(ps, scale)) == 0.0
    ensures |ps| > 0 ==>
              var init, p := ps[..|ps| - 1], ps[|ps| - 1];
              && Units(ps, scale) == Units(init, scale) + Unit(p.weight, scale)
              && SumWeights(Rescaled(ps, scale)) == SumWeights(Rescaled(init, scale)) + Round10(Times(p.weight, scale))
  {
    hide HalfEven, Times, Round10;
    if |ps| > 0 {
      var init, p := ps[..|ps| - 1], ps[|ps| - 1];
      SumWeightsAppend(Rescaled(init, scale), Rebuilt(p, Round10(Times(p.weight, scale))));
    }
  }

  lemma {:induction false} RescaledUnits(ps: seq<TargetPosition>, scale: real)
    ensures SumWeights(Rescaled(ps, scale)) == Tick(Units(ps, scale), WEIGHT_SCALE)
  {
    hide *;
    UnitsAppend(ps, scale);
    TicksAdd(0, 0);
    if |ps| > 0 {
      var init, p := ps[..|ps| - 1], ps[|ps| - 1];
      RescaledUnits(init, scale);
      UnitIsRounded(p.weight, scale);
      TicksAdd(Units(init, scale), Unit(p.weight, scale));
    }
  }

  lemma ExactAppend(ps: seq<TargetPosition>, scale: real)
    requires |ps| > 0
    ensures Exact(ps, scale) == Exact(ps[..|ps| - 1], scale) + Times(ps[|ps| - 1].weight, scale) * WEIGHT_SCALE
  {
    TimesDistributes(SumWeights(ps[..|ps| - 1]), ps[|ps| - 1].weight, scale);
  }

  lemma NothingExact(scale: real)
    ensures Exact([], scale) == 0.0
  {
  }

  lemma UnitGain(w: real, scale: real)
    ensures var gain := Unit(w, scale) as real - Times(w, scale) * WEIGHT_SCALE;
            gain <= 0.5 && (gain == 0.5 ==> Unit(w, scale) % 2 == 0)
  {
    hide Times;
  }

  lemma UnitBelowDouble(w: real, scale: real)
    requires 0.0 <= w <= 1.0 && 0.0 <= scale <= 1.0
    ensures var exact := Times(w, scale) * WEIGHT_SCALE;
            exact >= 0.0 && (Unit(w, scale) == 0 || 0.0 < Unit(w, scale) as real < 2.0 * exact)
  {
    TimesShrinks(w, scale);
    hide Times, HalfEven;
    HalfEvenBelowDouble(Times(w, scale) * WEIGHT_SCALE);
  }

  lemma LastWeight(ps: seq<TargetPosition>)
    requires WeightsUpTo(ps, 1.0) && |ps| > 0
    ensures WeightsUpTo(ps[..|ps| - 1], 1.0) && 0.0 <= ps[|ps| - 1].weight <= 1.0
  {
  }

  lemma EvenSum(a: int, b: int)
    requires a % 2 == 0 && b % 2 == 0
    ensures (a + b) % 2 == 0
  {
  }

  /** Rounding half to even gains at most half a unit per weight; if it gains that much on every one, each was
      rounded to an even number of units, and so is their sum. */
  lemma {:induction false} GainIsHalfEach(ps: seq<TargetPosition>, scale: real)
    ensures var gain := Units(ps, scale) as real - Exact(ps, scale);
            gain <= 0.5 * |ps| as real && (gain == 0.5 * |ps| as real ==> Units(ps, scale) % 2 == 0)
  {
    hide *;
    UnitsAppend(ps, scale);
    if |ps| == 0 {
      assert ps == [];
      NothingExact(scale);
    } else {
      var init, w := ps[..|ps| - 1], ps[|ps| - 1].weight;
      GainIsHalfEach(init, scale);
      ExactAppend(ps, scale);
      UnitGain(w, scale);
      if Units(init, scale) % 2 == 0 && Unit(w, scale) % 2 == 0 { EvenSum(Units(init, scale), Unit(w, scale)); }
    }
  }

  /** And what it rounds up to anything at all it less than doubles. */
  lemma {:induction false} GainIsBelowDouble(ps: seq<TargetPosition>, scale: real)
    requires WeightsUpTo(ps, 1.0) && 0.0 <= scale <= 1.0
    ensures var units, exact := Units(ps, scale), Exact(ps, scale);
            exact >= 0.0 && (units == 0 || 0.0 < units as real < 2.0 * exact)
  {
    hide *;
    UnitsAppend(ps, scale);
    if |ps| == 0 {
      assert ps == [];
      NothingExact(scale);
    } else {
      LastWeight(ps);
      GainIsBelowDouble(ps[..|ps| - 1], scale);
      ExactAppend(ps, scale);
      UnitBelowDouble(ps[|ps| - 1].weight, scale);
    }
  }

  lemma HalfEvenBelowDouble(x: real)
    requires x >= 0.0
    ensures HalfEven(x) == 0 || 0.0 < HalfEven(x) as real < 2.0 * x
  {
  }

  lemma UnitsStayWithinOne(ps: seq<TargetPosition>, scale: real, n: nat)
    requires WeightsUpTo(ps, 1.0) && 0.0 <= scale <= 1.0 && |ps| <= n
    requires Exact(ps, scale) <= OVER as real - 0.5 * Room(n) as real
    ensures Units(ps, scale) < OVER
  {
    hide Exact, WeightsUpTo;
    GainIsHalfEach(ps, scale);
    GainIsBelowDouble(ps, scale);
  }

  /** Weights whose exact sum is at most the safe gross limit do not round to a sum above 1. */
  lemma RescaledStaysWithinOne(ps: seq<TargetPosition>, scale: real, n: nat)
    requires WeightsUpTo(ps, 1.0) && 0.0 <= scale <= 1.0 && |ps| <= n
    requires Times(SumWeights(ps), scale) <= SafeGross(n)
    ensures SumWeights(Rescaled(ps, scale)) <= 1.0
  {
    hide Times, WeightsUpTo, Units, SumWeights;
    UnitsStayWithinOne(ps, scale, n);
    RescaledUnits(ps, scale);
    DivMonotone(Units(ps, scale) as real, 10000000000.0, WEIGHT_SCALE);
  }

  // ---------- safe limits ----------

  lemma RoundedWithinOne(ps: seq<TargetPosition>)
    requires SumWeights(ps) <= 1.0
    ensures GrossOf(ps) <= 1.0
  {
    hide Round10;
    WholeWeights();
    Round10Fixed(1.0);
    Round10Monotone(SumWeights(ps), 1.0);
  }

  lemma FitGrossWithinOne(limits: RiskLimits, ps: seq<TargetPosition>)
    requires limits.Valid() && WeightsUpTo(ps, 1.0) && |ps| <= limits.maxPositions
    requires limits.maxGrossExposure <= SafeGross(limits.maxPositions)
    ensures var qs := FitGross(limits, ps);
            WeightsUpTo(qs, 1.0) && |qs| == |ps| && SumWeights(qs) <= 1.0
            && (AllOnGrid(qs) || SumWeights(qs) <= limits.maxGrossExposure)
  {
    hide Times, SumWeights, WeightsUpTo, Rescaled, AllOnGrid, Room;
    FitGrossFits(limits, ps);
    var gross := SumWeights(ps);
    if gross > limits.maxGrossExposure {
      QuotientScales(limits.maxGrossExposure, gross);
      RescaledStaysWithinOne(ps, limits.maxGrossExposure / gross, limits.maxPositions);
    }
  }

  lemma FitCashWithinOne(limits: RiskLimits, ps: seq<TargetPosition>)
    requires limits.Valid() && WeightsUpTo(ps, 1.0) && |ps| <= limits.maxPositions && SumWeights(ps) <= 1.0
    requires limits.maxGrossExposure <= SafeGross(limits.maxPositions)
    requires AllOnGrid(ps) || SumWeights(ps) <= limits.maxGrossExposure
    ensures GrossOf(FitCash(limits, ps)) <= 1.0
  {
    hide Times, SumWeights, WeightsUpTo, Rescaled, AllOnGrid, GrossOf, CashBeside, SafeGross;
    if CashBeside(GrossOf(ps)) < limits.minCashWeight {
      ShortOfCash(limits, ps);
      var scale := (1.0 - limits.minCashWeight) / GrossOf(ps);
      QuotientScales(1.0 - limits.minCashWeight, GrossOf(ps));
      if AllOnGrid(ps) {
        RescaledOnGridShrinks(ps, scale, 1.0);
      } else {
        SumNonNegative(ps, 1.0);
        TimesShrinks(SumWeights(ps), scale);
        RescaledStaysWithinOne(ps, scale, limits.maxPositions);
      }
      RoundedWithinOne(Rescaled(ps, scale));
    } else {
      RoundedWithinOne(ps);
    }
  }

  lemma CappedCount(ps: seq<TargetPosition>, cap: real)
    requires WeightsUpTo(ps, 1.0) && 0.0 <= cap <= 1.0
    ensures WeightsUpTo(Capped(ps, cap), 1.0) && |Capped(ps, cap)| == |ps|
  {
    CappedWeights(ps, cap, 1.0);
  }

  /** Up to the safe gross limit, the reduced weights never sum to more than 1. */
  lemma ReductionStaysWithinOne(limits: RiskLimits, t: PortfolioTarget)
    requires limits.Valid() && t.Valid() && limits.maxGrossExposure <= SafeGross(limits.maxPositions)
    ensures TryReduce(limits, t).grossExposure <= 1.0
  {
    hide SafeGross, WeightsUpTo, AllOnGrid, FitGross, FitCash, GrossOf, CashBeside, Capped, SumWeights;
    SelectedWithinOne(limits, t);
    CappedCount(Selected(limits, t), limits.maxPositionWeight);
    var capped := Capped(Selected(limits, t), limits.maxPositionWeight);
    FitGrossWithinOne(limits, capped);
    FitCashWithinOne(limits, FitGross(limits, capped));
  }

  lemma SelectedWithinOne(limits: RiskLimits, t: PortfolioTarget)
    requires t.Valid()
    ensures WeightsUpTo(Selected(limits, t), 1.0) && |Selected(limits, t)| <= limits.maxPositions
  {
  }

  lemma ReducedIsValidWithinOne(limits: RiskLimits, t: PortfolioTarget)
    requires limits.Valid() && t.Valid()
    ensures TryReduce(limits, t).Valid() <==> TryReduce(limits, t).grossExposure <= 1.0
  {
    hide Round10, GrossOf, CashBeside, FitCash, FitGross, Capped;
    FittedWithinLimits(limits, t);
    var r := TryReduce(limits, t);
    Round10Grid(r.positions);
    CashBesideExact(r.grossExposure);
    RoundedSumNonNegative(r.positions);
  }

  /** With at most 19 positions and a safe gross limit, reduction always succeeds: every valid target is approved or
      reduced.  The reduced target is a prefix of the original, with no weight grown by more than 1e-10. */
  lemma ReductionAlwaysSucceeds(limits: RiskLimits, t: PortfolioTarget)
    requires limits.Valid() && t.Valid()
    requires limits.maxPositions <= 19 && limits.maxGrossExposure <= SafeGross(limits.maxPositions)
    ensures Assess(limits, t).APPROVED? || Assess(limits, t).REDUCED?
    ensures Assess(limits, t).REDUCED? ==> AtMost(Assess(limits, t).target.positions, Selected(limits, t), TENTH)
  {
    hide TryReduce, Issues, SafeGross, AtMost, Selected;
    ReductionStaysWithinOne(limits, t);
    ReductionPassesUnlessOverOne(limits, t);
  }

  /** All limits the program ships are of that kind: the default, the three profiles and the API's. */
  lemma ShippedLimitsNeverReject(limits: RiskLimits, t: PortfolioTarget)
    requires t.Valid()
    requires limits in {RiskLimits(10, 0.50, 0.10, 0.50), RiskLimits(5, 0.60, 0.15, 0.40),
                        RiskLimits(10, 0.85, 0.12, 0.15), RiskLimits(3, 0.95, 0.40, 0.05),
                        RiskLimits(3, 0.90, 0.35, 0.10)}
    ensures limits.Valid()
    ensures !Assess(limits, t).REJECTED? && !Assess(limits, t).INVALID_TARGET?
  {
    ReductionAlwaysSucceeds(limits, t);
  }

  // ---------- rejection ----------

  lemma OneMore(ps: seq<TargetPosition>, p: TargetPosition, cap: real, scale: real)
    requires p.weight <= cap
    ensures SumWeights(ps + [p]) == SumWeights(ps) + p.weight
    ensures Capped(ps + [p], cap) == Capped(ps, cap) + [Rebuilt(p, p.weight)]
    ensures Rescaled(ps + [p], scale) == Rescaled(ps, scale) + [Rebuilt(p, Round10(Times(p.weight, scale)))]
  {
    hide Round10, Times;
    assert (ps + [p])[..|ps|] == ps;
  }

  lemma {:induction false} CopiesWeigh(p: TargetPosition, n: nat)
    ensures |Repeat(p, n)| == n && forall i | 0 <= i < n :: Repeat(p, n)[i] == p
    ensures SumWeights(Repeat(p, n)) == Times(n as real, p.weight)
  {
    hide Times;
    if n == 0 {
      TimesNothing(p.weight);
    } else {
      CopiesWeigh(p, n - 1);
      hide SumWeights;
      SumWeightsAppend(Repeat(p, n - 1), p);
      OneMoreTime(n, p.weight);
    }
  }

  lemma NothingChanged(cap: real, scale: real)
    ensures Capped([], cap) == [] && Rescaled([], scale) == []
  {
  }

  lemma {:induction false} CopiesChange(p: TargetPosition, n: nat, cap: real, scale: real)
    requires p.weight <= cap
    ensures Capped(Repeat(p, n), cap) == Repeat(Rebuilt(p, p.weight), n)
    ensures Rescaled(Repeat(p, n), scale) == Repeat(Rebuilt(p, Round10(Times(p.weight, scale))), n)
  {
    hide *;
    RepeatStep(p, n);
    RepeatStep(Rebuilt(p, p.weight), n);
    RepeatStep(Rebuilt(p, Round10(Times(p.weight, scale))), n);
    if n == 0 {
      NothingChanged(cap, scale);
    } else {
      CopiesChange(p, n - 1, cap, scale);
      OneMore(Repeat(p, n - 1), p, cap, scale);
    }
  }

  lemma AboutCopies(p: TargetPosition, n: nat, cap: real, scale: real)
    requires p.weight <= cap
    ensures |Repeat(p, n)| == n && forall i | 0 <= i < n :: Repeat(p, n)[i] == p
    ensures SumWeights(Repeat(p, n)) == Times(n as real, p.weight)
    ensures Capped(Repeat(p, n), cap) == Repeat(Rebuilt(p, p.weight), n)
    ensures Rescaled(Repeat(p, n), scale) == Repeat(Rebuilt(p, Round10(Times(p.weight, scale))), n)
  {
    hide *;
    CopiesWeigh(p, n);
    CopiesChange(p, n, cap, scale);
  }

  lemma RoundsTo(x: real, n: int)
    requires var d := x * WEIGHT_SCALE - n as real; -0.5 < d < 0.5 || (d == 0.5 && n % 2 == 0) || (d == -0.5 && n % 2 == 0)
    ensures Round10(x) == n as real / 10000000000.0
  {
    HalfEvenNearest(x * WEIGHT_SCALE, n);
  }

  // Twenty positions of 1.57e-10 sum to 31.4e-10, which is rounded to 31e-10 before it is divided by.
  const SLIVER := TargetPosition("S", LONG, 0.000000000157, 1.0, 1.0, None, None)
  const TIGHT_CASH := 0.99999999702

  const SLIVER_SCALE := (1.0 - TIGHT_CASH) / 0.0000000031

  lemma SliverSums()
    ensures Times(20 as real, SLIVER.weight) == 0.00000000314
    ensures Times(20 as real, 0.0000000002) == 0.000000004
    ensures Round10(0.00000000314) == 0.0000000031
    ensures Round10(Times(SLIVER.weight, SLIVER_SCALE)) == 0.0000000002
  {
    RoundsTo(0.00000000314, 31);
    RoundsTo(Times(SLIVER.weight, SLIVER_SCALE), 2);
  }

  lemma SliverCash()
    ensures Round10(0.000000004) == 0.000000004
    ensures Round10(1.0 - 0.0000000031) == 0.9999999969
    ensures Round10(1.0 - 0.000000004) == 0.999999996
  {
    RoundsTo(0.000000004, 40);
    RoundsTo(1.0 - 0.0000000031, 9999999969);
    RoundsTo(1.0 - 0.000000004, 9999999960);
  }

  lemma SliversOvershoot(limits: RiskLimits)
    requires limits == RiskLimits(limits.maxPositions, 0.5, 1.0, TIGHT_CASH) && limits.maxPositions >= 20
    ensures var ps := FitCash(limits, Repeat(SLIVER, 20));
            |ps| == 20 && GrossOf(ps) == 0.000000004 && CashBeside(0.000000004) == 0.999999996
  {
    hide Round10, Times, Repeat, Rescaled, SumWeights;
    AboutCopies(SLIVER, 20, 1.0, SLIVER_SCALE);
    AboutCopies(Rebuilt(SLIVER, 0.0000000002), 20, 1.0, SLIVER_SCALE);
    SliverSums();
    SliverCash();
  }

  /** Twenty positions are enough to be rejected, however many more are allowed. */
  lemma TwentyPositionsCanBeRejected(maxPositions: nat)
    requires maxPositions >= 20
    ensures exists limits: RiskLimits, t: PortfolioTarget ::
      limits.Valid() && t.Valid() && limits.maxPositions == maxPositions && limits.maxGrossExposure == 0.5
      && Assess(limits, t).REJECTED?
  {
    hide Round10, CashBeside, Times, Repeat, Capped, SumWeights, WeightIssues;
    var limits := RiskLimits(maxPositions, 0.5, 1.0, TIGHT_CASH);
    var ps := Repeat(SLIVER, 20);
    var t := PortfolioTarget("X", ps, 0.5, 0.5, map[]);
    AboutCopies(SLIVER, 20, 1.0, 1.0);
    SliverSums();
    assert Rebuilt(SLIVER, SLIVER.weight) == SLIVER;
    assert FitGross(limits, Capped(Selected(limits, t), 1.0)) == ps;
    SliversOvershoot(limits);
    var r := TryReduce(limits, t);
    assert r.grossExposure == 0.000000004 && r.cashWeight == 0.999999996;
    SliversStayValid(limits);
    NoIssuesWithinLimits(limits, t);
    NoIssuesWithinLimits(limits, r);
    assert Assess(limits, t).REJECTED?;
  }

  lemma SliversStayValid(limits: RiskLimits)
    requires limits == RiskLimits(limits.maxPositions, 0.5, 1.0, TIGHT_CASH) && limits.maxPositions >= 20
    ensures WeightsUpTo(FitCash(limits, Repeat(SLIVER, 20)), 1.0)
  {
    hide Round10, Times, GrossOf, Repeat, SumWeights;
    AboutCopies(SLIVER, 20, 1.0, 1.0);
    SliverSums();
    FitCashFits(limits, Repeat(SLIVER, 20));
  }

  /** Rejection is impossible for exactly the position limits up to 19, whatever the other limits and the target. */
  lemma RejectionThreshold(maxPositions: nat)
    requires maxPositions >= 1
    ensures maxPositions <= 19 <==>
            forall limits: RiskLimits, t: PortfolioTarget |
              limits.Valid() && t.Valid() && limits.maxPositions == maxPositions :: !Assess(limits, t).REJECTED?
  {
    hide TryReduce, Issues, AtMost, Selected;
    if maxPositions <= 19 {
      forall limits: RiskLimits, t: PortfolioTarget |
        limits.Valid() && t.Valid() && limits.maxPositions == maxPositions
        ensures !Assess(limits, t).REJECTED?
      {
        ReductionPassesUnlessOverOne(limits, t);
      }
    } else {
      TwentyPositionsCanBeRejected(maxPositions);
    }
  }

  // ---------- refused targets ----------

  lemma AppendLaws(ps: seq<TargetPosition>, p: TargetPosition, cap: real, scale: real)
    ensures SumWeights(ps + [p]) == SumWeights(ps) + p.weight
    ensures Capped(ps + [p], cap) == Capped(ps, cap) + [Rebuilt(p, if cap < p.weight then cap else p.weight)]
    ensures Rescaled(ps + [p], scale) == Rescaled(ps, scale) + [Rebuilt(p, Round10(Times(p.weight, scale)))]
  {
    hide Round10, Times;
    assert (ps + [p])[..|ps|] == ps;
  }

  lemma ConcatNothing(a: seq<TargetPosition>, b: seq<TargetPosition>, cap: real, scale: real)
    requires |b| == 0
    ensures SumWeights(a + b) == SumWeights(a) + SumWeights(b)
    ensures Capped(a + b, cap) == Capped(a, cap) + Capped(b, cap)
    ensures Rescaled(a + b, scale) == Rescaled(a, scale) + Rescaled(b, scale)
  {
    assert a + b == a;
  }

  lemma {:induction false} ConcatLaws(a: seq<TargetPosition>, b: seq<TargetPosition>, cap: real, scale: real)
    ensures SumWeights(a + b) == SumWeights(a) + SumWeights(b)
    ensures Capped(a + b, cap) == Capped(a, cap) + Capped(b, cap)
    ensures Rescaled(a + b, scale) == Rescaled(a, scale) + Rescaled(b, scale)
  {
    hide *;
    if |b| == 0 {
      ConcatNothing(a, b, cap, scale);
    } else {
      var init, last := b[..|b| - 1], b[|b| - 1];
      ConcatLaws(a, init, cap, scale);
      AppendLaws(a + init, last, cap, scale);
      AppendLaws(init, last, cap, scale);
      Regroup(a, init, last);
      assert init + [last] == b;
      Regroup(Capped(a, cap), Capped(init, cap), Rebuilt(last, if cap < last.weight then cap else last.weight));
      Regroup(Rescaled(a, scale), Rescaled(init, scale), Rebuilt(last, Round10(Times(last.weight, scale))));
    }
  }

  lemma Regroup<T>(a: seq<T>, b: seq<T>, x: T)
    ensures a + (b + [x]) == (a + b) + [x]
  {
  }

  function Plain(weight: real): TargetPosition {
    TargetPosition("S", LONG, weight, 1.0, 1.0, None, None)
  }

  /** m - 1 positions of one weight, one that takes the whole account, and k of none. */
  function Fan(m: nat, weight: real, k: nat): seq<TargetPosition>
    requires m >= 1
  {
    Repeat(Plain(weight), m - 1) + [Plain(1.0)] + Repeat(Plain(0.0), k)
  }

  lemma {:induction false} CopiesSplit(p: TargetPosition, n: nat, k: nat)
    requires k <= n
    ensures |Repeat(p, n)| == n && Repeat(p, n)[..k] == Repeat(p, k)
  {
    if k < n {
      CopiesSplit(p, n - 1, k);
      assert Repeat(p, n)[..k] == Repeat(p, n - 1)[..k];
    } else {
      CopiesWeigh(p, n);
      assert Repeat(p, n)[..k] == Repeat(p, n);
    }
  }

  lemma FanLaws(m: nat, weight: real, k: nat, scale: real)
    requires m >= 1 && 0.0 <= weight <= 1.0
    ensures |Fan(m, weight, k)| == m + k
    ensures SumWeights(Fan(m, weight, k)) == Times((m - 1) as real, weight) + 1.0
    ensures Capped(Fan(m, weight, k), 1.0) == Fan(m, weight, k)
    ensures SumWeights(Rescaled(Fan(m, weight, k), scale))
            == Times((m - 1) as real, Round10(Times(weight, scale))) + Round10(Times(1.0, scale))
               + Times(k as real, Round10(Times(0.0, scale)))
  {
    var small, zero := Plain(weight), Plain(0.0);
    var head, rest := Repeat(small, m - 1) + [Plain(1.0)], Repeat(zero, k);
    hide Round10, Times, Repeat, SumWeights, Capped, Rescaled;
    ConcatLaws(head, rest, 1.0, scale);
    OneMore(Repeat(small, m - 1), Plain(1.0), 1.0, scale);
    AboutCopies(small, m - 1, 1.0, scale);
    AboutCopies(zero, k, 1.0, scale);
    TimesNothing(k as real);
    var p, q := Rebuilt(small, Round10(Times(weight, scale))), Rebuilt(zero, Round10(Times(0.0, scale)));
    var r := Rebuilt(Plain(1.0), Round10(Times(1.0, scale)));
    ConcatLaws(Repeat(p, m - 1) + [r], Repeat(q, k), 1.0, scale);
    SumWeightsAppend(Repeat(p, m - 1), r);
    CopiesWeigh(p, m - 1);
    CopiesWeigh(q, k);
  }

  /** The shares of the failing target: every one but the last comes to `small`, the last to `last`; both round up. */
  lemma FanShares(m: nat, gross: real) returns (small: real, last: real)
    requires 3 <= m <= OVER && 1.0 + TENTH - 0.5 * TENTH * m as real < gross <= 1.0
    ensures 0.0 < small <= last < 1.0
    ensures Times((m - 1) as real, small) + last == gross
    ensures Round10(small) == TENTH && Round10(last) == (OVER - m + 1) as real * TENTH
  {
    var theta := (OVER as real - gross * WEIGHT_SCALE) / m as real;
    ThetaIsSmall(m, gross, theta);
    small := (1.0 - theta) * TENTH;
    last := ((OVER - m + 1) as real - theta) * TENTH;
    RoundsTo(small, 1);
    RoundsTo(last, OVER - m + 1);
    SharesAddUp(m, gross, theta);
  }

  lemma ThetaIsSmall(m: nat, gross: real, theta: real)
    requires 3 <= m <= OVER && 1.0 + TENTH - 0.5 * TENTH * m as real < gross <= 1.0
    requires theta == (OVER as real - gross * WEIGHT_SCALE) / m as real
    ensures 0.0 < theta < 0.5 && Times(m as real, theta) == OVER as real - gross * WEIGHT_SCALE
  {
    var rest := OVER as real - gross * WEIGHT_SCALE;
    assert theta * m as real == rest;
    assert rest > 0.0 && rest < 0.5 * m as real;
    assert theta <= 0.0 ==> theta * m as real <= 0.0;
    assert theta >= 0.5 ==> theta * m as real >= 0.5 * m as real;
  }

  lemma SharesAddUp(m: nat, gross: real, theta: real)
    requires m >= 1 && Times(m as real, theta) == OVER as real - gross * WEIGHT_SCALE
    ensures Times((m - 1) as real, (1.0 - theta) * TENTH) + ((OVER - m + 1) as real - theta) * TENTH == gross
  {
    OneMoreTime(m, theta);
    assert Times((m - 1) as real, (1.0 - theta) * TENTH) == ((m - 1) as real - Times((m - 1) as real, theta)) * TENTH;
  }

  lemma UnsafeRoom(n: nat, gross: real)
    requires n >= 1 && SafeGross(n) < gross <= 1.0
    ensures 3 <= Room(n) <= n && Room(n) <= OVER && 1.0 + TENTH - 0.5 * TENTH * Room(n) as real < gross
  {
  }

  /** A valid target of one position too many, whose reduction sums to more than 1, is refused. */
  lemma OverOneIsRefused(limits: RiskLimits, t: PortfolioTarget)
    requires limits.Valid() && |t.positions| > limits.maxPositions && TryReduce(limits, t).grossExposure > 1.0
    ensures Assess(limits, t).INVALID_TARGET?
  {
    hide TryReduce, WeightIssues;
  }

  lemma TargetIsValid(ps: seq<TargetPosition>)
    requires WeightsUpTo(ps, 1.0)
    ensures PortfolioTarget("X", ps, 0.0, 1.0, map[]).Valid()
  {
  }

  lemma ReducesFirst(limits: RiskLimits, t: PortfolioTarget, first: seq<TargetPosition>)
    requires limits.Valid() && limits.maxPositions < |t.positions| && t.positions[..limits.maxPositions] == first
    requires Capped(first, limits.maxPositionWeight) == first
    ensures TryReduce(limits, t).grossExposure == GrossOf(FitCash(limits, FitGross(limits, first)))
  {
    hide FitCash, FitGross, GrossOf, CashBeside, Capped;
  }

  lemma FanTarget(limits: RiskLimits, m: nat, weight: real)
    requires limits.Valid() && 1 <= m <= limits.maxPositions && 0.0 <= weight <= 1.0 && limits.maxPositionWeight == 1.0
    ensures var t := PortfolioTarget("X", Fan(m, weight, limits.maxPositions - m + 1), 0.0, 1.0, map[]);
            && t.Valid() && |t.positions| > limits.maxPositions
            && TryReduce(limits, t).grossExposure
               == GrossOf(FitCash(limits, FitGross(limits, Fan(m, weight, limits.maxPositions - m))))
  {
    hide *;
    var n := limits.maxPositions;
    var ps, first := Fan(m, weight, n - m + 1), Fan(m, weight, n - m);
    FanIsValid(m, weight, n - m + 1);
    TargetIsValid(ps);
    FanSelected(m, weight, n);
    FanLaws(m, weight, n - m, 1.0);
    ReducesFirst(limits, PortfolioTarget("X", ps, 0.0, 1.0, map[]), first);
  }

  lemma SafeGrossPositive(n: nat)
    ensures SafeGross(n) > 0.0
  {
  }

  lemma UnsafeLimits(n: nat, gross: real)
    requires n >= 1 && SafeGross(n) < gross <= 1.0
    ensures RiskLimits(n, gross, 1.0, 0.0).Valid()
  {
    SafeGrossPositive(n);
  }

  /** Above the safe gross limit, some target fails: its rounded weights sum to one unit above 1. */
  lemma UnsafeGrossCanFail(n: nat, gross: real) returns (limits: RiskLimits, t: PortfolioTarget)
    requires n >= 1 && SafeGross(n) < gross <= 1.0
    ensures limits.Valid() && t.Valid() && limits.maxPositions == n && limits.maxGrossExposure == gross
    ensures Assess(limits, t).INVALID_TARGET?
  {
    hide *;
    UnsafeRoom(n, gross);
    UnsafeLimits(n, gross);
    limits := RiskLimits(n, gross, 1.0, 0.0);
    t := FanFails(limits, Room(n));
  }

  lemma FanFails(limits: RiskLimits, m: nat) returns (t: PortfolioTarget)
    requires limits.Valid() && limits.maxPositionWeight == 1.0 && limits.minCashWeight == 0.0
    requires 3 <= m <= limits.maxPositions && m <= OVER
    requires 1.0 + TENTH - 0.5 * TENTH * m as real < limits.maxGrossExposure <= 1.0
    ensures t.Valid() && Assess(limits, t).INVALID_TARGET?
  {
    hide *;
    var n := limits.maxPositions;
    var small, last := FanShares(m, limits.maxGrossExposure);
    WeightIsShare(small, last);
    FanTarget(limits, m, small / last);
    t := PortfolioTarget("X", Fan(m, small / last, n - m + 1), 0.0, 1.0, map[]);
    FanReduces(limits, m, small, last, n - m);
    OverOneIsRefused(limits, t);
  }

  lemma WeightIsShare(small: real, last: real)
    requires 0.0 < small <= last
    ensures 0.0 < small / last <= 1.0 && Times(small / last, last) == small
  {
  }

  lemma FanIsValid(m: nat, weight: real, k: nat)
    requires m >= 1 && 0.0 <= weight <= 1.0
    ensures WeightsUpTo(Fan(m, weight, k), 1.0) && |Fan(m, weight, k)| == m + k
  {
    CopiesWeigh(Plain(weight), m - 1);
    CopiesWeigh(Plain(0.0), k);
  }

  lemma FanSelected(m: nat, weight: real, n: nat)
    requires 1 <= m <= n
    ensures |Fan(m, weight, n - m + 1)| == n + 1 && Fan(m, weight, n - m + 1)[..n] == Fan(m, weight, n - m)
  {
    CopiesWeigh(Plain(weight), m - 1);
    CopiesSplit(Plain(0.0), n - m + 1, n - m);
  }

  lemma FitGrossScales(limits: RiskLimits, ps: seq<TargetPosition>)
    requires limits.Valid() && SumWeights(ps) > limits.maxGrossExposure
    ensures FitGross(limits, ps) == Rescaled(ps, limits.maxGrossExposure / SumWeights(ps))
  {
  }

  lemma FitCashKeeps(limits: RiskLimits, ps: seq<TargetPosition>)
    requires limits.minCashWeight == CashBeside(GrossOf(ps))
    ensures FitCash(limits, ps) == ps
  {
    hide CashBeside, GrossOf;
  }

  lemma FanReduces(limits: RiskLimits, m: nat, small: real, last: real, k: nat)
    requires limits.Valid() && limits.minCashWeight == 0.0 && m >= 1
    requires 0.0 < small <= last < 1.0 && limits.maxGrossExposure == Times((m - 1) as real, small) + last
    requires Round10(small) == TENTH && Round10(last) == (OVER - m + 1) as real * TENTH
    ensures GrossOf(FitCash(limits, FitGross(limits, Fan(m, small / last, k)))) == 1.0 + TENTH
  {
    hide *;
    var weight := small / last;
    var ps := Fan(m, weight, k);
    WeightIsShare(small, last);
    FanLaws(m, weight, k, last);
    FanScale(limits.maxGrossExposure, m, small, last, weight);
    FitGrossScales(limits, ps);
    FanTotal(m, small, last, k);
    GrossOver(Rescaled(ps, last));
    CashGone();
    FitCashKeeps(limits, Rescaled(ps, last));
  }

  lemma FanScale(gross: real, m: nat, small: real, last: real, weight: real)
    requires m >= 1 && 0.0 < small <= last < 1.0 && weight >= 0.0 && Times(weight, last) == small
    requires gross == Times((m - 1) as real, small) + last
    ensures var sum := Times((m - 1) as real, weight) + 1.0;
            sum > gross && gross / sum == last
  {
    hide Times;
    var sum := Times((m - 1) as real, weight) + 1.0;
    TimesNonNegative((m - 1) as real, weight);
    TimesDistributes(Times((m - 1) as real, weight), 1.0, last);
    TimesAssociate((m - 1) as real, weight, last);
    TimesOne(last);
    TimesShrinks(sum, last);
    QuotientIs(last, sum, gross);
  }

  lemma FanTotal(m: nat, small: real, last: real, k: nat)
    requires m >= 1 && Round10(small) == TENTH && Round10(last) == (OVER - m + 1) as real * TENTH
    ensures Times((m - 1) as real, Round10(small)) + Round10(last) + Times(k as real, Round10(0.0)) == 1.0 + TENTH
    ensures Times(1.0, last) == last && Times(0.0, last) == 0.0
  {
    hide Round10;
    WholeWeights();
    Round10Fixed(0.0);
    TimesNothing(k as real);
  }

  lemma GrossOver(ps: seq<TargetPosition>)
    requires SumWeights(ps) == 1.0 + TENTH
    ensures GrossOf(ps) == 1.0 + TENTH
  {
    RoundsTo(1.0 + TENTH, OVER);
  }

  lemma CashGone()
    ensures CashBeside(1.0 + TENTH) == 0.0
  {
    hide Round10;
    WholeWeights();
    Round10Fixed(0.0);
  }

  /** A valid target can be reduced to one that is refused if and only if the gross limit is above the safe one for
      the position limit: 1 - 0.5e-10 for three positions, 1 - 4e-10 for ten. */
  lemma RefusalThreshold(n: nat, gross: real)
    requires n >= 1 && 0.0 <= gross <= 1.0
    ensures gross <= SafeGross(n) <==>
            forall limits: RiskLimits, t: PortfolioTarget |
              limits.Valid() && t.Valid() && limits.maxPositions == n && limits.maxGrossExposure == gross ::
              !Assess(limits, t).INVALID_TARGET?
  {
    hide TryReduce, Issues, SafeGross;
    if gross <= SafeGross(n) {
      forall limits: RiskLimits, t: PortfolioTarget |
        limits.Valid() && t.Valid() && limits.maxPositions == n && limits.maxGrossExposure == gross
        ensures !Assess(limits, t).INVALID_TARGET?
      {
        ReductionStaysWithinOne(limits, t);
        ReducedIsValidWithinOne(limits, t);
      }
    } else {
      var limits, t := UnsafeGrossCanFail(n, gross);
    }
  }
}
