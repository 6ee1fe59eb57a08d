/** How much of the account a portfolio target commits: the greedy shares, the gross limit and the group cap. */
module PortfolioExposure {
  import opened Bounds
  import opened Rounding
  import opened Decisions
  import opened Targets
  import opened Sums
  import opened PortfolioEngine

  /** Half a unit of the sixth decimal: what rounding one weight can add. */
  const HALF_STEP := 0.0000005

  // ---------- the greedy shares ----------

  /** The base weight grows with the risk level, from 5% to 50% of the account. */
  lemma BaseWeightGrows(lower: int, higher: int)
    requires lower <= higher
    ensures 0.05 <= BaseWeight(lower) <= BaseWeight(higher) <= 0.5
  {
  }

  predicate NonNegative(xs: seq<real>) {
    forall i | 0 <= i < |xs| :: xs[i] >= 0.0
  }

  lemma {:induction false} LeftIs(raws: seq<real>, available: real)
    requires available >= 0.0 && NonNegative(raws)
    ensures Left(raws, available) == Max(0.0, available - Total(raws))
    ensures Total(raws) >= 0.0
  {
    if |raws| > 0 { LeftIs(raws[..|raws| - 1], available); }
  }

  /** The k-th new weight is the requested one, or what the earlier requests leave of the available exposure. */
  lemma SharesClosedForm(raws: seq<real>, available: real, k: nat)
    requires available >= 0.0 && NonNegative(raws) && k < |raws|
    ensures Shares(raws, available)[k] == Min(raws[k], Max(0.0, available - Total(raws[..k])))
  {
    LeftIs(raws[..k], available);
  }

  lemma SharesInit(raws: seq<real>, available: real)
    requires |raws| > 0
    ensures Shares(raws, available)[..|raws| - 1] == Shares(raws[..|raws| - 1], available)
  {
    var init := raws[..|raws| - 1];
    forall i | 0 <= i < |init| ensures Shares(raws, available)[i] == Shares(init, available)[i] {
      assert init[..i] == raws[..i];
    }
  }

  /** Together the shares take all that is requested or all that is available. */
  lemma {:induction false} SharesTotal(raws: seq<real>, available: real)
    requires available >= 0.0 && NonNegative(raws)
    ensures Total(Shares(raws, available)) == Min(Total(raws), available)
    ensures NonNegative(Shares(raws, available))
  {
    if |raws| > 0 {
      var last := |raws| - 1;
      SharesTotal(raws[..last], available);
      SharesInit(raws, available);
      SharesClosedForm(raws, available, last);
      LeftIs(raws[..last], available);
      hide Left, Shares;
      ghost var shares := Shares(raws, available);
      assert shares[last] >= 0.0;
      forall i | 0 <= i < |shares| ensures shares[i] >= 0.0 {
        assert i < last ==> shares[i] == shares[..last][i];
      }
    } else {
      assert Shares(raws, available) == [];
    }
  }

  // ---------- rounded weights ----------

  predicate Unit(xs: seq<real>) {
    forall i | 0 <= i < |xs| :: 0.0 <= xs[i] <= 1.0
  }

  lemma WeightRounds(w: real)
    requires 0.0 <= w <= 1.0
    ensures -HALF_STEP <= Weight(w) - w <= HALF_STEP
  {
    hide RoundAt;
    RoundError(w, WEIGHT_SCALE);
  }

  lemma ZeroAndOneOnGrid()
    ensures RoundAt(0.0, WEIGHT_SCALE) == 0.0 && RoundAt(1.0, WEIGHT_SCALE) == 1.0
  {
    assert 0.0 == Tick(0, WEIGHT_SCALE);
    assert 1.0 == Tick(1000000, WEIGHT_SCALE);
    RoundFixesGrid(0.0, WEIGHT_SCALE);
    RoundFixesGrid(1.0, WEIGHT_SCALE);
  }

  lemma WeightOnGrid(w: real)
    ensures OnGrid(Weight(w), WEIGHT_SCALE) && 0.0 <= Weight(w) <= 1.0
  {
    hide RoundAt, OnGrid;
    var x := Max(0.0, Min(w, 1.0));
    ZeroAndOneOnGrid();
    RoundedIsOnGrid(x, WEIGHT_SCALE);
    RoundMonotone(0.0, x, WEIGHT_SCALE);
    RoundMonotone(x, 1.0, WEIGHT_SCALE);
  }

  /** Rounding again a weight that was scaled down never exceeds the weight. */
  lemma WeightShrinks(w: real, x: real)
    requires OnGrid(w, WEIGHT_SCALE) && 0.0 <= w <= 1.0 && x <= w
    ensures Weight(x) <= w
  {
    hide RoundAt, OnGrid;
    RoundFixesGrid(w, WEIGHT_SCALE);
    RoundMonotone(Max(0.0, Min(x, 1.0)), w, WEIGHT_SCALE);
  }

  ghost predicate OnWeightGrid(ps: seq<TargetPosition>) {
    forall i | 0 <= i < |ps| :: OnGrid(ps[i].weight, WEIGHT_SCALE) && 0.0 <= ps[i].weight <= 1.0
  }

  lemma {:induction false} SumOnGrid(ps: seq<TargetPosition>)
    requires OnWeightGrid(ps)
    ensures OnGrid(SumWeights(ps), WEIGHT_SCALE) && SumWeights(ps) >= 0.0
  {
    if |ps| == 0 {
      assert 0.0 == Tick(0, WEIGHT_SCALE);
    } else {
      SumOnGrid(ps[..|ps| - 1]);
      hide OnGrid;
      GridSum(SumWeights(ps[..|ps| - 1]), ps[|ps| - 1].weight, WEIGHT_SCALE);
    }
  }

  lemma {:induction false} SumConcat(a: seq<TargetPosition>, b: seq<TargetPosition>)
    ensures SumWeights(a + b) == SumWeights(a) + SumWeights(b)
  {
    if |b| == 0 {
      assert a + b == a;
    } else {
      SumConcat(a, b[..|b| - 1]);
      assert (a + b)[..|a + b| - 1] == a + b[..|b| - 1];
    }
  }

  lemma {:induction false} RetainedSum(symbols: seq<string>)
    ensures SumWeights(RetainedTargets(symbols)) == |symbols| as real * RETAINED_WEIGHT
    ensures OnWeightGrid(RetainedTargets(symbols))
  {
    assert RETAINED_WEIGHT == Tick(100000, WEIGHT_SCALE);
    if |symbols| > 0 {
      var init := symbols[..|symbols| - 1];
      RetainedSum(init);
      assert RetainedTargets(symbols)[..|symbols| - 1] == RetainedTargets(init);
    }
  }

  lemma {:induction false} RoundedSum(ds: seq<TradingDecision>, ws: seq<real>)
    requires |ds| == |ws| && Unit(ws)
    ensures -HALF_STEP * |ds| as real <= SumWeights(NewTargets(ds, ws)) - Total(ws) <= HALF_STEP * |ds| as real
  {
    if |ds| > 0 {
      var n := |ds| - 1;
      RoundedSum(ds[..n], ws[..n]);
      assert NewTargets(ds, ws)[..n] == NewTargets(ds[..n], ws[..n]);
      hide Weight;
      WeightRounds(ws[n]);
    }
  }

  lemma NewTargetsOnGrid(ds: seq<TradingDecision>, ws: seq<real>)
    requires |ds| == |ws|
    ensures OnWeightGrid(NewTargets(ds, ws))
  {
    hide Weight, OnGrid;
    forall i | 0 <= i < |ds| ensures OnGrid(Weight(ws[i]), WEIGHT_SCALE) && 0.0 <= Weight(ws[i]) <= 1.0 {
      WeightOnGrid(ws[i]);
    }
  }

  // ---------- the group cap only shrinks ----------

  predicate Below(qs: seq<TargetPosition>, ps: seq<TargetPosition>) {
    |qs| == |ps| && forall i | 0 <= i < |ps| :: qs[i].symbol == ps[i].symbol && qs[i].weight <= ps[i].weight
  }

  lemma {:induction false} BelowSums(qs: seq<TargetPosition>, ps: seq<TargetPosition>, group: set<string>)
    requires Below(qs, ps)
    ensures SumWeights(qs) <= SumWeights(ps) && GroupWeight(qs, group) <= GroupWeight(ps, group)
  {
    if |ps| > 0 { BelowSums(qs[..|ps| - 1], ps[..|ps| - 1], group); }
  }

  lemma ScaledIsBelow(ds: seq<TradingDecision>, ws: seq<real>, group: set<string>, scale: real)
    requires |ds| == |ws| && scale <= 1.0
    ensures var added := NewTargets(ds, ws); Below(NewTargets(ds, ScaledWeights(added, group, scale)), added)
  {
    hide Weight, OnGrid, Times;
    var added := NewTargets(ds, ws);
    NewTargetsOnGrid(ds, ws);
    forall i | 0 <= i < |ds| ensures Weight(ScaledWeight(added[i], group, scale)) <= added[i].weight {
      TimesShrinks(added[i].weight, scale);
      WeightShrinks(added[i].weight, ScaledWeight(added[i], group, scale));
    }
  }

  lemma RatioShrinks(cap: real, total: real)
    requires total > cap && total > 0.0
    ensures cap / total < 1.0
    ensures cap >= 0.0 ==> cap / total >= 0.0
    ensures Times(total, cap / total) == cap
  {
    var q := cap / total;
    assert q * total == cap;
    assert q >= 1.0 ==> q * total >= total;
    assert q < 0.0 ==> q * total < 0.0;
  }

  /** The cap leaves every symbol in place and never raises a weight. */
  lemma CappedIsBelow(e: Settings, kept: seq<TargetPosition>, ds: seq<TradingDecision>, ws: seq<real>)
    requires |ds| == |ws| && OnWeightGrid(kept)
    ensures Below(Capped(e, kept, ds, ws), kept + NewTargets(ds, ws)) && OnWeightGrid(Capped(e, kept, ds, ws))
  {
    hide Weight, OnGrid, NewTargets, ScaledWeights;
    var added := NewTargets(ds, ws);
    var total := GroupWeight(kept + added, e.btcCorrelated);
    NewTargetsOnGrid(ds, ws);
    if total > e.maxGroup && total > 0.0 {
      RatioShrinks(e.maxGroup, total);
      ScaledIsBelow(ds, ws, e.btcCorrelated, e.maxGroup / total);
      NewTargetsOnGrid(ds, ScaledWeights(added, e.btcCorrelated, e.maxGroup / total));
    }
  }

  // ---------- the target ----------

  /** What is committed before any final scaling: at most the gross limit, or the retained weight where that is
      larger, and half a unit of rounding for each new position. */
  lemma PositionsAreBounded(e: Settings, s: Selection, riskLevel: int)
    ensures SumWeights(Positions(e, s, riskLevel))
            <= Max(e.maxGross, |s.retained| as real * RETAINED_WEIGHT) + HALF_STEP * |s.picked| as real
    ensures OnWeightGrid(Positions(e, s, riskLevel))
  {
    hide BaseWeight, OnWeightGrid, Below, Left, NewTargets, RetainedTargets, Capped;
    var raws := RawWeights(BaseWeight(riskLevel), s.picked);
    var available := Available(e, |s.retained|);
    var kept, ws := RetainedTargets(s.retained), Shares(raws, available);
    BaseWeightGrows(riskLevel, riskLevel);
    SharesTotal(raws, available);
    assert Unit(ws);
    RoundedSum(s.picked, ws);
    RetainedSum(s.retained);
    SumConcat(kept, NewTargets(s.picked, ws));
    CappedIsBelow(e, kept, s.picked, ws);
    BelowSums(Capped(e, kept, s.picked, ws), kept + NewTargets(s.picked, ws), {});
  }

  lemma {:induction false} ScaledDownSum(ps: seq<TargetPosition>, scale: real, group: set<string>)
    ensures SumWeights(ScaledDown(ps, scale)) == Times(SumWeights(ps), scale)
    ensures GroupWeight(ScaledDown(ps, scale), group) == Times(GroupWeight(ps, group), scale)
  {
    if |ps| > 0 {
      var init := ps[..|ps| - 1];
      ScaledDownSum(init, scale, group);
      assert ScaledDown(ps, scale)[..|ps| - 1] == ScaledDown(init, scale);
    }
  }

  lemma CashIsExact(gross: real)
    requires OnGrid(gross, WEIGHT_SCALE) && gross <= 1.0
    ensures Cash(gross) == 1.0 - gross
  {
    var n :| gross == Tick(n, WEIGHT_SCALE);
    assert 1.0 - gross == Tick(10000000000 - 10000 * n, CASH_SCALE);
    RoundFixesGrid(1.0 - gross, CASH_SCALE);
  }

  lemma GrossIsSum(ps: seq<TargetPosition>)
    requires OnWeightGrid(ps)
    ensures Gross(ps) == SumWeights(ps)
  {
    SumOnGrid(ps);
    RoundFixesGrid(SumWeights(ps), WEIGHT_SCALE);
  }

  /** Every target is well formed; its gross exposure is the sum of its weights, is complemented by the cash
      weight to exactly 1, and never exceeds 1 or the sum it was assembled from. */
  lemma AssembledIsWhole(exchange: string, ps: seq<TargetPosition>, reasons: map<string, string>)
    requires OnWeightGrid(ps)
    ensures var t := Assembled(exchange, ps, reasons);
            && t.Valid()
            && t.grossExposure == Min(1.0, SumWeights(ps))
            && SumWeights(t.positions) == t.grossExposure
            && t.grossExposure + t.cashWeight == 1.0
  {
    hide OnGrid, RoundAt, Cash;
    GrossIsSum(ps);
    SumOnGrid(ps);
    var gross := SumWeights(ps);
    if gross > 1.0 {
      ScaledDownSum(ps, 1.0 / gross, {});
      RatioShrinks(1.0, gross);
      ZeroAndOneOnGrid();
      RoundFixesGrid(1.0, WEIGHT_SCALE);
      CashIsExact(1.0);
      forall i | 0 <= i < |ps| ensures 0.0 <= Times(ps[i].weight, 1.0 / gross) <= 1.0 {
        TimesShrinks(ps[i].weight, 1.0 / gross);
      }
    } else {
      CashIsExact(gross);
    }
  }

  /** The engine's target, for every input. */
  lemma TargetIsWhole(e: Settings, exchange: string, ds: seq<TradingDecision>, open: seq<string>, riskLevel: int)
    ensures var t, s := Target(e, exchange, ds, open, riskLevel), Selected(e, ds, open);
            && t.Valid()
            && |t.positions| == |s.retained| + |s.picked|
            && SumWeights(t.positions) == t.grossExposure
            && t.grossExposure + t.cashWeight == 1.0
            && (|t.positions| > 0 ==>
                  t.grossExposure <= Max(e.maxGross, |s.retained| as real * RETAINED_WEIGHT) + HALF_STEP * |s.picked| as real)
  {
    hide Assembled, Positions, Selected, OnWeightGrid;
    var s := Selected(e, ds, open);
    PositionsAreBounded(e, s, riskLevel);
    AssembledIsWhole(exchange, Positions(e, s, riskLevel), s.reasons);
    AssembledKeepsCount(exchange, Positions(e, s, riskLevel), s.reasons);
  }

  lemma AssembledKeepsCount(exchange: string, ps: seq<TargetPosition>, reasons: map<string, string>)
    ensures |Assembled(exchange, ps, reasons).positions| == |ps|
  {
  }

  // ---------- the correlated-group cap ----------

  lemma {:induction false} GroupConcat(a: seq<TargetPosition>, b: seq<TargetPosition>, group: set<string>)
    ensures GroupWeight(a + b, group) == GroupWeight(a, group) + GroupWeight(b, group)
  {
    if |b| == 0 {
      assert a + b == a;
    } else {
      GroupConcat(a, b[..|b| - 1], group);
      assert (a + b)[..|a + b| - 1] == a + b[..|b| - 1];
    }
  }

  function CountIn(symbols: seq<string>, group: set<string>): nat {
    if |symbols| == 0 then 0
    else CountIn(symbols[..|symbols| - 1], group) + if symbols[|symbols| - 1] in group then 1 else 0
  }

  lemma {:induction false} RetainedGroup(symbols: seq<string>, group: set<string>)
    ensures GroupWeight(RetainedTargets(symbols), group) == CountIn(symbols, group) as real * RETAINED_WEIGHT
  {
    if |symbols| > 0 {
      var init := symbols[..|symbols| - 1];
      RetainedGroup(init, group);
      assert RetainedTargets(symbols)[..|symbols| - 1] == RetainedTargets(init);
    }
  }

  lemma GroupAppend(ps: seq<TargetPosition>, p: TargetPosition, group: set<string>)
    ensures GroupWeight(ps + [p], group) == GroupWeight(ps, group) + Member(p, group)
  {
    assert (ps + [p])[..|ps|] == ps;
  }

  lemma ScaledAppend(ds: seq<TradingDecision>, ps: seq<TargetPosition>, group: set<string>, scale: real)
    requires |ds| == |ps| > 0
    ensures var n := |ds| - 1;
            NewTargets(ds, ScaledWeights(ps, group, scale))
            == NewTargets(ds[..n], ScaledWeights(ps[..n], group, scale)) + [NewTarget(ds[n], ScaledWeight(ps[n], group, scale))]
  {
    hide NewTarget, ScaledWeight;
  }

  lemma NothingScaled(group: set<string>, scale: real)
    ensures GroupWeight(NewTargets([], ScaledWeights([], group, scale)), group) == Times(GroupWeight([], group), scale)
  {
  }

  lemma GridMember(ps: seq<TargetPosition>, i: nat)
    requires OnWeightGrid(ps) && i < |ps|
    ensures 0.0 <= ps[i].weight <= 1.0 && OnWeightGrid(ps[..i])
  {
    hide OnGrid;
  }

  /** Up to half a unit per position, scaling the members of a group scales what the group weighs. */
  lemma {:induction false} ScaledGroup(ds: seq<TradingDecision>, ps: seq<TargetPosition>, group: set<string>, scale: real)
    requires |ds| == |ps| && OnWeightGrid(ps) && 0.0 <= scale <= 1.0
    requires forall i | 0 <= i < |ds| :: ds[i].symbol == ps[i].symbol
    ensures var scaled := NewTargets(ds, ScaledWeights(ps, group, scale));
            -HALF_STEP * |ds| as real <= GroupWeight(scaled, group) - Times(GroupWeight(ps, group), scale) <= HALF_STEP * |ds| as real
  {
    hide *;
    if |ds| == 0 {
      NothingScaled(group, scale);
    } else {
      var n := |ds| - 1;
      GridMember(ps, n);
      ScaledGroup(ds[..n], ps[..n], group, scale);
      ScaledAppend(ds, ps, group, scale);
      GroupAppend(NewTargets(ds[..n], ScaledWeights(ps[..n], group, scale)), NewTarget(ds[n], ScaledWeight(ps[n], group, scale)), group);
      GroupAppend(ps[..n], ps[n], group);
      assert ps[..n] + [ps[n]] == ps;
      ScaledMember(ds[n], ps[n], group, scale);
      TimesDistributes(GroupWeight(ps[..n], group), Member(ps[n], group), scale);
    }
  }

  function Member(p: TargetPosition, group: set<string>): real {
    if p.symbol in group then p.weight else 0.0
  }

  lemma ScaledMember(d: TradingDecision, p: TargetPosition, group: set<string>, scale: real)
    requires d.symbol == p.symbol && 0.0 <= p.weight <= 1.0 && 0.0 <= scale <= 1.0
    ensures -HALF_STEP <= Member(NewTarget(d, ScaledWeight(p, group, scale)), group) - Times(Member(p, group), scale) <= HALF_STEP
  {
    hide Weight;
    TimesShrinks(p.weight, scale);
    if p.symbol in group { WeightRounds(ScaledWeight(p, group, scale)); }
  }

  /** By how much an overweight group stays above its cap: the retained members are not scaled. */
  function Excess(e: Settings, retainedInGroup: real, total: real): real
    requires total > 0.0
  {
    Times(retainedInGroup, 1.0 - e.maxGroup / total)
  }

  /** The excess is nothing exactly when no retained position is in the group. */
  lemma ExcessIffRetained(e: Settings, retainedInGroup: real, total: real)
    requires total > e.maxGroup >= 0.0 && retainedInGroup >= 0.0
    ensures Excess(e, retainedInGroup, total) >= 0.0
    ensures Excess(e, retainedInGroup, total) == 0.0 <==> retainedInGroup == 0.0
  {
    RatioShrinks(e.maxGroup, total);
  }

  lemma GroupSplit(e: Settings, r: real, n: real, total: real)
    requires total > 0.0 && r + n == total
    ensures r + Times(n, e.maxGroup / total) == e.maxGroup + Excess(e, r, total)
  {
    var q := e.maxGroup / total;
    assert Times(r + n, q) == e.maxGroup;
    TimesDistributes(r, n, q);
    assert Times(r, 1.0 - q) == r - Times(r, q);
  }

  /** An overweight group comes down to its cap plus the excess of its retained members, up to rounding; a group within
      its cap is left alone. */
  lemma GroupAfterCap(e: Settings, kept: seq<TargetPosition>, ds: seq<TradingDecision>, ws: seq<real>)
    requires |ds| == |ws| && OnWeightGrid(kept) && e.maxGroup >= 0.0
    ensures var total := GroupWeight(kept + NewTargets(ds, ws), e.btcCorrelated);
            var after := GroupWeight(Capped(e, kept, ds, ws), e.btcCorrelated);
            && (total <= e.maxGroup ==> after == total)
            && (total > e.maxGroup ==>
                  -HALF_STEP * |ds| as real
                  <= after - (e.maxGroup + Excess(e, GroupWeight(kept, e.btcCorrelated), total))
                  <= HALF_STEP * |ds| as real)
  {
    hide OnWeightGrid, Times, NewTargets, ScaledWeights, GroupWeight, Excess;
    var total := GroupWeight(kept + NewTargets(ds, ws), e.btcCorrelated);
    if total > e.maxGroup { OverweightGroup(e, kept, ds, ws, total); }
  }

  lemma NewTargetSymbols(ds: seq<TradingDecision>, ws: seq<real>)
    requires |ds| == |ws|
    ensures forall i | 0 <= i < |ds| :: ds[i].symbol == NewTargets(ds, ws)[i].symbol
  {
    hide Weight;
  }

  lemma OverweightGroup(e: Settings, kept: seq<TargetPosition>, ds: seq<TradingDecision>, ws: seq<real>, total: real)
    requires |ds| == |ws| && total > e.maxGroup >= 0.0
    requires total == GroupWeight(kept + NewTargets(ds, ws), e.btcCorrelated)
    ensures var scaled := NewTargets(ds, ScaledWeights(NewTargets(ds, ws), e.btcCorrelated, e.maxGroup / total));
            -HALF_STEP * |ds| as real
            <= GroupWeight(kept + scaled, e.btcCorrelated)
               - (e.maxGroup + Excess(e, GroupWeight(kept, e.btcCorrelated), total))
            <= HALF_STEP * |ds| as real
  {
    hide *;
    var added := NewTargets(ds, ws);
    NewTargetsOnGrid(ds, ws);
    NewTargetSymbols(ds, ws);
    var scale := e.maxGroup / total;
    RatioShrinks(e.maxGroup, total);
    ScaledGroup(ds, added, e.btcCorrelated, scale);
    GroupConcat(kept, added, e.btcCorrelated);
    GroupConcat(kept, NewTargets(ds, ScaledWeights(added, e.btcCorrelated, scale)), e.btcCorrelated);
    GroupSplit(e, GroupWeight(kept, e.btcCorrelated), GroupWeight(added, e.btcCorrelated), total);
  }

  function NewShares(e: Settings, s: Selection, riskLevel: int): (ws: seq<real>)
    ensures |ws| == |s.picked|
  {
    Shares(RawWeights(BaseWeight(riskLevel), s.picked), Available(e, |s.retained|))
  }

  /** What the group weighs before the cap is applied. */
  function GroupBefore(e: Settings, s: Selection, riskLevel: int): real {
    GroupWeight(RetainedTargets(s.retained) + NewTargets(s.picked, NewShares(e, s, riskLevel)), e.btcCorrelated)
  }

  /** What its retained members weigh. */
  function GroupHeld(e: Settings, s: Selection): real {
    CountIn(s.retained, e.btcCorrelated) as real * RETAINED_WEIGHT
  }

  predicate Overweight(e: Settings, s: Selection, riskLevel: int) {
    GroupBefore(e, s, riskLevel) > e.maxGroup
  }

  /** How far above its cap the group is left: nothing unless it was overweight and has retained members. */
  function GroupExcess(e: Settings, s: Selection, riskLevel: int): (x: real)
    requires e.maxGroup >= 0.0
  {
    if Overweight(e, s, riskLevel) then Excess(e, GroupHeld(e, s), GroupBefore(e, s, riskLevel)) else 0.0
  }

  lemma GroupExcessIff(e: Settings, s: Selection, riskLevel: int)
    requires e.maxGroup >= 0.0
    ensures GroupExcess(e, s, riskLevel) >= 0.0
    ensures GroupExcess(e, s, riskLevel) > 0.0
       <==> Overweight(e, s, riskLevel) && CountIn(s.retained, e.btcCorrelated) > 0
  {
    hide GroupBefore, Excess;
    if Overweight(e, s, riskLevel) { ExcessIffRetained(e, GroupHeld(e, s), GroupBefore(e, s, riskLevel)); }
  }

  lemma GroupOfPositions(e: Settings, s: Selection, riskLevel: int)
    requires e.maxGroup >= 0.0
    ensures var w, rounding := GroupWeight(Positions(e, s, riskLevel), e.btcCorrelated), HALF_STEP * |s.picked| as real;
            var x := GroupExcess(e, s, riskLevel);
            && w <= e.maxGroup + x + rounding
            && (Overweight(e, s, riskLevel) ==> w >= e.maxGroup + x - rounding)
  {
    hide OnWeightGrid, Capped, NewShares, Excess, GroupWeight, RetainedTargets, NewTargets;
    RetainedSum(s.retained);
    RetainedGroup(s.retained, e.btcCorrelated);
    GroupAfterCap(e, RetainedTargets(s.retained), s.picked, NewShares(e, s, riskLevel));
    PositionsAreCapped(e, s, riskLevel);
  }

  lemma PositionsAreCapped(e: Settings, s: Selection, riskLevel: int)
    ensures Positions(e, s, riskLevel) == Capped(e, RetainedTargets(s.retained), s.picked, NewShares(e, s, riskLevel))
  {
    hide Capped;
  }

  /** What the positions sum to where they are scaled down in the end, and 1 where they are not. */
  function Divisor(e: Settings, s: Selection, riskLevel: int): real {
    Max(1.0, SumWeights(Positions(e, s, riskLevel)))
  }

  /** The finished target exceeds the group cap by no more than the excess and half a unit of rounding per new position.
      So it keeps the cap up to rounding unless the group was overweight with a retained position in it.  Scaling down
      makes room of the cap's share of what is above 1: up to rounding, the target exceeds the cap exactly when the
      excess is larger than that room. */
  lemma GroupCapOnTarget(e: Settings, exchange: string, ds: seq<TradingDecision>, open: seq<string>, riskLevel: int)
    requires e.maxGroup >= 0.0
    ensures var s := Selected(e, ds, open);
            var w := GroupWeight(Target(e, exchange, ds, open, riskLevel).positions, e.btcCorrelated);
            var x, rounding := GroupExcess(e, s, riskLevel), HALF_STEP * |s.picked| as real;
            var room := Times(e.maxGroup, Divisor(e, s, riskLevel) - 1.0);
            && w <= e.maxGroup + x + rounding
            && (w > e.maxGroup + rounding ==> Overweight(e, s, riskLevel) && CountIn(s.retained, e.btcCorrelated) > 0)
            && (x > room + rounding ==> w > e.maxGroup)
            && (w > e.maxGroup ==> x > room - rounding)
  {
    var s := Selected(e, ds, open);
    TargetIsAssembled(e, exchange, ds, open, riskLevel);
    PositionsAreBounded(e, s, riskLevel);
    hide Selected, Positions, OnWeightGrid, Target, Assembled, Overweight, GroupExcess, GroupWeight, Times, SumWeights;
    GroupExcessIff(e, s, riskLevel);
    GroupOfPositions(e, s, riskLevel);
    FinalGroup(e, exchange, Positions(e, s, riskLevel), s.reasons);
    EmptyGroup(e.btcCorrelated);
    var w := GroupWeight(Target(e, exchange, ds, open, riskLevel).positions, e.btcCorrelated);
    TimesNonNegative(e.maxGroup, Divisor(e, s, riskLevel) - 1.0);
    DivisorRoom(e.maxGroup, w, Divisor(e, s, riskLevel));
  }

  /** Of a group that weighs w in the end and weighed w * divisor before. */
  lemma DivisorRoom(cap: real, w: real, divisor: real)
    requires divisor >= 1.0
    ensures w > cap <==> Times(w, divisor) > cap + Times(cap, divisor - 1.0)
  {
    assert cap + Times(cap, divisor - 1.0) == Times(cap, divisor);
    assert Times(w, divisor) - Times(cap, divisor) == Times(w - cap, divisor);
  }

  lemma EmptyGroup(group: set<string>)
    ensures GroupWeight([], group) == 0.0
  {
  }

  lemma TargetIsAssembled(e: Settings, exchange: string, ds: seq<TradingDecision>, open: seq<string>, riskLevel: int)
    ensures var s := Selected(e, ds, open);
            var ps := Positions(e, s, riskLevel);
            Target(e, exchange, ds, open, riskLevel).positions == if |ps| == 0 then [] else Assembled(exchange, ps, s.reasons).positions
  {
    hide Selected, Assembled;
  }

  /** In particular it keeps the cap up to rounding whenever no retained position is in the group. */
  lemma GroupCapHolds(e: Settings, exchange: string, ds: seq<TradingDecision>, open: seq<string>, riskLevel: int)
    requires e.maxGroup >= 0.0 && CountIn(Selected(e, ds, open).retained, e.btcCorrelated) == 0
    ensures GroupWeight(Target(e, exchange, ds, open, riskLevel).positions, e.btcCorrelated)
            <= e.maxGroup + HALF_STEP * |Selected(e, ds, open).picked| as real
  {
    hide Selected, Target, Positions, Overweight, GroupExcess;
    GroupCapOnTarget(e, exchange, ds, open, riskLevel);
  }

  lemma NothingDecided(e: Settings, open: seq<string>)
    ensures Selected(e, [], open) == Selection(open, [], map[])
  {
    ExcludingNone(open);
    assert CloseReasons([]) == map[] && CloseReasons([]).Keys == {};
    assert AllAdjusted(e, []) == [];
    assert Ranked(e, [], open) == [];
  }

  lemma RetainedOnly(e: Settings, open: seq<string>, riskLevel: int)
    ensures Positions(e, Selection(open, [], map[]), riskLevel) == RetainedTargets(open)
  {
    hide BaseWeight, Left;
    var s := Selection(open, [], map[]);
    assert NewTargets(s.picked, NewShares(e, s, riskLevel)) == [];
    PositionsAreCapped(e, s, riskLevel);
  }

  /** Without decisions, up to ten retained positions weigh 0.10 each: the group is then above its cap if and only if
      its members alone are. */
  lemma RetainedAloneWeigh(e: Settings, exchange: string, open: seq<string>, riskLevel: int)
    requires |open| <= 10
    ensures GroupWeight(Target(e, exchange, [], open, riskLevel).positions, e.btcCorrelated)
            == CountIn(open, e.btcCorrelated) as real * RETAINED_WEIGHT
  {
    var s := Selection(open, [], map[]);
    NothingDecided(e, open);
    RetainedOnly(e, open, riskLevel);
    TargetIsAssembled(e, exchange, [], open, riskLevel);
    hide Selected, Positions, OnWeightGrid, Target, GroupWeight, Cash;
    RetainedSum(open);
    RetainedGroup(open, e.btcCorrelated);
    GrossIsSum(RetainedTargets(open));
    EmptyGroup(e.btcCorrelated);
    var ps := RetainedTargets(open);
    assert Gross(ps) <= 1.0;
    assert Assembled(exchange, ps, s.reasons).positions == ps;
    assert Target(e, exchange, [], open, riskLevel).positions == ps;
  }

  /** Five retained members of the group exceed the default cap of 40%. */
  lemma FiveRetainedExceedDefaultCap(exchange: string, riskLevel: int)
    ensures exists e: Settings, open: seq<string> ::
      e.maxGroup == 0.40 && GroupWeight(Target(e, exchange, [], open, riskLevel).positions, e.btcCorrelated) == 0.5
  {
    var group := {"A", "B", "C", "D", "E"};
    var e := Settings(10, 0.85, 0.5, 0.40, {}, {}, {}, {}, group);
    var open := ["A", "B", "C", "D", "E"];
    RetainedAloneWeigh(e, exchange, open, riskLevel);
    AllIn(open, group);
  }

  lemma {:induction false} AllIn(symbols: seq<string>, group: set<string>)
    requires forall i | 0 <= i < |symbols| :: symbols[i] in group
    ensures CountIn(symbols, group) == |symbols|
  {
    if |symbols| > 0 { AllIn(symbols[..|symbols| - 1], group); }
  }

  /** The final scaling divides by the sum of the weights where that is above 1, and only ever lowers what the group
      weighs. */
  lemma FinalGroup(e: Settings, exchange: string, ps: seq<TargetPosition>, reasons: map<string, string>)
    requires OnWeightGrid(ps)
    ensures var w := GroupWeight(Assembled(exchange, ps, reasons).positions, e.btcCorrelated);
            && 0.0 <= w <= GroupWeight(ps, e.btcCorrelated)
            && Times(w, Max(1.0, SumWeights(ps))) == GroupWeight(ps, e.btcCorrelated)
  {
    hide Cash, OnGrid, OnWeightGrid, SumWeights, GroupWeight, Gross, Times;
    GrossIsSum(ps);
    GroupNonNegative(ps, e.btcCorrelated);
    var gross, g := Gross(ps), GroupWeight(ps, e.btcCorrelated);
    if gross > 1.0 {
      ScaledDownSum(ps, 1.0 / gross, e.btcCorrelated);
      RatioShrinks(1.0, gross);
      TimesShrinks(g, 1.0 / gross);
      DividedBack(g, gross);
    } else {
      TimesOne(g);
      DividedBack(g, 1.0);
    }
  }

  lemma DividedBack(w: real, divisor: real)
    requires divisor > 0.0
    ensures Times(Times(w, 1.0 / divisor), divisor) == w
    ensures divisor == 1.0 ==> Times(w, divisor) == w
  {
  }

  lemma {:induction false} GroupNonNegative(ps: seq<TargetPosition>, group: set<string>)
    requires OnWeightGrid(ps)
    ensures GroupWeight(ps, group) >= 0.0
  {
    if |ps| > 0 { GroupNonNegative(ps[..|ps| - 1], group); }
  }

  /** Retained members are never scaled by the cap, so they alone may exceed it. */
  lemma RetainedMembersKeepTheirWeight(e: Settings, s: Selection, riskLevel: int)
    ensures GroupWeight(Positions(e, s, riskLevel), e.btcCorrelated)
            >= CountIn(s.retained, e.btcCorrelated) as real * RETAINED_WEIGHT
  {
    hide BaseWeight, Left, OnWeightGrid, NewTargets, RetainedTargets, Times;
    var kept, group := RetainedTargets(s.retained), e.btcCorrelated;
    var ws := Shares(RawWeights(BaseWeight(riskLevel), s.picked), Available(e, |s.retained|));
    var added := NewTargets(s.picked, ws);
    var total := GroupWeight(kept + added, group);
    var final := if total > e.maxGroup && total > 0.0 then ScaledWeights(added, group, e.maxGroup / total) else ws;
    assert Positions(e, s, riskLevel) == kept + NewTargets(s.picked, final);
    NewTargetsOnGrid(s.picked, final);
    GroupNonNegative(NewTargets(s.picked, final), group);
    GroupConcat(kept, NewTargets(s.picked, final), group);
    RetainedGroup(s.retained, group);
  }
}
