/**
 How large the positions of a portfolio target are: grades of confidence, the exposure left, the group cap and the final
 scaling, weight by weight.
 */
module PositionSizes {
  import opened Bounds
  import opened Decisions
  import opened PortfolioEngine
  import opened PortfolioExposure
  import opened Rounding
  import opened Sums
  import opened Targets

  /** What a pick asks for: from 5% at risk level 0 over 20% at 100 to 50% at 200 for a confidence of 0.85, half of it
      from 0.70 on and a quarter below. */
  function Asked(riskLevel: int, confidence: real): real {
    var full := if riskLevel <= 0 then 0.05
                else if riskLevel <= 100 then 0.05 + riskLevel as real * 0.0015
                else if riskLevel < 200 then 0.20 + (riskLevel - 100) as real * 0.003
                else 0.5;
    if confidence < 0.70 then full / 4.0 else if confidence < 0.85 then full / 2.0 else full
  }

  function AskedInAll(riskLevel: int, picked: seq<TradingDecision>): real {
    if |picked| == 0 then 0.0
    else AskedInAll(riskLevel, picked[..|picked| - 1]) + Asked(riskLevel, picked[|picked| - 1].confidence)
  }

  /** What the positions held at 10% each leave of the gross limit. */
  function Room(e: Settings, kept: nat): real {
    Max(0.0, e.maxGross - 0.1 * kept as real)
  }

  /** What pick k gets: what it asks for, or what the picks before it leave. */
  function Granted(e: Settings, kept: nat, riskLevel: int, picked: seq<TradingDecision>, k: nat): real
    requires k < |picked|
  {
    Min(Asked(riskLevel, picked[k].confidence), Max(0.0, Room(e, kept) - AskedInAll(riskLevel, picked[..k])))
  }

  /** A share of the account, rounded to six decimals. */
  function SixDecimals(x: real): real {
    RoundAt(Max(0.0, Min(x, 1.0)), 1000000.0)
  }

  /** What the correlated group weighs before it is capped. */
  function GroupAsked(e: Settings, kept: seq<string>, riskLevel: int, picked: seq<TradingDecision>, n: nat): real
    requires n <= |picked|
  {
    if n == 0 then 0.1 * CountIn(kept, e.btcCorrelated) as real
    else GroupAsked(e, kept, riskLevel, picked, n - 1)
         + if picked[n - 1].symbol in e.btcCorrelated then SixDecimals(Granted(e, |kept|, riskLevel, picked, n - 1)) else 0.0
  }

  /** What pick k weighs once an overweight group has been scaled to its cap. */
  function CappedWeight(e: Settings, kept: seq<string>, riskLevel: int, picked: seq<TradingDecision>, k: nat): real
    requires k < |picked|
  {
    var weight, group := SixDecimals(Granted(e, |kept|, riskLevel, picked, k)), GroupAsked(e, kept, riskLevel, picked, |picked|);
    if group > e.maxGroup && group > 0.0 && picked[k].symbol in e.btcCorrelated then
      SixDecimals(Times(weight, e.maxGroup / group))
    else weight
  }

  lemma AskedIsRaw(riskLevel: int, confidence: real)
    ensures RawWeight(BaseWeight(riskLevel), confidence) == Asked(riskLevel, confidence)
    ensures Asked(riskLevel, confidence) >= 0.0
  {
  }

  lemma {:induction false} AskedIsTotal(riskLevel: int, picked: seq<TradingDecision>)
    ensures Total(RawWeights(BaseWeight(riskLevel), picked)) == AskedInAll(riskLevel, picked)
    ensures NonNegative(RawWeights(BaseWeight(riskLevel), picked))
  {
    hide BaseWeight, RawWeight, Asked;
    var raws := RawWeights(BaseWeight(riskLevel), picked);
    forall i | 0 <= i < |picked| ensures raws[i] == Asked(riskLevel, picked[i].confidence) && raws[i] >= 0.0 {
      AskedIsRaw(riskLevel, picked[i].confidence);
    }
    if |picked| > 0 {
      var n := |picked| - 1;
      AskedIsTotal(riskLevel, picked[..n]);
      assert raws[..n] == RawWeights(BaseWeight(riskLevel), picked[..n]);
    }
  }

  lemma GrantedIsShare(e: Settings, s: Selection, riskLevel: int, k: nat)
    requires k < |s.picked|
    ensures NewShares(e, s, riskLevel)[k] == Granted(e, |s.retained|, riskLevel, s.picked, k)
  {
    hide BaseWeight, RawWeight, Asked, Left, Shares;
    var raws := RawWeights(BaseWeight(riskLevel), s.picked);
    AskedIsTotal(riskLevel, s.picked);
    AskedIsTotal(riskLevel, s.picked[..k]);
    AskedIsRaw(riskLevel, s.picked[k].confidence);
    assert raws[..k] == RawWeights(BaseWeight(riskLevel), s.picked[..k]);
    SharesClosedForm(raws, Available(e, |s.retained|), k);
  }

  lemma FirstWeight(e: Settings, s: Selection, riskLevel: int, k: nat)
    requires k < |s.picked|
    ensures var p := NewTargets(s.picked, NewShares(e, s, riskLevel))[k];
            p.symbol == s.picked[k].symbol && p.weight == SixDecimals(Granted(e, |s.retained|, riskLevel, s.picked, k))
  {
    hide NewShares, Granted, RoundAt;
    GrantedIsShare(e, s, riskLevel, k);
  }

  lemma {:induction false} GroupOfFirst(e: Settings, s: Selection, riskLevel: int, n: nat)
    requires n <= |s.picked|
    ensures 0.1 * CountIn(s.retained, e.btcCorrelated) as real
            + GroupWeight(NewTargets(s.picked, NewShares(e, s, riskLevel))[..n], e.btcCorrelated)
            == GroupAsked(e, s.retained, riskLevel, s.picked, n)
  {
    hide NewShares, Granted, SixDecimals, NewTarget;
    var added := NewTargets(s.picked, NewShares(e, s, riskLevel));
    if n > 0 {
      GroupOfFirst(e, s, riskLevel, n - 1);
      assert added[..n][..n - 1] == added[..n - 1];
      FirstWeight(e, s, riskLevel, n - 1);
    }
  }

  lemma GroupIsAsked(e: Settings, s: Selection, riskLevel: int)
    ensures GroupBefore(e, s, riskLevel) == GroupAsked(e, s.retained, riskLevel, s.picked, |s.picked|)
  {
    hide NewShares, GroupAsked, GroupWeight, NewTargets, RetainedTargets;
    var added := NewTargets(s.picked, NewShares(e, s, riskLevel));
    GroupOfFirst(e, s, riskLevel, |s.picked|);
    assert added[..|s.picked|] == added;
    GroupConcat(RetainedTargets(s.retained), added, e.btcCorrelated);
    RetainedGroup(s.retained, e.btcCorrelated);
  }

  /** The weights before the final scaling: 10% for each position held, the capped weight for each pick. */
  lemma WeightsBeforeScaling(e: Settings, s: Selection, riskLevel: int, i: nat)
    requires i < |s.retained| + |s.picked|
    ensures Positions(e, s, riskLevel)[i].weight
            == if i < |s.retained| then 0.1 else CappedWeight(e, s.retained, riskLevel, s.picked, i - |s.retained|)
  {
    hide NewShares, GroupAsked, Granted, GroupWeight, RoundAt, Times, Capped, NewTargets, RetainedTargets, SixDecimals;
    PositionsAreCapped(e, s, riskLevel);
    GroupIsAsked(e, s, riskLevel);
    HeldWeighTenth(s.retained);
    CappedAt(e, RetainedTargets(s.retained), s.picked, NewShares(e, s, riskLevel), i);
    if i >= |s.retained| {
      FirstWeight(e, s, riskLevel, i - |s.retained|);
      RoundedTwice(Granted(e, |s.retained|, riskLevel, s.picked, i - |s.retained|));
    }
  }

  lemma RoundedTwice(x: real)
    ensures SixDecimals(SixDecimals(x)) == SixDecimals(x)
  {
    hide OnGrid, RoundAt;
    WeightOnGrid(x);
    RoundFixesGrid(SixDecimals(x), 1000000.0);
  }

  lemma HeldWeighTenth(symbols: seq<string>)
    ensures forall i | 0 <= i < |symbols| :: RetainedTargets(symbols)[i].weight == 0.1
  {
  }

  /** Capping keeps what is held and scales the picks of an overweight group. */
  lemma CappedAt(e: Settings, kept: seq<TargetPosition>, ds: seq<TradingDecision>, ws: seq<real>, i: nat)
    requires |ds| == |ws| && i < |kept| + |ds|
    ensures var added := NewTargets(ds, ws);
            var total := GroupWeight(kept + added, e.btcCorrelated);
            if i < |kept| then Capped(e, kept, ds, ws)[i] == kept[i]
            else
              var p := added[i - |kept|];
              Capped(e, kept, ds, ws)[i].weight
              == if total > e.maxGroup && total > 0.0 && p.symbol in e.btcCorrelated then
                   SixDecimals(Times(p.weight, e.maxGroup / total))
                 else if total > e.maxGroup && total > 0.0 then SixDecimals(p.weight) else p.weight
  {
    hide GroupWeight, RoundAt, Times;
  }

  function WeightsOf(ps: seq<TargetPosition>): (ws: seq<real>)
    ensures |ws| == |ps|
  {
    seq(|ps|, i requires 0 <= i < |ps| => ps[i].weight)
  }

  lemma {:induction false} WeightsSum(ps: seq<TargetPosition>)
    ensures Total(WeightsOf(ps)) == SumWeights(ps)
  {
    if |ps| > 0 {
      WeightsSum(ps[..|ps| - 1]);
      assert WeightsOf(ps)[..|ps| - 1] == WeightsOf(ps[..|ps| - 1]);
    }
  }

  lemma AssembledWeights(exchange: string, ps: seq<TargetPosition>, reasons: map<string, string>, i: nat)
    requires OnWeightGrid(ps) && i < |ps|
    ensures var t := Assembled(exchange, ps, reasons);
            |t.positions| == |ps|
            && t.positions[i].weight == if SumWeights(ps) > 1.0 then Times(ps[i].weight, 1.0 / SumWeights(ps)) else ps[i].weight
  {
    hide OnWeightGrid, SumWeights, Cash, Times;
    GrossIsSum(ps);
  }

  /** Every weight of every target: positions held weigh 10%, picks what they are granted once the group is capped, and
      where that adds up to more than the account, all are divided by what it adds up to. */
  lemma TargetsAreSizedExactly(e: Settings, exchange: string, ds: seq<TradingDecision>, open: seq<string>, riskLevel: int)
      returns (weights: seq<real>)
    ensures var s, ps := Selected(e, ds, open), Target(e, exchange, ds, open, riskLevel).positions;
            && |weights| == |ps| == |s.retained| + |s.picked|
            && (forall i | 0 <= i < |s.retained| :: weights[i] == 0.1)
            && (forall k | 0 <= k < |s.picked| ::
                  weights[|s.retained| + k] == CappedWeight(e, s.retained, riskLevel, s.picked, k))
            && (forall i | 0 <= i < |ps| ::
                  ps[i].weight == if Total(weights) > 1.0 then Times(weights[i], 1.0 / Total(weights)) else weights[i])
  {
    hide Selected, Positions, OnWeightGrid, Target, Assembled, CappedWeight, SumWeights, Times, Total;
    var s := Selected(e, ds, open);
    var ps := Positions(e, s, riskLevel);
    TargetIsAssembled(e, exchange, ds, open, riskLevel);
    PositionsAreBounded(e, s, riskLevel);
    AssembledKeepsCount(exchange, ps, s.reasons);
    weights := WeightsOf(ps);
    WeightsSum(ps);
    forall i | 0 <= i < |ps|
      ensures weights[i] == if i < |s.retained| then 0.1 else CappedWeight(e, s.retained, riskLevel, s.picked, i - |s.retained|)
    {
      WeightsBeforeScaling(e, s, riskLevel, i);
    }
    forall i | 0 <= i < |ps|
      ensures |Target(e, exchange, ds, open, riskLevel).positions| == |ps|
      ensures Target(e, exchange, ds, open, riskLevel).positions[i].weight
              == if Total(weights) > 1.0 then Times(weights[i], 1.0 / Total(weights)) else weights[i]
    {
      AssembledWeights(exchange, ps, s.reasons, i);
    }
  }
}
