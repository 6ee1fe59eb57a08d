/** Portfolio targets: what the portfolio engine asks for, the risk engine limits and the broker trades. */
module Targets {
  import opened Options
  import opened PositionTable

  datatype TargetPosition = TargetPosition(
    symbol: string,
    side: Side,
    weight: real,
    confidence: real,
    finalScore: real,
    overrideStop: Option<real>,
    overrideTarget: Option<real>)

  datatype PortfolioTarget = PortfolioTarget(
    exchange: string,
    positions: seq<TargetPosition>,
    cashWeight: real,
    grossExposure: real,
    closeReasons: map<string, string>)
  {
    /** The field constraints that the constructors enforce. */
    predicate Valid() {
      && (forall i | 0 <= i < |positions| :: 0.0 <= positions[i].weight <= 1.0)
      && 0.0 <= cashWeight <= 1.0
      && 0.0 <= grossExposure <= 1.0
    }
  }

  function SumWeights(ps: seq<TargetPosition>): real {
    if |ps| == 0 then 0.0
    else SumWeights(ps[..|ps| - 1]) + ps[|ps| - 1].weight
  }

  lemma SumWeightsAppend(ps: seq<TargetPosition>, p: TargetPosition)
    ensures SumWeights(ps + [p]) == SumWeights(ps) + p.weight
  {
    assert (ps + [p])[..|ps|] == ps;
  }
}
