/**
 The portfolio engine: which open positions are retained, which candidates replace the weakest of them, and
 how exposure is shared among the new ones.  A set of symbols is a duplicate-free sequence, in the order in
 which the program happens to iterate over it.  Weights are floats in the program and reals here; `round`
 stays explicit.
 */
module PortfolioEngine {
  import opened Bounds
  import opened Options
  import opened Rounding
  import opened PositionTable
  import opened Decisions
  import opened Targets
  import opened Sorting

  const WEIGHT_SCALE: Scale := 1000000.0
  const CASH_SCALE: Scale := 10000000000.0
  const RETAINED_WEIGHT := 0.1
  const REPLACEMENT_MARGIN := 0.1
  const UNSCORED := 0.15

  datatype Settings = Settings(
    maxPositions: int,
    maxGross: real,
    minConfidence: real,
    maxGroup: real,
    top10: set<string>,
    memes: set<string>,
    aiHype: set<string>,
    layer1: set<string>,
    btcCorrelated: set<string>)

  // ---------- candidates ----------

  /** Confidence as the market regime adjusts it. */
  function Adjusted(e: Settings, d: TradingDecision): TradingDecision {
    if d.regime == Some(BEAR_TREND) && d.action == CONSIDER_LONG && d.symbol !in e.top10 then d.(confidence := 0.0)
    else if d.regime == Some(BULL_TREND) && d.symbol in e.memes then d.(confidence := Min(0.99, d.confidence + 0.15))
    else if d.regime == Some(SIDEWAYS) && (d.symbol in e.aiHype || d.symbol in e.layer1) then
      d.(confidence := Min(0.99, d.confidence + 0.10))
    else d
  }

  function AllAdjusted(e: Settings, ds: seq<TradingDecision>): (r: seq<TradingDecision>)
    ensures |r| == |ds|
  {
    seq(|ds|, i requires 0 <= i < |ds| => Adjusted(e, ds[i]))
  }

  predicate IsClose(action: Action) {
    action == CLOSE_LONG || action == CLOSE_SHORT
  }

  /** The symbols with a closing decision, each with the reason of its last one. */
  function CloseReasons(ds: seq<TradingDecision>): map<string, string> {
    if |ds| == 0 then map[]
    else
      var d := ds[|ds| - 1];
      var before := CloseReasons(ds[..|ds| - 1]);
      if IsClose(d.action) then before[d.symbol := d.reason] else before
  }

  function Excluding(symbols: seq<string>, gone: set<string>): seq<string> {
    if |symbols| == 0 then []
    else
      var s := symbols[|symbols| - 1];
      Excluding(symbols[..|symbols| - 1], gone) + if s in gone then [] else [s]
  }

  predicate IsCandidate(e: Settings, retained: seq<string>, d: TradingDecision) {
    IsEntry(d.action) && d.confidence >= e.minConfidence && d.finalScore > 0.0 && d.symbol !in retained
  }

  function Candidates(e: Settings, retained: seq<string>, ds: seq<TradingDecision>): (r: seq<TradingDecision>)
    ensures forall d :: d in r <==> d in ds && IsCandidate(e, retained, d)
  {
    if |ds| == 0 then []
    else
      var d := ds[|ds| - 1];
      Candidates(e, retained, ds[..|ds| - 1]) + if IsCandidate(e, retained, d) then [d] else []
  }

  /** Descending confidence, then descending score. */
  predicate RanksBefore(x: TradingDecision, y: TradingDecision) {
    x.confidence > y.confidence || (x.confidence == y.confidence && x.finalScore >= y.finalScore)
  }

  // ---------- replacement ----------

  datatype Scored = Scored(symbol: string, score: real)

  predicate Weaker(x: Scored, y: Scored) {
    x.score <= y.score
  }

  function Strength(d: TradingDecision): real {
    Times(d.finalScore, d.confidence)
  }

  /** The score of a retained symbol: that of its last decision, or a default. */
  function ScoreOf(ds: seq<TradingDecision>, symbol: string): real {
    if |ds| == 0 then UNSCORED
    else if ds[|ds| - 1].symbol == symbol then Strength(ds[|ds| - 1])
    else ScoreOf(ds[..|ds| - 1], symbol)
  }

  function Scores(ds: seq<TradingDecision>, retained: seq<string>): (r: seq<Scored>)
    ensures |r| == |retained|
  {
    seq(|retained|, i requires 0 <= i < |retained| => Scored(retained[i], ScoreOf(ds, retained[i])))
  }

  /** The candidates that replace a retained symbol: each in turn is compared with the weakest one left. */
  function Picked(cands: seq<TradingDecision>, scored: seq<Scored>): (r: seq<TradingDecision>)
    ensures |r| <= |scored| && |r| <= |cands|
  {
    if |cands| == 0 then []
    else
      var before, c := Picked(cands[..|cands| - 1], scored), cands[|cands| - 1];
      if |before| < |scored| && Strength(c) > scored[|before|].score + REPLACEMENT_MARGIN then before + [c] else before
  }

  function Symbols(scored: seq<Scored>): set<string> {
    set i | 0 <= i < |scored| :: scored[i].symbol
  }

  function Message(c: TradingDecision): string {
    "REPLACED_BY_STRONGER_SIGNAL: Replaced by " + c.symbol
  }

  function ReplacementReasons(picked: seq<TradingDecision>, scored: seq<Scored>): map<string, string>
    requires |picked| <= |scored|
  {
    if |picked| == 0 then map[]
    else
      var n := |picked| - 1;
      ReplacementReasons(picked[..n], scored)[scored[n].symbol := Message(picked[n])]
  }

  datatype Selection = Selection(retained: seq<string>, picked: seq<TradingDecision>, reasons: map<string, string>)

  function Retained(ds: seq<TradingDecision>, open: seq<string>): seq<string> {
    Excluding(open, CloseReasons(ds).Keys)
  }

  function Ranked(e: Settings, ds: seq<TradingDecision>, retained: seq<string>): seq<TradingDecision> {
    Sort(Candidates(e, retained, AllAdjusted(e, ds)), RanksBefore)
  }

  function WeakestFirst(e: Settings, ds: seq<TradingDecision>, retained: seq<string>): (r: seq<Scored>)
    ensures |r| == |retained|
  {
    Sort(Scores(AllAdjusted(e, ds), retained), Weaker)
  }

  function Slots(e: Settings, retained: seq<string>, cands: seq<TradingDecision>): (n: nat)
    ensures n <= |cands|
  {
    var free := e.maxPositions - |retained|;
    if free <= 0 then 0 else if free < |cands| then free else |cands|
  }

  /** With no slot free, the candidates left over compete with the retained symbols. */
  function Swapped(e: Settings, ds: seq<TradingDecision>, retained: seq<string>, first: seq<TradingDecision>,
                   rest: seq<TradingDecision>): Selection {
    var scored := WeakestFirst(e, ds, retained);
    var picked := Picked(rest, scored);
    Selection(Excluding(retained, Symbols(scored[..|picked|])), first + picked,
              CloseReasons(ds) + ReplacementReasons(picked, scored))
  }

  function Selected(e: Settings, ds: seq<TradingDecision>, open: seq<string>): Selection {
    var retained := Retained(ds, open);
    var cands := Ranked(e, ds, retained);
    var n := Slots(e, retained, cands);
    if n < |cands| && |retained| >= e.maxPositions then Swapped(e, ds, retained, cands[..n], cands[n..])
    else Selection(retained, cands[..n], CloseReasons(ds))
  }

  // ---------- weights ----------

  /** Weight of an A-grade candidate at a risk level, which is clamped to 0..200. */
  function BaseWeight(riskLevel: int): real {
    var level := (if riskLevel < 0 then 0 else if riskLevel > 200 then 200 else riskLevel) as real;
    if level <= 100.0 then 0.05 + 0.15 * (level / 100.0) else 0.20 + 0.30 * ((level - 100.0) / 100.0)
  }

  function RawWeight(base: real, confidence: real): real {
    if confidence >= 0.85 then base else if confidence >= 0.70 then base / 2.0 else base / 4.0
  }

  function RawWeights(base: real, ds: seq<TradingDecision>): (r: seq<real>)
    ensures |r| == |ds|
  {
    seq(|ds|, i requires 0 <= i < |ds| => RawWeight(base, ds[i].confidence))
  }

  /** The exposure left after serving each request in turn. */
  function Left(raws: seq<real>, available: real): real {
    if |raws| == 0 then available
    else
      var left := Left(raws[..|raws| - 1], available);
      Max(0.0, left - Min(raws[|raws| - 1], left))
  }

  function Shares(raws: seq<real>, available: real): (r: seq<real>)
    ensures |r| == |raws|
  {
    seq(|raws|, i requires 0 <= i < |raws| => Min(raws[i], Left(raws[..i], available)))
  }

  function Weight(w: real): real {
    RoundAt(Max(0.0, Min(w, 1.0)), WEIGHT_SCALE)
  }

  function NewTarget(d: TradingDecision, w: real): TargetPosition {
    TargetPosition(d.symbol, if d.action == CONSIDER_LONG then LONG else SHORT, Weight(w), d.confidence, d.finalScore,
                   d.overrideStop, d.overrideTarget)
  }

  function NewTargets(ds: seq<TradingDecision>, ws: seq<real>): (r: seq<TargetPosition>)
    requires |ds| == |ws|
    ensures |r| == |ds|
  {
    seq(|ds|, i requires 0 <= i < |ds| => NewTarget(ds[i], ws[i]))
  }

  function RetainedTarget(symbol: string): TargetPosition {
    TargetPosition(symbol, LONG, RETAINED_WEIGHT, 1.0, 1.0, None, None)
  }

  function RetainedTargets(symbols: seq<string>): (r: seq<TargetPosition>)
    ensures |r| == |symbols|
  {
    seq(|symbols|, i requires 0 <= i < |symbols| => RetainedTarget(symbols[i]))
  }

  function Available(e: Settings, retained: nat): real {
    Max(0.0, e.maxGross - retained as real * RETAINED_WEIGHT)
  }

  function GroupWeight(ps: seq<TargetPosition>, group: set<string>): real {
    if |ps| == 0 then 0.0
    else
      var p := ps[|ps| - 1];
      GroupWeight(ps[..|ps| - 1], group) + if p.symbol in group then p.weight else 0.0
  }

  function ScaledWeight(p: TargetPosition, group: set<string>, scale: real): real {
    if p.symbol in group then Times(p.weight, scale) else p.weight
  }

  function ScaledWeights(ps: seq<TargetPosition>, group: set<string>, scale: real): (r: seq<real>)
    ensures |r| == |ps|
  {
    seq(|ps|, i requires 0 <= i < |ps| => ScaledWeight(ps[i], group, scale))
  }

  /** Scales the new positions of an overweight group; retained ones keep their weight. */
  function Capped(e: Settings, kept: seq<TargetPosition>, ds: seq<TradingDecision>, ws: seq<real>): (r: seq<TargetPosition>)
    requires |ds| == |ws|
    ensures |r| == |kept| + |ds|
  {
    var added := NewTargets(ds, ws);
    var total := GroupWeight(kept + added, e.btcCorrelated);
    if total > e.maxGroup && total > 0.0 then
      kept + NewTargets(ds, ScaledWeights(added, e.btcCorrelated, e.maxGroup / total))
    else kept + added
  }

  function ScaledDown(ps: seq<TargetPosition>, scale: real): (r: seq<TargetPosition>)
    ensures |r| == |ps|
  {
    seq(|ps|, i requires 0 <= i < |ps| => ps[i].(weight := Times(ps[i].weight, scale)))
  }

  function Gross(ps: seq<TargetPosition>): real {
    RoundAt(SumWeights(ps), WEIGHT_SCALE)
  }

  function Cash(gross: real): real {
    RoundAt(Max(0.0, 1.0 - gross), CASH_SCALE)
  }

  function Assembled(exchange: string, ps: seq<TargetPosition>, reasons: map<string, string>): PortfolioTarget {
    var gross := Gross(ps);
    if gross > 1.0 then PortfolioTarget(exchange, ScaledDown(ps, 1.0 / gross), Cash(1.0), 1.0, reasons)
    else PortfolioTarget(exchange, ps, Cash(gross), gross, reasons)
  }

  function Positions(e: Settings, s: Selection, riskLevel: int): (r: seq<TargetPosition>)
    ensures |r| == |s.retained| + |s.picked|
  {
    Capped(e, RetainedTargets(s.retained), s.picked,
           Shares(RawWeights(BaseWeight(riskLevel), s.picked), Available(e, |s.retained|)))
  }

  function Target(e: Settings, exchange: string, ds: seq<TradingDecision>, open: seq<string>, riskLevel: int): PortfolioTarget {
    var s := Selected(e, ds, open);
    if |s.retained| == 0 && |s.picked| == 0 then PortfolioTarget(exchange, [], 1.0, 0.0, s.reasons)
    else Assembled(exchange, Positions(e, s, riskLevel), s.reasons)
  }

  // ---------- the engine's loops ----------

  method AdjustDecisions(e: Settings, ds: seq<TradingDecision>) returns (adjusted: seq<TradingDecision>)
    ensures adjusted == AllAdjusted(e, ds)
  {
    adjusted := [];
    for i := 0 to |ds|
      invariant adjusted == AllAdjusted(e, ds[..i])
    {
      var d := ds[i];
      if d.regime.Some? {
        if d.regime.value == BEAR_TREND && d.action == CONSIDER_LONG {
          if d.symbol !in e.top10 {
            d := d.(confidence := 0.0);
          }
        }
        if d.regime.value == BULL_TREND && d.symbol in e.memes {
          d := d.(confidence := Min(0.99, d.confidence + 0.15));
        }
        if d.regime.value == SIDEWAYS && (d.symbol in e.aiHype || d.symbol in e.layer1) {
          d := d.(confidence := Min(0.99, d.confidence + 0.10));
        }
      }
      adjusted := adjusted + [d];
    }
    assert ds[..|ds|] == ds;
  }

  lemma ExcludingAppend(symbols: seq<string>, s: string, gone: set<string>)
    ensures Excluding(symbols + [s], gone) == Excluding(symbols, gone) + if s in gone then [] else [s]
  {
    assert (symbols + [s])[..|symbols|] == symbols;
  }

  lemma {:induction false} ExcludingTwice(symbols: seq<string>, gone: set<string>, more: set<string>)
    ensures Excluding(Excluding(symbols, gone), more) == Excluding(symbols, gone + more)
  {
    if |symbols| > 0 {
      var init, last := symbols[..|symbols| - 1], symbols[|symbols| - 1];
      ExcludingTwice(init, gone, more);
      hide Excluding;
      assert init + [last] == symbols;
      ExcludingAppend(init, last, gone);
      ExcludingAppend(init, last, gone + more);
      ExcludingAppend(Excluding(init, gone), last, more);
      assert last in gone ==> Excluding(init, gone) + [] == Excluding(init, gone);
    }
  }

  lemma {:induction false} ExcludingNone(symbols: seq<string>)
    ensures Excluding(symbols, {}) == symbols
  {
    if |symbols| > 0 { ExcludingNone(symbols[..|symbols| - 1]); }
  }

  lemma SymbolsAppend(scored: seq<Scored>, last: Scored)
    ensures Symbols(scored + [last]) == Symbols(scored) + {last.symbol}
  {
    var longer := scored + [last];
    assert longer[|scored|] == last;
    forall i | 0 <= i < |scored| ensures longer[i].symbol in Symbols(longer) && longer[i] == scored[i] {
    }
  }

  lemma {:induction false} PickedAll(cands: seq<TradingDecision>, scored: seq<Scored>, i: nat)
    requires i <= |cands| && |Picked(cands[..i], scored)| == |scored|
    ensures Picked(cands, scored) == Picked(cands[..i], scored)
  {
    if i == |cands| {
      assert cands[..i] == cands;
    } else {
      assert cands[..|cands| - 1][..i] == cands[..i];
      PickedAll(cands[..|cands| - 1], scored, i);
    }
  }

  lemma PickedNext(cands: seq<TradingDecision>, scored: seq<Scored>, i: nat)
    requires i < |cands|
    ensures var before := Picked(cands[..i], scored);
            Picked(cands[..i + 1], scored)
            == if |before| < |scored| && Strength(cands[i]) > scored[|before|].score + REPLACEMENT_MARGIN
               then before + [cands[i]] else before
  {
    assert cands[..i + 1][..i] == cands[..i];
  }

  lemma ReasonsNext(picked: seq<TradingDecision>, scored: seq<Scored>, c: TradingDecision)
    requires |picked| < |scored|
    ensures ReplacementReasons(picked + [c], scored)
            == ReplacementReasons(picked, scored)[scored[|picked|].symbol := Message(c)]
  {
    assert (picked + [c])[..|picked|] == picked;
  }

  lemma WeakestLeaves(symbols: seq<string>, scored: seq<Scored>, n: nat)
    requires n < |scored|
    ensures Excluding(Excluding(symbols, Symbols(scored[..n])), {scored[n].symbol})
            == Excluding(symbols, Symbols(scored[..n + 1]))
    ensures scored[n..][1..] == scored[n + 1..]
  {
    SymbolsAppend(scored[..n], scored[n]);
    assert scored[..n] + [scored[n]] == scored[..n + 1];
    ExcludingTwice(symbols, Symbols(scored[..n]), {scored[n].symbol});
  }

  lemma NothingReplaced(cands: seq<TradingDecision>, scored: seq<Scored>, symbols: seq<string>)
    ensures Picked(cands[..0], scored) == [] && ReplacementReasons([], scored) == map[]
    ensures Excluding(symbols, Symbols(scored[..0])) == symbols
  {
    assert Symbols(scored[..0]) == {};
    ExcludingNone(symbols);
  }

  /** The replacement loop: the weakest retained symbol stands first. */
  method ReplaceWeakest(cands: seq<TradingDecision>, retainedScores: seq<Scored>, symbols: seq<string>)
      returns (retained: seq<string>, picked: seq<TradingDecision>, reasons: map<string, string>)
    ensures picked == Picked(cands, retainedScores)
    ensures retained == Excluding(symbols, Symbols(retainedScores[..|picked|]))
    ensures reasons == ReplacementReasons(picked, retainedScores)
  {
    hide *;
    var scores := retainedScores;
    retained, picked, reasons := symbols, [], map[];
    NothingReplaced(cands, retainedScores, symbols);
    for i := 0 to |cands|
      invariant picked == Picked(cands[..i], retainedScores)
      invariant scores == retainedScores[|picked|..]
      invariant retained == Excluding(symbols, Symbols(retainedScores[..|picked|]))
      invariant reasons == ReplacementReasons(picked, retainedScores)
    {
      if |scores| == 0 {
        PickedAll(cands, retainedScores, i);
        return;
      }
      PickedNext(cands, retainedScores, i);
      var weakest := scores[0];
      if Strength(cands[i]) > weakest.score + REPLACEMENT_MARGIN {
        ReasonsNext(picked, retainedScores, cands[i]);
        WeakestLeaves(symbols, retainedScores, |picked|);
        scores := scores[1..];
        retained := Excluding(retained, {weakest.symbol});
        picked := picked + [cands[i]];
        reasons := reasons[weakest.symbol := Message(cands[i])];
      }
    }
    assert cands[..|cands|] == cands;
  }

  lemma SharesNext(base: real, selected: seq<TradingDecision>, available: real, i: nat)
    requires i < |selected|
    ensures var raws := RawWeights(base, selected);
            && Shares(raws, available)[i] == Min(RawWeight(base, selected[i].confidence), Left(raws[..i], available))
            && Left(raws[..i + 1], available) == Max(0.0, Left(raws[..i], available) - Shares(raws, available)[i])
  {
    assert RawWeights(base, selected)[..i + 1][..i] == RawWeights(base, selected)[..i];
  }

  lemma NothingShared(raws: seq<real>, available: real)
    ensures Left(raws[..0], available) == available
  {
  }

  /** The allocation loop. */
  method Allocate(selected: seq<TradingDecision>, base: real, exposure: real) returns (shares: seq<real>)
    ensures shares == Shares(RawWeights(base, selected), exposure)
  {
    hide *;
    ghost var raws := RawWeights(base, selected);
    var available := exposure;
    shares := [];
    NothingShared(raws, exposure);
    for i := 0 to |selected|
      invariant |shares| == i && shares == Shares(raws, exposure)[..i]
      invariant available == Left(raws[..i], exposure)
    {
      var rawWeight := RawWeight(base, selected[i].confidence);
      var targetWeight := Min(rawWeight, available);
      SharesNext(base, selected, exposure, i);
      available := Max(0.0, available - targetWeight);
      shares := shares + [targetWeight];
    }
  }

  /** Scales every weight, one position after the other. */
  method ScaleDown(ps: seq<TargetPosition>, scale: real) returns (scaled: seq<TargetPosition>)
    ensures scaled == ScaledDown(ps, scale)
  {
    scaled := ps;
    for i := 0 to |ps|
      invariant |scaled| == |ps|
      invariant scaled == ScaledDown(ps[..i], scale) + ps[i..]
    {
      scaled := scaled[i := scaled[i].(weight := Times(scaled[i].weight, scale))];
    }
  }

  method BuildTargetPortfolio(e: Settings, exchange: string, ds: seq<TradingDecision>, open: seq<string>, riskLevel: int)
      returns (target: PortfolioTarget)
    ensures target == Target(e, exchange, ds, open, riskLevel)
  {
    hide Candidates, CloseReasons, Excluding, BaseWeight, Shares, ScaledDown, Capped, Picked, ReplacementReasons, Gross, Cash;
    var retained := Excluding(open, CloseReasons(ds).Keys);
    var reasons := CloseReasons(ds);
    var adjusted := AdjustDecisions(e, ds);
    var candidates := Sort(Candidates(e, retained, adjusted), RanksBefore);
    var slots := Slots(e, retained, candidates);
    var selected := candidates[..slots];
    var remaining := candidates[slots..];
    if |remaining| > 0 && |retained| >= e.maxPositions {
      var scores := Sort(Scores(adjusted, retained), Weaker);
      var kept, picked, replaced := ReplaceWeakest(remaining, scores, retained);
      retained := kept;
      selected := selected + picked;
      reasons := reasons + replaced;
    }
    assert Selection(retained, selected, reasons) == Selected(e, ds, open);
    if |retained| == 0 && |selected| == 0 {
      return PortfolioTarget(exchange, [], 1.0, 0.0, reasons);
    }
    var shares := Allocate(selected, BaseWeight(riskLevel), Available(e, |retained|));
    var positions := Capped(e, RetainedTargets(retained), selected, shares);
    var gross := Gross(positions);
    if gross > 1.0 {
      positions := ScaleDown(positions, 1.0 / gross);
      gross := 1.0;
    }
    target := PortfolioTarget(exchange, positions, Cash(gross), gross, reasons);
  }
}
