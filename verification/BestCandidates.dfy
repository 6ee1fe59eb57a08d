/**
 Which decisions a portfolio target opens, in terms of the decisions themselves: their regimes, confidences and scores,
 what is open, and the settings.
 */
module BestCandidates {
  import opened Bounds
  import opened Decisions
  import opened Options
  import opened PortfolioEngine
  import opened PortfolioReplacement
  import opened PositionTable
  import opened Rounding
  import opened Sorting
  import opened Targets

  // ---------- what counts ----------

  /** Confidence in the regime of the market: longs outside the top ten count for nothing in a bear trend, memes for
      0.15 more in a bull trend, AI and layer-1 coins for 0.10 more in a sideways market. */
  function Conviction(e: Settings, d: TradingDecision): real {
    var boost := if d.regime == Some(BULL_TREND) && d.symbol in e.memes then 0.15
                 else if d.regime == Some(SIDEWAYS) && d.symbol in e.aiHype + e.layer1 then 0.10 else 0.0;
    if d.regime == Some(BEAR_TREND) && d.action == CONSIDER_LONG && d.symbol !in e.top10 then 0.0
    else if boost == 0.0 then d.confidence
    else if d.confidence + boost < 0.99 then d.confidence + boost else 0.99
  }

  function Judged(e: Settings, d: TradingDecision): TradingDecision {
    d.(confidence := Conviction(e, d))
  }

  predicate ToldToClose(ds: seq<TradingDecision>, symbol: string) {
    exists i :: 0 <= i < |ds| && ds[i].symbol == symbol && (ds[i].action == CLOSE_LONG || ds[i].action == CLOSE_SHORT)
  }

  /** What is open and not told to close, in the order given. */
  function Held(ds: seq<TradingDecision>, open: seq<string>): seq<string> {
    if |open| == 0 then []
    else
      var last := open[|open| - 1];
      Held(ds, open[..|open| - 1]) + if ToldToClose(ds, last) then [] else [last]
  }

  predicate Eligible(e: Settings, held: seq<string>, d: TradingDecision) {
    && (d.action == CONSIDER_LONG || d.action == CONSIDER_SHORT)
    && Conviction(e, d) >= e.minConfidence && d.finalScore > 0.0 && d.symbol !in held
  }

  /** The eligible decisions, with the confidence they count for. */
  function EligibleOnes(e: Settings, held: seq<string>, ds: seq<TradingDecision>): seq<TradingDecision> {
    if |ds| == 0 then []
    else
      var last := ds[|ds| - 1];
      EligibleOnes(e, held, ds[..|ds| - 1]) + if Eligible(e, held, last) then [Judged(e, last)] else []
  }

  /** More confidence, or as much of it and at least the score. */
  predicate NoWorse(x: TradingDecision, y: TradingDecision) {
    x.confidence > y.confidence || (x.confidence == y.confidence && x.finalScore >= y.finalScore)
  }

  predicate BestFirst(picked: seq<TradingDecision>) {
    forall k, l | 0 <= k < l < |picked| :: NoWorse(picked[k], picked[l])
  }

  /** The score of a held symbol: its last decision's score times what its confidence counts for, or 0.15. */
  function Standing(e: Settings, ds: seq<TradingDecision>, symbol: string): real {
    if |ds| == 0 then 0.15
    else
      var last := ds[|ds| - 1];
      if last.symbol == symbol then Times(last.finalScore, Conviction(e, last)) else Standing(e, ds[..|ds| - 1], symbol)
  }

  /** Position i of the target opens the decision, for what it asks. */
  predicate Opens(p: TargetPosition, d: TradingDecision) {
    && p.symbol == d.symbol && p.side == (if d.action == CONSIDER_LONG then LONG else SHORT)
    && p.confidence == d.confidence && p.finalScore == d.finalScore
    && p.overrideStop == d.overrideStop && p.overrideTarget == d.overrideTarget
  }

  // ---------- the engine's terms ----------

  lemma AdjustedIsJudged(e: Settings, d: TradingDecision)
    ensures Adjusted(e, d) == Judged(e, d)
  {
  }

  lemma {:induction false} ToldIffReason(ds: seq<TradingDecision>, symbol: string)
    ensures ToldToClose(ds, symbol) <==> symbol in CloseReasons(ds)
  {
    if |ds| > 0 {
      var init := ds[..|ds| - 1];
      ToldIffReason(init, symbol);
      assert ds[|ds| - 1] == ds[|init|];
      if ToldToClose(init, symbol) {
        var i :| 0 <= i < |init| && init[i].symbol == symbol && (init[i].action == CLOSE_LONG || init[i].action == CLOSE_SHORT);
        assert ds[i] == init[i];
      }
    }
  }

  lemma {:induction false} RetainedIsHeld(ds: seq<TradingDecision>, open: seq<string>)
    ensures Retained(ds, open) == Held(ds, open)
  {
    if |open| > 0 {
      RetainedIsHeld(ds, open[..|open| - 1]);
      ToldIffReason(ds, open[|open| - 1]);
    }
  }

  lemma {:induction false} CandidatesAre(e: Settings, held: seq<string>, ds: seq<TradingDecision>)
    ensures Candidates(e, held, AllAdjusted(e, ds)) == EligibleOnes(e, held, ds)
  {
    hide Adjusted, Conviction;
    var all := AllAdjusted(e, ds);
    if |ds| > 0 {
      var init := ds[..|ds| - 1];
      assert all[..|all| - 1] == AllAdjusted(e, init);
      CandidatesAre(e, held, init);
      AdjustedIsJudged(e, ds[|ds| - 1]);
    }
  }

  lemma {:induction false} ScoreIsStanding(e: Settings, ds: seq<TradingDecision>, symbol: string)
    ensures ScoreOf(AllAdjusted(e, ds), symbol) == Standing(e, ds, symbol)
  {
    hide Adjusted, Conviction, Times;
    var all := AllAdjusted(e, ds);
    if |ds| > 0 {
      assert all[..|all| - 1] == AllAdjusted(e, ds[..|ds| - 1]);
      ScoreIsStanding(e, ds[..|ds| - 1], symbol);
      AdjustedIsJudged(e, ds[|ds| - 1]);
    }
  }

  lemma RankingRanks()
    ensures TotalPreorder(RanksBefore)
    ensures forall x, y :: RanksBefore(x, y) <==> NoWorse(x, y)
  {
  }

  /** The ranked candidates are the eligible decisions, best first. */
  lemma RankedAre(e: Settings, ds: seq<TradingDecision>, held: seq<string>)
    ensures BestFirst(Ranked(e, ds, held))
    ensures multiset(Ranked(e, ds, held)) == multiset(EligibleOnes(e, held, ds))
    ensures |Ranked(e, ds, held)| == |EligibleOnes(e, held, ds)|
  {
    hide Adjusted, IsCandidate, Eligible, RanksBefore, NoWorse;
    CandidatesAre(e, held, ds);
    RankingRanks();
    SortSorts(Candidates(e, held, AllAdjusted(e, ds)), RanksBefore);
    var ranked := Ranked(e, ds, held);
    forall k, l | 0 <= k < l < |ranked| ensures NoWorse(ranked[k], ranked[l]) {
      assert RanksBefore(ranked[k], ranked[l]);
    }
  }

  // ---------- the target's positions ----------

  lemma PositionsOpenPicked(e: Settings, exchange: string, ds: seq<TradingDecision>, open: seq<string>, riskLevel: int)
    ensures var s, ps := Selected(e, ds, open), Target(e, exchange, ds, open, riskLevel).positions;
            && |ps| == |s.retained| + |s.picked|
            && (forall k | 0 <= k < |s.retained| :: ps[k].symbol == s.retained[k] && ps[k].side == LONG)
            && (forall k | 0 <= k < |s.picked| :: Opens(ps[|s.retained| + k], s.picked[k]))
  {
    hide Selected, BaseWeight, Gross, Cash, Left, Times, GroupWeight, Weight;
  }

  lemma SelectedWhenFree(e: Settings, ds: seq<TradingDecision>, open: seq<string>)
    requires |Retained(ds, open)| < e.maxPositions
    ensures var s, retained := Selected(e, ds, open), Retained(ds, open);
            var ranked := Ranked(e, ds, retained);
            && s.retained == retained
            && s.picked == ranked[..Min(e.maxPositions - |retained|, |ranked|)]
  {
    hide Ranked, Retained, CloseReasons;
  }

  function Min(a: int, b: nat): (r: nat)
    requires a >= 0
  {
    if a < b then a else b
  }

  /** With slots free, the target keeps what is held and opens the best of the eligible decisions, best first: as many
      as there are slots or eligible ones, and none passed over is better than one that is opened. */
  lemma BestAreOpened(e: Settings, exchange: string, ds: seq<TradingDecision>, open: seq<string>, riskLevel: int)
      returns (picked: seq<TradingDecision>, rest: seq<TradingDecision>)
    requires |Held(ds, open)| < e.maxPositions
    ensures var held, ps := Held(ds, open), Target(e, exchange, ds, open, riskLevel).positions;
            && |ps| == |held| + |picked|
            && (forall k | 0 <= k < |held| :: ps[k].symbol == held[k] && ps[k].side == LONG)
            && (forall k | 0 <= k < |picked| :: Opens(ps[|held| + k], picked[k]))
            && BestFirst(picked)
            && multiset(picked) + multiset(rest) == multiset(EligibleOnes(e, held, ds))
            && |picked| == Min(e.maxPositions - |held|, |EligibleOnes(e, held, ds)|)
            && (forall k, l | 0 <= k < |picked| && 0 <= l < |rest| :: NoWorse(picked[k], rest[l]))
  {
    hide Selected, Target, Ranked, NoWorse, Opens, EligibleOnes, Held, Retained;
    RetainedIsHeld(ds, open);
    var held := Held(ds, open);
    SelectedWhenFree(e, ds, open);
    PositionsOpenPicked(e, exchange, ds, open, riskLevel);
    RankedAre(e, ds, held);
    var ranked := Ranked(e, ds, held);
    var n := Min(e.maxPositions - |held|, |ranked|);
    picked, rest := ranked[..n], ranked[n..];
    assert ranked == picked + rest;
  }

  // ---------- a full account ----------

  lemma {:induction false} PickedIsPrefix(cands: seq<TradingDecision>, scored: seq<Scored>, i: nat)
    requires i <= |cands|
    ensures Picked(cands[..i], scored) <= Picked(cands, scored)
  {
    if i == |cands| {
      assert cands[..i] == cands;
    } else {
      assert cands[..|cands| - 1][..i] == cands[..i];
      PickedIsPrefix(cands[..|cands| - 1], scored, i);
    }
  }

  lemma {:induction false} PickedIndex(cands: seq<TradingDecision>, scored: seq<Scored>, k: nat) returns (j: nat)
    requires k < |Picked(cands, scored)|
    ensures j < |cands| && cands[j] == Picked(cands, scored)[k]
  {
    var n := |cands| - 1;
    var before := Picked(cands[..n], scored);
    if k < |before| { j := PickedIndex(cands[..n], scored, k); } else { j := n; }
  }

  lemma {:induction false} PickedAreAmong(cands: seq<TradingDecision>, scored: seq<Scored>)
    ensures multiset(Picked(cands, scored)) <= multiset(cands)
  {
    hide Strength;
    if |cands| > 0 {
      var n := |cands| - 1;
      PickedAreAmong(cands[..n], scored);
      assert cands == cands[..n] + [cands[n]];
    }
  }

  /** What is picked by turn i is no worse than the candidate whose turn it is. */
  lemma PickedAheadOf(cands: seq<TradingDecision>, scored: seq<Scored>, i: nat, k: nat)
    requires BestFirst(cands) && i < |cands| && k < |Picked(cands[..i], scored)|
    ensures k < |Picked(cands, scored)| && NoWorse(Picked(cands, scored)[k], cands[i])
  {
    hide NoWorse, Picked;
    PickedIsPrefix(cands, scored, i);
    var j := PickedIndex(cands[..i], scored, k);
    assert cands[..i][j] == cands[j];
  }

  lemma {:induction false} PickedBestFirst(cands: seq<TradingDecision>, scored: seq<Scored>)
    requires BestFirst(cands)
    ensures BestFirst(Picked(cands, scored))
  {
    hide NoWorse, Strength;
    if |cands| > 0 {
      var n := |cands| - 1;
      var before := Picked(cands[..n], scored);
      PickedBestFirst(cands[..n], scored);
      forall k | 0 <= k < |before| ensures NoWorse(before[k], cands[n]) {
        var j := PickedIndex(cands[..n], scored, k);
        assert cands[..n][j] == cands[j];
      }
    }
  }

  /** A candidate stronger than the weakest symbol left is picked at its turn. */
  lemma TurnPicks(cands: seq<TradingDecision>, scored: seq<Scored>, i: nat)
    requires i < |cands|
    ensures var m := |Picked(cands[..i], scored)|;
            m < |scored| && Strength(cands[i]) > scored[m].score + 0.10 ==> cands[i] in Picked(cands, scored)
  {
    hide Strength;
    PickedIsPrefix(cands, scored, i + 1);
    assert cands[..i + 1][..i] == cands[..i];
    var taken := Picked(cands[..i], scored) + [cands[i]];
    assert taken[|taken| - 1] == cands[i];
  }

  /** A candidate that ranks ahead of a picked one and was passed over did not beat the symbol that one replaces. */
  lemma BetterPassedOver(cands: seq<TradingDecision>, scored: seq<Scored>, c: TradingDecision, k: nat)
    requires BestFirst(cands) && SortedBy(scored, Weaker) && k < |Picked(cands, scored)|
    requires c in cands && c !in Picked(cands, scored) && !NoWorse(Picked(cands, scored)[k], c)
    ensures Strength(c) <= scored[k].score + 0.10
  {
    hide NoWorse, Strength, Picked;
    var i :| 0 <= i < |cands| && cands[i] == c;
    var m := |Picked(cands[..i], scored)|;
    if k < m { PickedAheadOf(cands, scored, i, k); }
    TurnPicks(cands, scored, i);
    assert m < k ==> Weaker(scored[m], scored[k]);
  }

  predicate GivesReason(target: PortfolioTarget, symbol: string, reason: string) {
    symbol in target.closeReasons && target.closeReasons[symbol] == reason
  }

  function SymbolsOf(scored: seq<Scored>): (r: seq<string>)
    ensures |r| == |scored|
  {
    seq(|scored|, i requires 0 <= i < |scored| => scored[i].symbol)
  }

  function Force(d: TradingDecision): real {
    Times(d.finalScore, d.confidence)
  }

  lemma FullSelection(e: Settings, ds: seq<TradingDecision>, open: seq<string>)
    requires Distinct(open) && |Held(ds, open)| >= e.maxPositions
    ensures var s, held, replaced := Selected(e, ds, open), Held(ds, open), Replaced(e, ds, open);
            && NoSlotFree(e, ds, open) && Retained(ds, open) == held
            && s.picked == Picked(Ranked(e, ds, held), WeakestFirst(e, ds, held))
            && |replaced| == |s.picked| && |s.retained| == |held| - |replaced|
            && replaced == WeakestFirst(e, ds, held)[..|replaced|] && SortedBy(WeakestFirst(e, ds, held), Weaker)
            && (forall k | 0 <= k < |replaced| ::
                  && replaced[k].symbol in held && replaced[k].symbol !in s.retained
                  && replaced[k].score == Standing(e, ds, replaced[k].symbol)
                  && Force(s.picked[k]) > replaced[k].score + 0.10)
            && (forall k, kept | 0 <= k < |replaced| && kept in s.retained :: replaced[k].score <= Standing(e, ds, kept))
  {
    hide Selected, Ranked, WeakestFirst, Retained, Held, AllAdjusted, ScoreOf, Standing, Times;
    RetainedIsHeld(ds, open);
    WeakestAreReplaced(e, ds, open);
    SelectedWhenFull(e, ds, open);
    ScoresReflect(e, ds, open);
    forall symbol ensures ScoreOf(AllAdjusted(e, ds), symbol) == Standing(e, ds, symbol) {
      ScoreIsStanding(e, ds, symbol);
    }
  }

  /** With no slot free, eligible decisions take the places of the weakest held symbols, best first: the k-th weakest
      goes to one that beats its standing by more than 0.10.  No symbol kept is weaker than one that goes; no eligible
      decision left out beats one that is kept by more than the margin, nor, if it ranks ahead of one that is opened,
      the symbol whose place that one takes. */
  lemma StrongerReplaceWeakest(e: Settings, exchange: string, ds: seq<TradingDecision>, open: seq<string>, riskLevel: int)
      returns (picked: seq<TradingDecision>, replaced: seq<string>, kept: seq<string>)
    requires Distinct(open) && |Held(ds, open)| >= e.maxPositions
    ensures var held, ps := Held(ds, open), Target(e, exchange, ds, open, riskLevel).positions;
            && |picked| == |replaced| && |kept| == |held| - |replaced| && |ps| == |kept| + |picked|
            && (forall k | 0 <= k < |kept| :: ps[k].symbol == kept[k] && ps[k].side == LONG)
            && (forall k | 0 <= k < |picked| :: Opens(ps[|kept| + k], picked[k]))
            && BestFirst(picked) && multiset(picked) <= multiset(EligibleOnes(e, held, ds))
            && (forall k | 0 <= k < |replaced| ::
                  && replaced[k] in held && replaced[k] !in kept
                  && Force(picked[k]) > Standing(e, ds, replaced[k]) + 0.10
                  && GivesReason(Target(e, exchange, ds, open, riskLevel), replaced[k],
                                 "REPLACED_BY_STRONGER_SIGNAL: Replaced by " + picked[k].symbol))
            && (forall k, l | 0 <= k < l < |replaced| :: Standing(e, ds, replaced[k]) <= Standing(e, ds, replaced[l]))
            && (forall k, symbol | 0 <= k < |replaced| && symbol in kept :: Standing(e, ds, replaced[k]) <= Standing(e, ds, symbol))
            && (forall d | d in EligibleOnes(e, held, ds) && d !in picked ::
                  && (forall symbol | symbol in kept :: Force(d) <= Standing(e, ds, symbol) + 0.10)
                  && (forall k | 0 <= k < |picked| && !NoWorse(picked[k], d) :: Force(d) <= Standing(e, ds, replaced[k]) + 0.10))
  {
    hide Selected, Target, Ranked, WeakestFirst, NoWorse, Opens, EligibleOnes, Held, Retained, Picked, Standing, Force, Replaced,
         AllAdjusted, ScoreOf, Weaker;
    var held, s := Held(ds, open), Selected(e, ds, open);
    var ranked, scored := Ranked(e, ds, held), WeakestFirst(e, ds, held);
    FullSelection(e, ds, open);
    PositionsOpenPicked(e, exchange, ds, open, riskLevel);
    RankedAre(e, ds, held);
    picked, kept, replaced := s.picked, s.retained, SymbolsOf(Replaced(e, ds, open));
    forall k | 0 <= k < |replaced|
      ensures GivesReason(Target(e, exchange, ds, open, riskLevel), replaced[k],
                          "REPLACED_BY_STRONGER_SIGNAL: Replaced by " + picked[k].symbol)
    {
      ReasonsGoWithCloses(e, exchange, ds, open, riskLevel, replaced[k]);
    }
    PickedBestFirst(ranked, scored);
    PickedAreAmong(ranked, scored);
    StandingsRise(e, ds, Replaced(e, ds, open), scored);
    forall d | d in EligibleOnes(e, held, ds) && d !in picked
      ensures forall symbol | symbol in kept :: Force(d) <= Standing(e, ds, symbol) + 0.10
      ensures forall k | 0 <= k < |picked| && !NoWorse(picked[k], d) :: Force(d) <= Standing(e, ds, replaced[k]) + 0.10
    {
      LeftOutStayBehind(e, ds, open, d);
    }
  }

  lemma LeftOutStayBehind(e: Settings, ds: seq<TradingDecision>, open: seq<string>, d: TradingDecision)
    requires Distinct(open) && |Held(ds, open)| >= e.maxPositions
    requires d in EligibleOnes(e, Held(ds, open), ds) && d !in Selected(e, ds, open).picked
    ensures var s, replaced := Selected(e, ds, open), Replaced(e, ds, open);
            && |replaced| == |s.picked|
            && (forall symbol | symbol in s.retained :: Force(d) <= Standing(e, ds, symbol) + 0.10)
            && (forall k | 0 <= k < |s.picked| && !NoWorse(s.picked[k], d) ::
                  Force(d) <= Standing(e, ds, replaced[k].symbol) + 0.10)
  {
    hide Selected, Ranked, WeakestFirst, NoWorse, EligibleOnes, Held, Retained, Picked, Standing, Force, Replaced,
         AllAdjusted, ScoreOf, Weaker;
    var held, s := Held(ds, open), Selected(e, ds, open);
    var ranked, scored := Ranked(e, ds, held), WeakestFirst(e, ds, held);
    FullSelection(e, ds, open);
    RankedAre(e, ds, held);
    ForceIsStrength(d);
    assert d in multiset(ranked);
    forall symbol | symbol in s.retained ensures Force(d) <= Standing(e, ds, symbol) + 0.10 {
      PassedOverStayBehind(e, ds, open, d, symbol);
      ScoreIsStanding(e, ds, symbol);
    }
    forall k | 0 <= k < |s.picked| && !NoWorse(s.picked[k], d) ensures Force(d) <= Replaced(e, ds, open)[k].score + 0.10 {
      BetterPassedOver(ranked, scored, d, k);
      assert Replaced(e, ds, open)[k] == scored[k];
    }
  }

  lemma ForceIsStrength(d: TradingDecision)
    ensures Force(d) == Strength(d)
  {
  }

  lemma StandingsRise(e: Settings, ds: seq<TradingDecision>, replaced: seq<Scored>, scored: seq<Scored>)
    requires |replaced| <= |scored| && replaced == scored[..|replaced|] && SortedBy(scored, Weaker)
    requires forall k | 0 <= k < |replaced| :: replaced[k].score == Standing(e, ds, replaced[k].symbol)
    ensures forall k, l | 0 <= k < l < |replaced| ::
              Standing(e, ds, replaced[k].symbol) <= Standing(e, ds, replaced[l].symbol)
  {
    hide Standing;
    forall k, l | 0 <= k < l < |replaced| ensures replaced[k].score <= replaced[l].score {
      assert Weaker(scored[k], scored[l]);
    }
  }

  // ---------- close reasons ----------

  /** The reason of the last decision that tells a symbol to close. */
  function ReasonGiven(ds: seq<TradingDecision>, symbol: string): Option<string> {
    if |ds| == 0 then None
    else
      var last := ds[|ds| - 1];
      if last.symbol == symbol && (last.action == CLOSE_LONG || last.action == CLOSE_SHORT) then Some(last.reason)
      else ReasonGiven(ds[..|ds| - 1], symbol)
  }

  lemma {:induction false} ReasonsAreGiven(ds: seq<TradingDecision>, symbol: string)
    ensures symbol in CloseReasons(ds) <==> ReasonGiven(ds, symbol).Some?
    ensures symbol in CloseReasons(ds) ==> CloseReasons(ds)[symbol] == ReasonGiven(ds, symbol).value
  {
    if |ds| > 0 { ReasonsAreGiven(ds[..|ds| - 1], symbol); }
  }

  lemma {:induction false} ReplacementReasonAt(picked: seq<TradingDecision>, scored: seq<Scored>, symbol: string)
    requires |picked| <= |scored| && OneScoreEach(scored)
    ensures symbol in ReplacementReasons(picked, scored) <==> exists k :: 0 <= k < |picked| && scored[k].symbol == symbol
    ensures forall k | 0 <= k < |picked| && scored[k].symbol == symbol ::
              symbol in ReplacementReasons(picked, scored)
              && ReplacementReasons(picked, scored)[symbol] == "REPLACED_BY_STRONGER_SIGNAL: Replaced by " + picked[k].symbol
  {
    hide OneScoreEach;
    if |picked| > 0 {
      var n := |picked| - 1;
      ReplacementReasonAt(picked[..n], scored, symbol);
      ScoresDiffer(scored, n);
      assert forall k | 0 <= k < n :: picked[..n][k] == picked[k];
    }
  }

  lemma ScoresDiffer(scored: seq<Scored>, n: nat)
    requires OneScoreEach(scored) && n < |scored|
    ensures forall k | 0 <= k < n :: scored[k].symbol != scored[n].symbol
  {
  }

  lemma ReasonsSelected(e: Settings, exchange: string, ds: seq<TradingDecision>, open: seq<string>, riskLevel: int)
    ensures Target(e, exchange, ds, open, riskLevel).closeReasons == Selected(e, ds, open).reasons
  {
    hide Selected, Positions, Gross, Cash;
  }

  lemma ReasonsWhenFull(e: Settings, ds: seq<TradingDecision>, open: seq<string>)
    requires NoSlotFree(e, ds, open)
    ensures var retained := Retained(ds, open);
            var scored := WeakestFirst(e, ds, retained);
            var picked := Picked(Ranked(e, ds, retained), scored);
            Selected(e, ds, open).reasons == CloseReasons(ds) + ReplacementReasons(picked, scored)
  {
    hide Ranked, WeakestFirst, CloseReasons, ReplacementReasons, Excluding;
    var retained := Retained(ds, open);
    var cands, scored := Ranked(e, ds, retained), WeakestFirst(e, ds, retained);
    assert cands[0..] == cands;
    if |cands| == 0 { NoReplacement(scored, CloseReasons(ds)); }
  }

  lemma NoReplacement(scored: seq<Scored>, reasons: map<string, string>)
    ensures reasons + ReplacementReasons([], scored) == reasons
  {
  }

  /** The target's reasons for closing: for a symbol replaced in this construction, the decision that takes its place;
      for any other told to close, the reason of the last decision that tells it so; and none else. */
  lemma ReasonsGoWithCloses(e: Settings, exchange: string, ds: seq<TradingDecision>, open: seq<string>, riskLevel: int,
                            symbol: string)
    requires Distinct(open)
    ensures var reasons, replaced := Target(e, exchange, ds, open, riskLevel).closeReasons, Replaced(e, ds, open);
            && |replaced| <= |Selected(e, ds, open).picked|
            && (forall k | 0 <= k < |replaced| && replaced[k].symbol == symbol ::
                  && symbol in reasons
                  && reasons[symbol] == "REPLACED_BY_STRONGER_SIGNAL: Replaced by " + Selected(e, ds, open).picked[k].symbol)
            && ((forall k | 0 <= k < |replaced| :: replaced[k].symbol != symbol) ==>
                  && (symbol in reasons <==> ReasonGiven(ds, symbol).Some?)
                  && (symbol in reasons ==> reasons[symbol] == ReasonGiven(ds, symbol).value))
  {
    hide Ranked, WeakestFirst, CloseReasons, ReplacementReasons, Retained, ReasonGiven, Target, Selected, Picked;
    ReasonsSelected(e, exchange, ds, open, riskLevel);
    ReasonsAreGiven(ds, symbol);
    if NoSlotFree(e, ds, open) {
      ReasonsWhenFull(e, ds, open);
      SelectedWhenFull(e, ds, open);
      ScoresReflect(e, ds, open);
      var retained := Retained(ds, open);
      var scored := WeakestFirst(e, ds, retained);
      ReplacementReasonAt(Picked(Ranked(e, ds, retained), scored), scored, symbol);
    } else {
      ReasonsWhenFree(e, ds, open);
    }
  }

  lemma ReasonsWhenFree(e: Settings, ds: seq<TradingDecision>, open: seq<string>)
    requires !NoSlotFree(e, ds, open)
    ensures Selected(e, ds, open).reasons == CloseReasons(ds)
  {
    hide Ranked, Retained, CloseReasons;
  }
}
