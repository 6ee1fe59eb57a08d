/** Which symbols a portfolio target keeps, replaces and opens. */
module PortfolioReplacement {
  import opened Rounding
  import opened PositionTable
  import opened Decisions
  import opened Sorting
  import opened PortfolioEngine

  // ---------- replacement ----------

  predicate Distinct<T(==)>(s: seq<T>) {
    forall i, j | 0 <= i < j < |s| :: s[i] != s[j]
  }

  lemma {:induction false} PickedBeatsWeakest(cands: seq<TradingDecision>, scored: seq<Scored>)
    ensures var picked := Picked(cands, scored);
            forall k | 0 <= k < |picked| :: picked[k] in cands && Strength(picked[k]) > scored[k].score + REPLACEMENT_MARGIN
  {
    if |cands| > 0 {
      PickedBeatsWeakest(cands[..|cands| - 1], scored);
    }
  }

  lemma {:induction false} PickedGrows(cands: seq<TradingDecision>, scored: seq<Scored>, i: nat)
    requires i <= |cands|
    ensures |Picked(cands[..i], scored)| <= |Picked(cands, scored)|
    ensures forall c :: c in Picked(cands[..i], scored) ==> c in Picked(cands, scored)
  {
    if i == |cands| {
      assert cands[..i] == cands;
    } else {
      assert cands[..|cands| - 1][..i] == cands[..i];
      PickedGrows(cands[..|cands| - 1], scored, i);
    }
  }

  /** The loop stops at no unfinished business: no candidate it passed over beats any symbol it left in place. */
  lemma PassedOverNeverBeats(cands: seq<TradingDecision>, scored: seq<Scored>, c: TradingDecision, j: nat)
    requires SortedBy(scored, Weaker)
    requires c in cands && c !in Picked(cands, scored) && |Picked(cands, scored)| <= j < |scored|
    ensures Strength(c) <= scored[j].score + REPLACEMENT_MARGIN
  {
    var i :| 0 <= i < |cands| && cands[i] == c;
    PickedGrows(cands, scored, i);
    PickedGrows(cands, scored, i + 1);
    assert cands[..i + 1][..i] == cands[..i];
    var before, after := Picked(cands[..i], scored), Picked(cands[..i + 1], scored);
    assert c in before + [c];
    assert after == before;
    assert |before| < j ==> Weaker(scored[|before|], scored[j]);
  }

  // ---------- counting symbols ----------

  lemma {:induction false} DistinctMeansOnce<T>(s: seq<T>)
    ensures Distinct(s) <==> forall x :: multiset(s)[x] <= 1
  {
    if |s| > 0 {
      var init, last := s[..|s| - 1], s[|s| - 1];
      assert s == init + [last];
      DistinctMeansOnce(init);
      assert multiset(init)[last] == 0 <==> last !in init;
      if Distinct(s) {
        assert Distinct(init) && last !in init;
      } else if Distinct(init) {
        assert last in init;
        assert multiset(s)[last] > 1;
      } else {
        var x :| multiset(init)[x] > 1;
        assert multiset(s)[x] > 1;
      }
    }
  }

  lemma {:induction false} ExcludingMembers(symbols: seq<string>, gone: set<string>)
    ensures forall s :: s in Excluding(symbols, gone) <==> s in symbols && s !in gone
  {
    if |symbols| > 0 {
      var init, last := symbols[..|symbols| - 1], symbols[|symbols| - 1];
      ExcludingMembers(init, gone);
      assert symbols == init + [last];
    }
  }

  lemma {:induction false} ExcludingCounts(symbols: seq<string>, gone: set<string>)
    requires Distinct(symbols) && forall s :: s in gone ==> s in symbols
    ensures |Excluding(symbols, gone)| == |symbols| - |gone|
  {
    if |symbols| == 0 {
      assert gone == {};
    } else {
      var init, last := symbols[..|symbols| - 1], symbols[|symbols| - 1];
      ExcludingCounts(init, gone - {last});
      ExcludingOther(init, gone, last);
    }
  }

  lemma {:induction false} ExcludingOther(symbols: seq<string>, gone: set<string>, other: string)
    requires other !in symbols
    ensures Excluding(symbols, gone) == Excluding(symbols, gone - {other})
  {
    if |symbols| > 0 {
      assert symbols[|symbols| - 1] in symbols;
      ExcludingOther(symbols[..|symbols| - 1], gone, other);
    }
  }

  lemma {:induction false} ExcludingKeepsDistinct(symbols: seq<string>, gone: set<string>)
    requires Distinct(symbols)
    ensures Distinct(Excluding(symbols, gone))
  {
    if |symbols| > 0 {
      var init, last := symbols[..|symbols| - 1], symbols[|symbols| - 1];
      ExcludingKeepsDistinct(init, gone);
      ExcludingMembers(init, gone);
      assert last !in init;
    }
  }

  predicate OneScoreEach(scored: seq<Scored>) {
    forall i, j | 0 <= i < j < |scored| :: scored[i].symbol != scored[j].symbol
  }

  lemma {:induction false} SymbolsCount(scored: seq<Scored>)
    requires OneScoreEach(scored)
    ensures |Symbols(scored)| == |scored|
  {
    if |scored| == 0 {
      assert Symbols(scored) == {};
    } else {
      var init, last := scored[..|scored| - 1], scored[|scored| - 1];
      SymbolsCount(init);
      SymbolsAppend(init, last);
      assert init + [last] == scored;
      assert last.symbol !in Symbols(init);
    }
  }

  lemma SameElements<T>(a: seq<T>, b: seq<T>)
    requires multiset(a) == multiset(b)
    ensures forall x :: x in a <==> x in b
    ensures Distinct(a) ==> Distinct(b)
  {
    forall x ensures x in a <==> x in b {
      assert x in a <==> x in multiset(a);
      assert x in b <==> x in multiset(b);
    }
    DistinctMeansOnce(a);
    DistinctMeansOnce(b);
  }

  /** Sorting keeps one entry per retained symbol, each with that symbol's score. */
  lemma ScoredCoverRetained(e: Settings, ds: seq<TradingDecision>, retained: seq<string>)
    requires Distinct(retained)
    ensures Reflects(WeakestFirst(e, ds, retained), retained, AllAdjusted(e, ds))
  {
    hide AllAdjusted, ScoreOf;
    var adjusted := AllAdjusted(e, ds);
    var plain := Scores(adjusted, retained);
    var scored := WeakestFirst(e, ds, retained);
    SortSorts(plain, Weaker);
    assert Distinct(plain);
    SameElements(plain, scored);
    forall i | 0 <= i < |scored|
      ensures scored[i].symbol in retained && scored[i].score == ScoreOf(adjusted, scored[i].symbol)
    {
      assert scored[i] in plain;
    }
    forall i, j | 0 <= i < j < |scored| ensures scored[i].symbol != scored[j].symbol {
      assert scored[i] != scored[j];
    }
    forall s | s in retained ensures Scored(s, ScoreOf(adjusted, s)) in scored {
      var i :| 0 <= i < |retained| && retained[i] == s;
      assert plain[i] in plain;
    }
  }

  /** One entry for each retained symbol, weakest first. */
  predicate Reflects(scored: seq<Scored>, retained: seq<string>, adjusted: seq<TradingDecision>) {
    && OneScoreEach(scored) && SortedBy(scored, Weaker)
    && (forall i | 0 <= i < |scored| :: scored[i].symbol in retained && scored[i].score == ScoreOf(adjusted, scored[i].symbol))
    && (forall s | s in retained :: Scored(s, ScoreOf(adjusted, s)) in scored)
  }

  lemma KeptComesLater(scored: seq<Scored>, n: nat, s: string, score: real)
    requires n <= |scored| && Scored(s, score) in scored && s !in Symbols(scored[..n])
    ensures exists j :: n <= j < |scored| && scored[j] == Scored(s, score)
  {
    var j :| 0 <= j < |scored| && scored[j] == Scored(s, score);
    forall i | 0 <= i < n ensures scored[i].symbol in Symbols(scored[..n]) {
      assert scored[..n][i] == scored[i];
    }
  }

  predicate NoSlotFree(e: Settings, ds: seq<TradingDecision>, open: seq<string>) {
    |Retained(ds, open)| >= e.maxPositions
  }

  /** The replaced symbols, weakest first, one for each picked candidate. */
  function Replaced(e: Settings, ds: seq<TradingDecision>, open: seq<string>): seq<Scored> {
    var retained := Retained(ds, open);
    var scored := WeakestFirst(e, ds, retained);
    if NoSlotFree(e, ds, open) then scored[..|Picked(Ranked(e, ds, retained), scored)|] else []
  }

  lemma SelectedWhenFull(e: Settings, ds: seq<TradingDecision>, open: seq<string>)
    requires NoSlotFree(e, ds, open)
    ensures var s, retained := Selected(e, ds, open), Retained(ds, open);
            && s.picked == Picked(Ranked(e, ds, retained), WeakestFirst(e, ds, retained))
            && s.retained == Excluding(retained, Symbols(Replaced(e, ds, open)))
  {
    hide Ranked, WeakestFirst, CloseReasons, ReplacementReasons, Excluding;
    var retained := Retained(ds, open);
    var cands, scored := Ranked(e, ds, retained), WeakestFirst(e, ds, retained);
    assert cands[0..] == cands && cands[..0] + Picked(cands, scored) == Picked(cands, scored);
    if |cands| == 0 {
      assert Symbols(scored[..0]) == {};
      ExcludingNone(retained);
    }
  }

  lemma ScoresReflect(e: Settings, ds: seq<TradingDecision>, open: seq<string>)
    requires Distinct(open)
    ensures var retained := Retained(ds, open);
            && Distinct(retained)
            && Reflects(WeakestFirst(e, ds, retained), retained, AllAdjusted(e, ds))
  {
    ExcludingKeepsDistinct(open, CloseReasons(ds).Keys);
    hide Retained, WeakestFirst;
    ScoredCoverRetained(e, ds, Retained(ds, open));
  }

  /** Replacement takes nothing but the weakest retained symbols, as many as there are picked candidates; the
      k-th weakest gives way to a candidate stronger by more than the margin; and every symbol kept is at least
      as strong as every one replaced. */
  lemma WeakestAreReplaced(e: Settings, ds: seq<TradingDecision>, open: seq<string>)
    requires Distinct(open) && NoSlotFree(e, ds, open)
    ensures var s, replaced, adjusted := Selected(e, ds, open), Replaced(e, ds, open), AllAdjusted(e, ds);
            && |replaced| == |s.picked| && |s.retained| == |Retained(ds, open)| - |replaced|
            && (forall k | 0 <= k < |replaced| ::
                  && replaced[k].symbol in Retained(ds, open) && replaced[k].symbol !in s.retained
                  && replaced[k].score == ScoreOf(adjusted, replaced[k].symbol)
                  && Strength(s.picked[k]) > replaced[k].score + REPLACEMENT_MARGIN)
            && (forall k, kept | 0 <= k < |replaced| && kept in s.retained :: replaced[k].score <= ScoreOf(adjusted, kept))
  {
    hide Ranked, WeakestFirst, AllAdjusted, Retained, Selected, Strength, ScoreOf;
    SelectedWhenFull(e, ds, open);
    ScoresReflect(e, ds, open);
    var retained, adjusted := Retained(ds, open), AllAdjusted(e, ds);
    var cands, scored := Ranked(e, ds, retained), WeakestFirst(e, ds, retained);
    PickedBeatsWeakest(cands, scored);
    KeptAreStronger(scored, |Picked(cands, scored)|, retained, adjusted);
  }

  lemma KeptAreStronger(scored: seq<Scored>, n: nat, retained: seq<string>, adjusted: seq<TradingDecision>)
    requires Distinct(retained) && Reflects(scored, retained, adjusted) && n <= |scored|
    ensures var kept := Excluding(retained, Symbols(scored[..n]));
            && |kept| == |retained| - n
            && (forall k | 0 <= k < n :: scored[k].symbol !in kept)
            && (forall k, s | 0 <= k < n && s in kept :: scored[k].score <= ScoreOf(adjusted, s))
  {
    hide ScoreOf;
    var gone := Symbols(scored[..n]);
    SymbolsCount(scored[..n]);
    ExcludingCounts(retained, gone);
    ExcludingMembers(retained, gone);
    forall k | 0 <= k < n ensures scored[k].symbol in gone {
      assert scored[..n][k] == scored[k];
    }
    forall k, s | 0 <= k < n && s in Excluding(retained, gone) ensures scored[k].score <= ScoreOf(adjusted, s) {
      KeptComesLater(scored, n, s, ScoreOf(adjusted, s));
      var j :| n <= j < |scored| && scored[j] == Scored(s, ScoreOf(adjusted, s));
      assert Weaker(scored[k], scored[j]);
    }
  }

  /** Nothing is left to replace: no candidate passed over beats a kept symbol by more than the margin. */
  lemma PassedOverStayBehind(e: Settings, ds: seq<TradingDecision>, open: seq<string>, c: TradingDecision, kept: string)
    requires Distinct(open) && NoSlotFree(e, ds, open)
    requires c in Ranked(e, ds, Retained(ds, open)) && c !in Selected(e, ds, open).picked
    requires kept in Selected(e, ds, open).retained
    ensures Strength(c) <= ScoreOf(AllAdjusted(e, ds), kept) + REPLACEMENT_MARGIN
  {
    hide Ranked, WeakestFirst, AllAdjusted, Retained, Selected, Strength, ScoreOf;
    SelectedWhenFull(e, ds, open);
    ScoresReflect(e, ds, open);
    var retained, adjusted := Retained(ds, open), AllAdjusted(e, ds);
    var cands, scored := Ranked(e, ds, retained), WeakestFirst(e, ds, retained);
    var n := |Picked(cands, scored)|;
    ExcludingMembers(retained, Symbols(scored[..n]));
    KeptComesLater(scored, n, kept, ScoreOf(adjusted, kept));
    var j :| n <= j < |scored| && scored[j] == Scored(kept, ScoreOf(adjusted, kept));
    PassedOverNeverBeats(cands, scored, c, j);
  }

  lemma CandidatesAreEligible(e: Settings, ds: seq<TradingDecision>, retained: seq<string>, c: TradingDecision)
    requires c in Ranked(e, ds, retained)
    ensures IsCandidate(e, retained, c)
  {
    var cands := Ranked(e, ds, retained);
    assert c in multiset(cands);
    assert c in multiset(Candidates(e, retained, AllAdjusted(e, ds)));
  }

  /** Positions never outnumber the limit or the positions retained at first, whichever is larger; what is newly
      opened was neither retained nor replaced. */
  lemma SelectionIsBounded(e: Settings, ds: seq<TradingDecision>, open: seq<string>)
    requires Distinct(open)
    ensures var s, before := Selected(e, ds, open), |Retained(ds, open)|;
            && |s.retained| + |s.picked| <= (if e.maxPositions > before then e.maxPositions else before)
            && (forall c | c in s.picked :: IsEntry(c.action) && c.symbol !in Retained(ds, open))
            && (forall r | r in s.retained :: r in Retained(ds, open))
  {
    hide Ranked, Retained, WeakestFirst, CloseReasons, RanksBefore;
    var retained := Retained(ds, open);
    var cands := Ranked(e, ds, retained);
    forall c | c in cands ensures IsCandidate(e, retained, c) {
      CandidatesAreEligible(e, ds, retained, c);
    }
    if NoSlotFree(e, ds, open) {
      WeakestAreReplaced(e, ds, open);
      SelectedWhenFull(e, ds, open);
      hide Selected, IsCandidate;
      PickedBeatsWeakest(cands, WeakestFirst(e, ds, retained));
      ExcludingMembers(retained, Symbols(Replaced(e, ds, open)));
      forall c | c in Selected(e, ds, open).picked ensures c in cands {
      }
    } else {
      var n := Slots(e, retained, cands);
      assert Selected(e, ds, open).picked == cands[..n];
      forall c | c in cands[..n] ensures c in cands {
      }
    }
  }

  /** The target's positions are the retained symbols, all labelled long, and then the picked candidates on the
      side they ask for: neither the group cap nor the final scaling moves or drops one. */
  lemma TargetSymbols(e: Settings, exchange: string, ds: seq<TradingDecision>, open: seq<string>, riskLevel: int, i: nat)
    requires i < |Target(e, exchange, ds, open, riskLevel).positions|
    ensures var s, ps := Selected(e, ds, open), Target(e, exchange, ds, open, riskLevel).positions;
            && |ps| == |s.retained| + |s.picked|
            && ps[i].symbol == (if i < |s.retained| then s.retained[i] else s.picked[i - |s.retained|].symbol)
            && ps[i].side == if i < |s.retained| || s.picked[i - |s.retained|].action == CONSIDER_LONG then LONG else SHORT
  {
    hide Selected, BaseWeight, Gross, Cash, Left, Times, GroupWeight, Weight;
  }

  /** A replaced symbol has no position in the target, so the broker's closing step will close it. */
  lemma ReplacedLeaveTheTarget(e: Settings, exchange: string, ds: seq<TradingDecision>, open: seq<string>, riskLevel: int)
    requires Distinct(open)
    ensures var replaced, ps := Replaced(e, ds, open), Target(e, exchange, ds, open, riskLevel).positions;
            forall k, i | 0 <= k < |replaced| && 0 <= i < |ps| :: ps[i].symbol != replaced[k].symbol
  {
    hide Selected, Target, Retained, Strength, ScoreOf, WeakestFirst, Ranked;
    var s, replaced, ps := Selected(e, ds, open), Replaced(e, ds, open), Target(e, exchange, ds, open, riskLevel).positions;
    SelectionIsBounded(e, ds, open);
    if NoSlotFree(e, ds, open) { WeakestAreReplaced(e, ds, open); }
    forall k, i | 0 <= k < |replaced| && 0 <= i < |ps| ensures ps[i].symbol != replaced[k].symbol {
      TargetSymbols(e, exchange, ds, open, riskLevel, i);
      assert i < |s.retained| ==> s.retained[i] in s.retained;
      assert i >= |s.retained| ==> s.picked[i - |s.retained|] in s.picked;
    }
  }
}
