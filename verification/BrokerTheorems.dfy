/**
 What the invariant of BrokerRuns means for a reader of the ledger.
 */
module BrokerTheorems {
  import opened BrokerRuns
  import opened CashSafety
  import opened Conservation
  import opened Ledger
  import opened Options
  import opened PositionTable
  import opened RiskCalculator
  import opened Rounding
  import opened StepOutcomes
  import opened StopSpacing
  import opened Targets
  import opened TrailingBracket

  function Reached(a: Account, feeText: real -> string, steps: seq<Step>): Ledger
    requires AllCallable(a.c, steps)
  {
    After(a.c, feeText, Initial(a.balance), steps)
  }

  /** Conservation over every run, longs and shorts alike.  Cash plus open positions at cost is the
      opening balance plus all realized profit less the slippage paid on opening, up to half a unit
      per opening trade and one and a half per closing one, and so up to one unit per trade. */
  lemma MoneyIsConserved(a: Account, feeText: real -> string, steps: seq<Step>, start: int)
    requires Runs(a, steps, start)
    ensures var l := Reached(a, feeText, steps);
            var expected := a.balance + RealizedPnl(l.trades) - TotalSlippage(l.trades, EntryPrices(l.rows));
            var off := l.cash + SumOpen(l.rows, Cost) - expected;
            && -RoundingAllowance(l.trades) <= off <= RoundingAllowance(l.trades)
            && -UNIT * |l.trades| as real <= off <= UNIT * |l.trades| as real
  {
    hide RealizedPnl, TotalSlippage, EntryPrices, SumOpen, Chronicle, CashSafe, RowsSound;
    RunIsSound(a, feeText, steps, start);
    BalancedPerTrade(Reached(a, feeText, steps), a.balance);
  }

  /** Recorded equity is cash, open cost and unrealized profit, up to half a unit and one per open row. */
  lemma EquityIsAccountedFor(a: Account, feeText: real -> string, steps: seq<Step>, start: int)
    requires Runs(a, steps, start)
    ensures var l := Reached(a, feeText, steps);
            var off := l.equity - (l.cash + SumOpen(l.rows, Cost) + SumOpen(l.rows, Unrealized));
            var allowed := UNIT * (0.5 + CountOpen(l.rows) as real);
            -allowed <= off <= allowed
  {
    hide Balanced, Chronicle, CashSafe, Bracketed, SumOpen, Revalued;
    RunIsSound(a, feeText, steps, start);
    EquityLaw(Reached(a, feeText, steps), a.balance);
  }

  /** One open position per market, and stop-losses of one market more than 120 minutes apart,
      any three of them spanning more than 48 hours. */
  lemma StopLossesAreSpacedInEveryRun(a: Account, feeText: real -> string, steps: seq<Step>, start: int)
    requires Runs(a, steps, start)
    ensures var rows := Reached(a, feeText, steps).rows;
            && (forall i, j | 0 <= i < |rows| && 0 <= j < |rows| && SameMarket(rows[i], rows[j])
                              && rows[i].status.OPEN? && rows[j].status.OPEN? :: i == j)
            && (forall i, j | 0 <= i < j < |rows| && SameMarket(rows[i], rows[j])
                              && StoppedOut(rows[i]) && StoppedOut(rows[j]) ::
                  rows[j].status.closedAt - rows[i].status.closedAt > STOP_GAP)
            && (forall i, k, j | 0 <= i < k < j < |rows| && SameMarket(rows[i], rows[k]) && SameMarket(rows[k], rows[j])
                                 && StoppedOut(rows[i]) && StoppedOut(rows[k]) && StoppedOut(rows[j]) ::
                  rows[j].status.closedAt - rows[i].status.closedAt > WHIPSAW_GAP)
  {
    hide Balanced, CashSafe, RowsSound, Revalued, WhipsawFree;
    RunIsSound(a, feeText, steps, start);
    var rows := Reached(a, feeText, steps).rows;
    StopsAreSpaced(rows, Clock(steps, start));
    forall i, j | 0 <= i < |rows| && 0 <= j < |rows| && SameMarket(rows[i], rows[j])
                  && rows[i].status.OPEN? && rows[j].status.OPEN?
      ensures i == j
    {
      OneOpenPerMarket(rows, Clock(steps, start), i, j);
    }
  }

  lemma {:induction false} LaterFollows(a: Account, feeText: real -> string, steps: seq<Step>, start: int, i: nat)
    requires Runs(a, steps, start) && i <= |steps|
    ensures Follows(Reached(a, feeText, steps[..i]), Reached(a, feeText, steps), true)
    decreases |steps|
  {
    hide Sound, Revalued, Apply, Follows, Initial;
    if i == |steps| {
      assert steps[..i] == steps;
      FollowsItself(Reached(a, feeText, steps), true);
    } else {
      var init := steps[..|steps| - 1];
      assert init[..i] == steps[..i];
      LaterFollows(a, feeText, init, start, i);
      RunIsSound(a, feeText, init, start);
      var l := Reached(a, feeText, init);
      StepKeepsSound(a, feeText, l, steps[|steps| - 1], Clock(init, start));
      FollowsAny(l, Reached(a, feeText, steps), steps[|steps| - 1].MarkStep?);
      FollowsTransitive(Reached(a, feeText, steps[..i]), l, Reached(a, feeText, steps), true);
    }
  }

  lemma FollowsAny(l: Ledger, l': Ledger, marking: bool)
    requires Follows(l, l', marking)
    ensures Follows(l, l', true)
  {
  }

  /** From any moment of a run to any later one, a position keeps its terms, a long's stop never falls,
      a short's never rises, what is closed stays as it was, and the trade ledger only grows.  While
      a position is open its stop and target do not cross. */
  lemma LifeOfAPosition(a: Account, feeText: real -> string, steps: seq<Step>, start: int, i: nat, j: nat)
    requires Runs(a, steps, start) && i <= j <= |steps|
    ensures var l, l' := Reached(a, feeText, steps[..i]), Reached(a, feeText, steps[..j]);
            && Evolves(l.rows, l'.rows)
            && l.trades <= l'.trades
            && forall p | p in l'.rows :: Bracketed(p)
  {
    hide Revalued, Balanced, Chronicle, CashSafe, Bracketed;
    var run := steps[..j];
    assert run[..i] == steps[..i];
    LaterFollows(a, feeText, run, start, i);
    RunIsSound(a, feeText, run, start);
  }

  /** In every run, a position is on record as stopped out (or as closed at its target) if and only if at some mark
      step it was open and its quote had reached the stop as it stood before that step or been overtaken by the stop
      moved in it (or had reached the target instead); and it was closed in that very step. */
  lemma ExitsAreRecordedExactly(a: Account, feeText: real -> string, steps: seq<Step>, start: int, i: nat, reason: string)
    requires Runs(a, steps, start) && reason in {STOP_LOSS, TAKE_PROFIT}
    ensures var rows := Reached(a, feeText, steps).rows;
            && (i < |rows| && Filed(rows[i], reason)
                <==> exists j | 0 <= j < |steps| :: ExitsAt(a.c, Reached(a, feeText, steps[..j]), steps[j], i, reason))
            && (forall j | 0 <= j < |steps| && ExitsAt(a.c, Reached(a, feeText, steps[..j]), steps[j], i, reason) ::
                  i < |rows| && rows[i].status == CLOSED(steps[j].now, reason))
  {
    hide ExitsAt, After, Callable;
    RunRecordsExactly(a.c, feeText, Initial(a.balance), steps, i, reason);
    forall j | 0 <= j < |steps| && ExitsAt(a.c, Reached(a, feeText, steps[..j]), steps[j], i, reason)
      ensures var rows := Reached(a, feeText, steps).rows; i < |rows| && rows[i].status == CLOSED(steps[j].now, reason)
    {
      ExitsAreDated(a.c, feeText, Initial(a.balance), steps, i, reason, j);
    }
  }

  /** In every reached state, closing an open position at its mark lowers equity by the fee or more, beyond
      rounding. */
  lemma ClosingAtMarkNeverRaisesEquity(a: Account, feeText: real -> string, steps: seq<Step>, start: int, id: nat,
                                       now: int, reason: string)
    requires Runs(a, steps, start)
    requires id < |Reached(a, feeText, steps).rows| && Reached(a, feeText, steps).rows[id].status.OPEN?
    requires Reached(a, feeText, steps).rows[id].currentPrice > 0.0
    ensures var l := Reached(a, feeText, steps);
            var p := l.rows[id];
            var fee := ClosingFee(a.c, p, a.c.ExitPrice(p.currentPrice, p.side));
            && fee >= 0.0
            && Revalued(Settle(a.c, l, id, p.currentPrice, now, reason)).equity
               <= l.equity - fee + 1.5 * UNIT + MarkRounding(p)
  {
    hide Revalued, Settle, Chronicle, RowsSound, ShortsCovered, ClosingFee, MarkRounding;
    RunIsSound(a, feeText, steps, start);
    assert Reached(a, feeText, steps).rows[id] in Reached(a, feeText, steps).rows;
    SettlingAtMarkLowersEquity(a.c, Reached(a, feeText, steps), id, now, reason);
  }

  // ---------- rebalancing ----------

  predicate WantedBy(target: PortfolioTarget, p: Position) {
    TargetSide(target.positions, p.symbol) == Some(p.side)
  }

  /** There is no quote above zero, and the last mark was not above zero either. */
  predicate Unpriced(quotes: Quotes, p: Position) {
    !Quoted(quotes, p) && p.currentPrice <= 0.0
  }

  lemma CloseOneLeavesWanted(a: Account, feeText: real -> string, target: PortfolioTarget, quotes: Quotes, now: int,
                             pr: Progress, id: nat)
    requires id < |pr.ledger.rows| && pr.ledger.rows[id].status.OPEN?
    ensures var pr', p := CloseOne(a.c, feeText, target, quotes, now, pr, id), pr.ledger.rows[id];
            && |pr'.ledger.rows| == |pr.ledger.rows|
            && (pr'.ledger.rows[id].status.OPEN? <==> WantedBy(target, p) || Unpriced(quotes, p))
            && (pr'.ledger.rows[id].status.OPEN? ==> pr'.ledger.rows[id] == p)
            && (forall i | 0 <= i < |pr.ledger.rows| && i != id :: pr'.ledger.rows[i] == pr.ledger.rows[i])
            && (pr'.skipped == pr.skipped + [Item(p.symbol, STILL_IN_TARGET)]
                || (Unpriced(quotes, p) && pr'.skipped == pr.skipped + [Item(p.symbol, NO_PRICE)])
                || pr'.skipped == pr.skipped)
  {
    hide Money, Calculator.Fee, Calculator.ExitPrice, TargetSide, Times, RebalanceReason, Gain, ZeroIfTiny;
  }

  /** Those rows are open that were open and that the target wants or nothing prices, and they are as they were. */
  predicate OnlyWanted(target: PortfolioTarget, quotes: Quotes, before: Table, after: Table) {
    |before| == |after| && forall i | 0 <= i < |before| ::
      && (after[i].status.OPEN? <==> before[i].status.OPEN? && (WantedBy(target, before[i]) || Unpriced(quotes, before[i])))
      && (after[i].status.OPEN? ==> after[i] == before[i])
  }

  predicate SkippedAsWanted(items: seq<Item>) {
    forall item | item in items :: item.verdict == STILL_IN_TARGET
  }

  lemma {:induction false} ClosedRow(a: Account, feeText: real -> string, target: PortfolioTarget, quotes: Quotes, now: int,
                                     l: Ledger, n: nat, i: nat)
    requires i < n <= |l.rows|
    ensures var before, after := l.rows[i], CloseUpTo(a.c, feeText, target, quotes, now, l, n).ledger.rows[i];
            && (after.status.OPEN? <==> before.status.OPEN? && (WantedBy(target, before) || Unpriced(quotes, before)))
            && (after.status.OPEN? ==> after == before)
  {
    hide CloseOne, WantedBy, Unpriced;
    var pr := CloseUpTo(a.c, feeText, target, quotes, now, l, n - 1);
    TailHead(pr.ledger.rows, l.rows, n - 1);
    if i < n - 1 { ClosedRow(a, feeText, target, quotes, now, l, n - 1, i); }
    if l.rows[n - 1].status.OPEN? { CloseOneLeavesWanted(a, feeText, target, quotes, now, pr, n - 1); }
  }

  lemma {:induction false} NothingUnpriced(a: Account, feeText: real -> string, target: PortfolioTarget, quotes: Quotes,
                                           now: int, l: Ledger, n: nat)
    requires n <= |l.rows|
    requires forall i | 0 <= i < |l.rows| && l.rows[i].status.OPEN? :: l.rows[i].currentPrice > 0.0
    ensures SkippedAsWanted(CloseUpTo(a.c, feeText, target, quotes, now, l, n).skipped)
  {
    hide CloseOne, WantedBy;
    if n > 0 {
      NothingUnpriced(a, feeText, target, quotes, now, l, n - 1);
      var pr := CloseUpTo(a.c, feeText, target, quotes, now, l, n - 1);
      TailHead(pr.ledger.rows, l.rows, n - 1);
      if l.rows[n - 1].status.OPEN? { CloseOneLeavesWanted(a, feeText, target, quotes, now, pr, n - 1); }
    }
  }

  /** After the closing step of any run, those positions are still open that were open and that the target holds on
      the same side, or that have neither a quote nor a mark above zero.  Where no quote is so small that its mark
      rounds to zero there are none of the latter, and none is passed over for want of a price. */
  lemma RebalanceLeavesOnlyTargets(a: Account, feeText: real -> string, steps: seq<Step>, start: int,
                                   target: PortfolioTarget, quotes: Quotes, now: int)
    requires Runs(a, steps, start)
    ensures var l := Reached(a, feeText, steps);
            var pr := CloseNotInTarget(a.c, feeText, l, target, quotes, now);
            && OnlyWanted(target, quotes, l.rows, pr.ledger.rows)
            && (a.positive ==>
                  && (forall p | p in pr.ledger.rows && p.status.OPEN? :: WantedBy(target, p))
                  && SkippedAsWanted(pr.skipped))
  {
    hide *;
    OpenMarksArePositive(a, feeText, steps, start);
    var l := Reached(a, feeText, steps);
    ClosedRows(a, feeText, target, quotes, now, l);
    if a.positive {
      NothingUnpriced(a, feeText, target, quotes, now, l, |l.rows|);
      var pr := CloseNotInTarget(a.c, feeText, l, target, quotes, now);
      forall p | p in pr.ledger.rows && p.status.OPEN? ensures WantedBy(target, p) {
        StillOpenIsWanted(target, quotes, l.rows, pr.ledger.rows, p);
      }
    }
  }

  lemma OpenMarksArePositive(a: Account, feeText: real -> string, steps: seq<Step>, start: int)
    requires Runs(a, steps, start)
    ensures AllCallable(a.c, steps)
    ensures var rows := Reached(a, feeText, steps).rows;
            a.positive ==> forall i | 0 <= i < |rows| && rows[i].status.OPEN? :: rows[i].currentPrice > 0.0
  {
    hide Revalued, Balanced, Chronicle, CashSafe, Bracketed, MarkAgrees, After;
    RunIsSound(a, feeText, steps, start);
    var rows := Reached(a, feeText, steps).rows;
    forall i | 0 <= i < |rows| && rows[i].status.OPEN? && a.positive ensures rows[i].currentPrice > 0.0 {
      assert rows[i] in rows && RowSound(a, rows[i]);
    }
  }

  lemma ClosedRows(a: Account, feeText: real -> string, target: PortfolioTarget, quotes: Quotes, now: int, l: Ledger)
    ensures var pr := CloseNotInTarget(a.c, feeText, l, target, quotes, now);
            && OnlyWanted(target, quotes, l.rows, pr.ledger.rows)
            && pr.skipped == CloseUpTo(a.c, feeText, target, quotes, now, l, |l.rows|).skipped
  {
    hide CloseUpTo, WantedBy, Unpriced, Revalued;
    RevaluedRows();
    var rows := CloseUpTo(a.c, feeText, target, quotes, now, l, |l.rows|).ledger.rows;
    forall i | 0 <= i < |l.rows|
      ensures && (rows[i].status.OPEN? <==> l.rows[i].status.OPEN? && (WantedBy(target, l.rows[i]) || Unpriced(quotes, l.rows[i])))
              && (rows[i].status.OPEN? ==> rows[i] == l.rows[i])
    {
      ClosedRow(a, feeText, target, quotes, now, l, |l.rows|, i);
    }
  }

  lemma StillOpenIsWanted(target: PortfolioTarget, quotes: Quotes, before: Table, after: Table, p: Position)
    requires OnlyWanted(target, quotes, before, after) && p in after && p.status.OPEN?
    requires forall i | 0 <= i < |before| && before[i].status.OPEN? :: before[i].currentPrice > 0.0
    ensures WantedBy(target, p)
  {
    hide WantedBy;
    var i :| 0 <= i < |after| && after[i] == p;
    assert before[i].currentPrice > 0.0;
  }

  /** Only marking to market files a stop-loss. */
  lemma OnlyMarkingStopsOut(a: Account, feeText: real -> string, steps: seq<Step>, start: int)
    requires Runs(a, steps, start) && |steps| > 0 && !steps[|steps| - 1].MarkStep?
    ensures var before, after := Reached(a, feeText, steps[..|steps| - 1]), Reached(a, feeText, steps);
            forall i | 0 <= i < |after.rows| && StoppedOut(after.rows[i]) ::
              i < |before.rows| && StoppedOut(before.rows[i])
  {
    hide Sound, Revalued, Apply, Initial;
    var init := steps[..|steps| - 1];
    RunIsSound(a, feeText, init, start);
    StepKeepsSound(a, feeText, Reached(a, feeText, init), steps[|steps| - 1], Clock(init, start));
  }

  // ---------- cash ----------

  /** If every short closed during the run was covered at its exit price, cash was never negative at
      any moment of the run; a run without shorts needs no condition. */
  lemma CashNeverNegative(a: Account, feeText: real -> string, steps: seq<Step>, start: int, i: nat)
    requires Runs(a, steps, start) && i <= |steps|
    requires ShortsCovered(a.c, Reached(a, feeText, steps).rows)
    ensures Reached(a, feeText, steps[..i]).cash >= 0.0
  {
    hide Revalued, Balanced, Chronicle, RowsSound, Covers;
    var early, late := Reached(a, feeText, steps[..i]), Reached(a, feeText, steps);
    LaterFollows(a, feeText, steps, start, i);
    RunIsSound(a, feeText, steps[..i], start);
    forall p | p in early.rows && p.side.SHORT? && p.status.CLOSED? ensures Covers(a.c, p, p.currentPrice) {
      var k :| 0 <= k < |early.rows| && early.rows[k] == p;
      assert RowEvolves(early.rows[k], late.rows[k]);
      assert late.rows[k] in late.rows;
    }
  }
}
