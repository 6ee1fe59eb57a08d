/**
 What each step of the broker files a row under: which rows the mark step ends, at a stop or at a target, and
 that neither of the other steps ends a row under those reasons.
 */
module StepOutcomes {
  import opened Ledger
  import opened Options
  import opened PositionTable
  import opened RiskCalculator
  import opened Rounding
  import opened StopSpacing
  import opened Targets
  import opened TrailingBracket

  predicate Quoted(quotes: Quotes, p: Position) {
    ClosePriceOf(quotes, p.symbol).Some? && ClosePriceOf(quotes, p.symbol).value > 0.0
  }

  /** The quote has reached the stop as it stood before the step, or the stop that the step moves overtakes it. */
  predicate FallsToStop(c: Calculator, quotes: Quotes, p: Position) {
    Quoted(quotes, p) &&
    var price := ClosePriceOf(quotes, p.symbol).value;
    StopHit(p, price) || Overtakes(c, p, quotes[p.symbol].atr, price)
  }

  /** The quote has reached the target, and the stop does not come first. */
  predicate ReachesTarget(c: Calculator, quotes: Quotes, p: Position) {
    Quoted(quotes, p) && !FallsToStop(c, quotes, p) && TargetHit(p, ClosePriceOf(quotes, p.symbol).value)
  }

  /** The status that the mark step gives an open row. */
  function MarkedStatus(c: Calculator, quotes: Quotes, now: int, p: Position): Status {
    if FallsToStop(c, quotes, p) then CLOSED(now, STOP_LOSS)
    else if ReachesTarget(c, quotes, p) then CLOSED(now, TAKE_PROFIT)
    else OPEN
  }

  // ---------- marking ----------

  lemma MarkOneStatus(c: Calculator, quotes: Quotes, now: int, pr: Progress, id: nat)
    requires id < |pr.ledger.rows| && pr.ledger.rows[id].status.OPEN?
    ensures var rows := MarkOne(c, quotes, now, pr, id).ledger.rows;
            && |rows| == |pr.ledger.rows|
            && rows[id].status == MarkedStatus(c, quotes, now, pr.ledger.rows[id])
            && forall k | 0 <= k < |rows| && k != id :: rows[k] == pr.ledger.rows[k]
  {
    hide Money, Times, Gain, ZeroIfTiny, MarkedAndTrailed, StopHit, TargetHit, Overtakes, Calculator.Fee, Calculator.ExitPrice;
    var p := pr.ledger.rows[id];
    if Quoted(quotes, p) {
      var price := ClosePriceOf(quotes, p.symbol).value;
      StoppedOutExactly(c, p, quotes[p.symbol].atr, price);
      TrailingKeepsTarget(c, p, quotes[p.symbol].atr, price);
    }
  }

  lemma TrailingKeepsTarget(c: Calculator, p: Position, atr: Option<real>, price: real)
    requires price > 0.0
    ensures var row := MarkedAndTrailed(c, p, atr, price);
            row.status == p.status && (TargetHit(row, price) <==> TargetHit(p, price))
  {
    hide Money, Times, TrailPct, ZeroIfTiny;
  }

  lemma {:induction false} MarkUpToStatus(c: Calculator, quotes: Quotes, now: int, l: Ledger, n: nat, i: nat)
    requires i < n <= |l.rows|
    ensures var row := MarkUpTo(c, quotes, now, l, n).ledger.rows[i];
            if l.rows[i].status.OPEN? then row.status == MarkedStatus(c, quotes, now, l.rows[i]) else row == l.rows[i]
  {
    hide MarkOne, MarkedStatus;
    var pr := MarkUpTo(c, quotes, now, l, n - 1);
    TailHead(pr.ledger.rows, l.rows, n - 1);
    if i < n - 1 { MarkUpToStatus(c, quotes, now, l, n - 1, i); }
    if l.rows[n - 1].status.OPEN? { MarkOneStatus(c, quotes, now, pr, n - 1); }
  }

  /** The mark step records STOP_LOSS on an open row if and only if the quote has reached the stop as it stood
      before the step or the stop just moved overtakes it, and TAKE_PROFIT if and only if it has reached the
      target instead; every other open row stays open, and closed rows stay as they are. */
  lemma MarkingRecordsExactly(c: Calculator, l: Ledger, quotes: Quotes, now: int, i: nat)
    requires i < |l.rows|
    ensures var rows := MarkToMarket(c, l, quotes, now).ledger.rows;
            && |rows| == |l.rows|
            && (l.rows[i].status.CLOSED? ==> rows[i] == l.rows[i])
            && (l.rows[i].status.OPEN? ==>
                  && (rows[i].status == CLOSED(now, STOP_LOSS) <==> FallsToStop(c, quotes, l.rows[i]))
                  && (rows[i].status == CLOSED(now, TAKE_PROFIT) <==> ReachesTarget(c, quotes, l.rows[i]))
                  && (rows[i].status.OPEN? <==> !FallsToStop(c, quotes, l.rows[i]) && !ReachesTarget(c, quotes, l.rows[i])))
  {
    hide FallsToStop, MarkUpTo;
    MarkUpToStatus(c, quotes, now, l, |l.rows|, i);
  }

  // ---------- closing ----------

  /** What the closing step may make of a row: nothing, or a close under a reason of its own. */
  predicate LeftOrRebalanced(before: Position, after: Position) {
    after == before
    || (before.status.OPEN? && after.status.CLOSED? && after.status.reason != STOP_LOSS && after.status.reason != TAKE_PROFIT)
  }

  lemma RebalanceIsNoTakeProfit(closeReasons: map<string, string>, symbol: string, feeText: string)
    ensures RebalanceReason(closeReasons, symbol, feeText) != TAKE_PROFIT
  {
    var reason := RebalanceReason(closeReasons, symbol, feeText);
    assert reason[|reason| - 1] == ')';
  }

  lemma CloseOneFiles(c: Calculator, feeText: real -> string, target: PortfolioTarget, quotes: Quotes, now: int,
                      pr: Progress, id: nat)
    requires id < |pr.ledger.rows| && pr.ledger.rows[id].status.OPEN?
    ensures var rows := CloseOne(c, feeText, target, quotes, now, pr, id).ledger.rows;
            && |rows| == |pr.ledger.rows|
            && forall k | 0 <= k < |rows| :: LeftOrRebalanced(pr.ledger.rows[k], rows[k])
  {
    hide Money, Times, Gain, ZeroIfTiny, TargetSide, RebalanceReason, RebalancePrice, Calculator.Fee, Calculator.ExitPrice;
    var p := pr.ledger.rows[id];
    var price := RebalancePrice(quotes, p);
    if price.Some? {
      var fee := feeText(c.Fee(Money(Times(p.quantity, c.ExitPrice(price.value, p.side)))));
      RebalanceIsNoStopLoss(target.closeReasons, p.symbol, fee);
      RebalanceIsNoTakeProfit(target.closeReasons, p.symbol, fee);
    }
  }

  lemma {:induction false} CloseUpToFiles(c: Calculator, feeText: real -> string, target: PortfolioTarget, quotes: Quotes,
                                          now: int, l: Ledger, n: nat, i: nat)
    requires n <= |l.rows| && i < |l.rows|
    ensures LeftOrRebalanced(l.rows[i], CloseUpTo(c, feeText, target, quotes, now, l, n).ledger.rows[i])
  {
    hide CloseOne;
    if n > 0 {
      var pr := CloseUpTo(c, feeText, target, quotes, now, l, n - 1);
      TailHead(pr.ledger.rows, l.rows, n - 1);
      CloseUpToFiles(c, feeText, target, quotes, now, l, n - 1, i);
      if l.rows[n - 1].status.OPEN? { CloseOneFiles(c, feeText, target, quotes, now, pr, n - 1); }
    }
  }

  // ---------- opening ----------

  lemma OpenRowIsOpen(c: Calculator, o: Opening, t: TargetPosition)
    requires AllTradable(c, o.quotes)
    requires t.symbol in o.quotes && o.quotes[t.symbol].close.Some? && o.quotes[t.symbol].close.value > 0.0
    ensures OpenRow(c, o, t).status.OPEN? && OpenRow(c, o, t).side == t.side && OpenRow(c, o, t).symbol == t.symbol
  {
  }

  /** Opening only adds rows, and each is open, for a symbol and a side of some position of the target. */
  lemma {:induction false} OpenAllFiles(c: Calculator, o: Opening, l: Ledger, ts: seq<TargetPosition>)
    requires AllTradable(c, o.quotes)
    ensures var rows := OpenAll(c, o, Progress(l, [], []), ts).ledger.rows;
            && l.rows <= rows
            && forall k | |l.rows| <= k < |rows| ::
                 rows[k].status.OPEN? && exists t | t in ts :: rows[k].symbol == t.symbol && rows[k].side == t.side
  {
    hide OpenRow, AllTradable;
    if |ts| > 0 {
      var init, last := ts[..|ts| - 1], ts[|ts| - 1];
      OpenAllFiles(c, o, l, init);
      var pr := OpenAll(c, o, Progress(l, [], []), init);
      var rows := OpenOne(c, o, pr, last).ledger.rows;
      if Screen(c, o, pr.ledger, last) == EXECUTED { OpenRowIsOpen(c, o, last); }
      forall k | |l.rows| <= k < |rows|
        ensures rows[k].status.OPEN? && exists t | t in ts :: rows[k].symbol == t.symbol && rows[k].side == t.side
      {
        if k < |pr.ledger.rows| {
          var t :| t in init && pr.ledger.rows[k].symbol == t.symbol && pr.ledger.rows[k].side == t.side;
          assert t in ts;
        } else {
          assert last in ts;
        }
      }
    }
  }

  // ---------- every run ----------

  predicate Filed(p: Position, reason: string) {
    p.status.CLOSED? && p.status.reason == reason
  }

  /** The step is a mark step in which the open row i reaches its stop, or its target. */
  predicate ExitsAt(c: Calculator, l: Ledger, s: Step, i: nat, reason: string) {
    s.MarkStep? && i < |l.rows| && l.rows[i].status.OPEN?
    && if reason == STOP_LOSS then FallsToStop(c, s.quotes, l.rows[i]) else ReachesTarget(c, s.quotes, l.rows[i])
  }

  /** One step: a row is filed under the reason afterwards if and only if it was before or exits in this step. */
  lemma StepRecordsExactly(c: Calculator, feeText: real -> string, l: Ledger, s: Step, i: nat, reason: string)
    requires Callable(c, s) && reason in {STOP_LOSS, TAKE_PROFIT}
    ensures var rows := Apply(c, feeText, l, s).rows;
            && |l.rows| <= |rows|
            && (i < |rows| && Filed(rows[i], reason)
                <==> (i < |l.rows| && Filed(l.rows[i], reason)) || ExitsAt(c, l, s, i, reason))
            && (ExitsAt(c, l, s, i, reason) ==> i < |rows| && rows[i].status == CLOSED(s.now, reason))
            && (i < |l.rows| && l.rows[i].status.CLOSED? ==> rows[i] == l.rows[i])
  {
    hide FallsToStop, ReachesTarget, OpenAll, CloseUpTo, MarkUpTo, Revalued, BeginOpening;
    RevaluedRows();
    match s {
      case ExecuteStep(target, quotes, now) =>
        OpeningStarts(l, target, quotes, now);
        OpenAllFiles(c, BeginOpening(l, target, quotes, now), l, target.positions);
      case RebalanceStep(target, quotes, now) =>
        if i < |l.rows| { CloseUpToFiles(c, feeText, target, quotes, now, l, |l.rows|, i); }
      case MarkStep(quotes, now) =>
        if i < |l.rows| { MarkingRecordsExactly(c, l, quotes, now, i); }
    }
  }

  lemma RevaluedRows()
    ensures forall l {:trigger Revalued(l)} :: Revalued(l).rows == l.rows
  {
  }

  lemma OpeningStarts(l: Ledger, target: PortfolioTarget, quotes: Quotes, now: int)
    ensures BeginOpening(l, target, quotes, now).quotes == quotes
    ensures BeginOpening(l, target, quotes, now).startingEquity == l.equity
  {
  }

  /** Some step of the run, from the ledger it starts at, is the exit of row i. */
  ghost predicate Exits(c: Calculator, feeText: real -> string, l: Ledger, steps: seq<Step>, i: nat, reason: string)
    requires AllCallable(c, steps)
  {
    exists j | 0 <= j < |steps| :: ExitsAt(c, After(c, feeText, l, steps[..j]), steps[j], i, reason)
  }

  lemma ExitsOneMore(c: Calculator, feeText: real -> string, l: Ledger, steps: seq<Step>, i: nat, reason: string)
    requires AllCallable(c, steps) && |steps| > 0
    ensures var init, last := steps[..|steps| - 1], steps[|steps| - 1];
            Exits(c, feeText, l, steps, i, reason)
            <==> Exits(c, feeText, l, init, i, reason) || ExitsAt(c, After(c, feeText, l, init), last, i, reason)
  {
    hide ExitsAt, After;
    var n := |steps| - 1;
    var init := steps[..n];
    assert forall j | 0 <= j < n :: init[..j] == steps[..j] && init[j] == steps[j];
    assert steps[..n] == init;
    if Exits(c, feeText, l, init, i, reason) {
      var j :| 0 <= j < n && ExitsAt(c, After(c, feeText, l, init[..j]), init[j], i, reason);
      assert ExitsAt(c, After(c, feeText, l, steps[..j]), steps[j], i, reason);
    }
    if ExitsAt(c, After(c, feeText, l, init), steps[n], i, reason) {
      assert ExitsAt(c, After(c, feeText, l, steps[..n]), steps[n], i, reason);
    }
    if Exits(c, feeText, l, steps, i, reason) {
      var j :| 0 <= j < |steps| && ExitsAt(c, After(c, feeText, l, steps[..j]), steps[j], i, reason);
      if j < n { assert ExitsAt(c, After(c, feeText, l, init[..j]), init[j], i, reason); }
    }
  }

  lemma CallableInit(c: Calculator, feeText: real -> string, l: Ledger, steps: seq<Step>)
    requires AllCallable(c, steps) && |steps| > 0
    ensures AllCallable(c, steps[..|steps| - 1]) && Callable(c, steps[|steps| - 1])
    ensures After(c, feeText, l, steps)
            == Apply(c, feeText, After(c, feeText, l, steps[..|steps| - 1]), steps[|steps| - 1])
  {
    hide Apply, Callable;
  }

  lemma NothingHappens(c: Calculator, feeText: real -> string, l: Ledger, i: nat, reason: string)
    ensures AllCallable(c, []) && After(c, feeText, l, []) == l && !Exits(c, feeText, l, [], i, reason)
  {
  }

  /** Over any run from any ledger without rows: a position is on record as STOP_LOSS (or as TAKE_PROFIT) if and
      only if there was a mark step in which it was open and reached its stop (or its target). */
  lemma {:induction false} RunRecordsExactly(c: Calculator, feeText: real -> string, l: Ledger, steps: seq<Step>, i: nat,
                                             reason: string)
    requires AllCallable(c, steps) && reason in {STOP_LOSS, TAKE_PROFIT} && l.rows == []
    ensures var rows := After(c, feeText, l, steps).rows;
            i < |rows| && Filed(rows[i], reason) <==> Exits(c, feeText, l, steps, i, reason)
  {
    hide *;
    if |steps| == 0 {
      assert steps == [];
      NothingHappens(c, feeText, l, i, reason);
    } else {
      var init := steps[..|steps| - 1];
      CallableInit(c, feeText, l, steps);
      RunRecordsExactly(c, feeText, l, init, i, reason);
      StepRecordsExactly(c, feeText, After(c, feeText, l, init), steps[|steps| - 1], i, reason);
      ExitsOneMore(c, feeText, l, steps, i, reason);
    }
  }

  /** And the exit is recorded in that very step, for good. */
  lemma {:induction false} ExitsAreDated(c: Calculator, feeText: real -> string, l: Ledger, steps: seq<Step>, i: nat,
                                         reason: string, j: nat)
    requires AllCallable(c, steps) && reason in {STOP_LOSS, TAKE_PROFIT}
    requires j < |steps| && ExitsAt(c, After(c, feeText, l, steps[..j]), steps[j], i, reason)
    ensures var rows := After(c, feeText, l, steps).rows;
            i < |rows| && rows[i].status == CLOSED(steps[j].now, reason)
  {
    hide *;
    var n := |steps| - 1;
    var init := steps[..n];
    CallableInit(c, feeText, l, steps);
    StepRecordsExactly(c, feeText, After(c, feeText, l, init), steps[n], i, reason);
    if j < n {
      assert init[..j] == steps[..j] && init[j] == steps[j];
      ExitsAreDated(c, feeText, l, init, i, reason, j);
    } else {
      assert steps[..j] == init;
    }
  }
}
