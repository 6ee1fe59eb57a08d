/**
 A whole task of the executor: mark to market, close what is not in the target, open towards it.  What is open in the
 account afterwards, and what the cycle can have committed.
 */
module ExecutionCycle {
  import opened Bounds
  import opened BrokerRuns
  import opened BrokerTheorems
  import opened Decisions
  import opened Ledger
  import opened Options
  import opened PositionTable
  import opened RiskCalculator
  import opened RiskEngine
  import opened RiskThresholds
  import opened Rounding
  import opened StepOutcomes
  import opened StopSpacing
  import opened Targets
  import opened TradingCycle
  import Exposure = PortfolioExposure
  import Portfolio = PortfolioEngine

  // ---------- the task ----------

  /** The quotes and the instants that the three steps see. */
  datatype Views = Views(marks: Quotes, closes: Quotes, opens: Quotes, markedAt: int, closedAt: int, openedAt: int)

  /** A scalping broker closes only for reasons given. */
  predicate ClosesFirst(c: Calculator, target: PortfolioTarget) {
    c.mode != SCALPING || target.closeReasons != map[]
  }

  function Task(c: Calculator, target: PortfolioTarget, v: Views): seq<Step> {
    [MarkStep(v.marks, v.markedAt)]
    + (if ClosesFirst(c, target) then [RebalanceStep(target, v.closes, v.closedAt)] else [])
    + [ExecuteStep(target, v.opens, v.openedAt)]
  }

  /** From step n on, the run is one task. */
  predicate EndsInTask(c: Calculator, run: seq<Step>, n: nat, target: PortfolioTarget, v: Views) {
    n < |run| && run[n..] == Task(c, target, v)
  }

  // ---------- symbols and counts ----------

  function Symbols(ts: seq<TargetPosition>): set<string> {
    if |ts| == 0 then {} else Symbols(ts[1..]) + {ts[0].symbol}
  }

  lemma {:induction false} SymbolsAreFew(ts: seq<TargetPosition>)
    ensures |Symbols(ts)| <= |ts|
  {
    if |ts| > 0 { SymbolsAreFew(ts[1..]); }
  }

  lemma {:induction false} SymbolIn(ts: seq<TargetPosition>, t: TargetPosition)
    requires t in ts
    ensures t.symbol in Symbols(ts)
  {
    if ts[0] != t { SymbolIn(ts[1..], t); }
  }

  lemma {:induction false} SideMeansSymbol(ts: seq<TargetPosition>, symbol: string)
    requires TargetSide(ts, symbol).Some?
    ensures symbol in Symbols(ts)
  {
    if ts[0].symbol != symbol { SideMeansSymbol(ts[1..], symbol); }
  }

  /** The rows that are open on an exchange. */
  function OpenAt(rows: Table, exchange: string): set<nat> {
    set i: nat | i < |rows| && rows[i].status.OPEN? && rows[i].exchange == exchange
  }

  /** The open rows that a closing step has no price for. */
  function Passed(quotes: Quotes, rows: Table): set<nat> {
    set i: nat | i < |rows| && rows[i].status.OPEN? && Unpriced(quotes, rows[i])
  }

  /** Rows of different symbols are no more than the symbols. */
  lemma {:induction false} OnePerSymbol(rows: Table, ids: set<nat>, symbols: set<string>)
    requires forall i | i in ids :: i < |rows| && rows[i].symbol in symbols
    requires forall i, j | i in ids && j in ids && rows[i].symbol == rows[j].symbol :: i == j
    ensures |ids| <= |symbols|
  {
    if ids != {} {
      var i :| i in ids;
      OnePerSymbol(rows, ids - {i}, symbols - {rows[i].symbol});
    }
  }

  // ---------- what is open afterwards ----------

  predicate InTarget(target: PortfolioTarget, rows: Table, i: nat)
    requires i < |rows|
  {
    rows[i].symbol in Symbols(target.positions)
  }

  /** Opening leaves the rows there are as they are, and adds rows of the target's symbols. */
  lemma OpeningAdds(c: Calculator, l: Ledger, target: PortfolioTarget, quotes: Quotes, now: int)
    requires AllTradable(c, quotes)
    ensures var rows := ExecuteTarget(c, l, target, quotes, now).ledger.rows;
            l.rows <= rows && forall i: nat | |l.rows| <= i < |rows| :: InTarget(target, rows, i)
  {
    hide OpenAll, Revalued, BeginOpening, Symbols, AllTradable;
    RevaluedRows();
    OpeningStarts(l, target, quotes, now);
    OpenAllFiles(c, BeginOpening(l, target, quotes, now), l, target.positions);
    forall t | t in target.positions ensures t.symbol in Symbols(target.positions) {
      SymbolIn(target.positions, t);
    }
  }

  /** Closing leaves open what is of the target's symbols or has no price. */
  lemma ClosingLeaves(a: Account, feeText: real -> string, l: Ledger, target: PortfolioTarget, quotes: Quotes, now: int)
    ensures var rows := CloseNotInTarget(a.c, feeText, l, target, quotes, now).ledger.rows;
            && |rows| == |l.rows|
            && forall i: nat | i < |rows| && rows[i].status.OPEN? :: InTarget(target, rows, i) || i in Passed(quotes, l.rows)
  {
    hide CloseNotInTarget, TargetSide, Unpriced, Symbols;
    ClosedRows(a, feeText, target, quotes, now, l);
    forall i: nat | i < |l.rows| ensures WantedBy(target, l.rows[i]) ==> l.rows[i].symbol in Symbols(target.positions) {
      if WantedBy(target, l.rows[i]) { SideMeansSymbol(target.positions, l.rows[i].symbol); }
    }
  }

  /** The run up to each of its last steps. */
  lemma TaskSteps(a: Account, feeText: real -> string, run: seq<Step>, start: int, n: nat, target: PortfolioTarget, v: Views)
    requires Runs(a, run, start) && EndsInTask(a.c, run, n, target, v)
    ensures n + 1 < |run| && AllTradable(a.c, v.opens)
    ensures Runs(a, run[..n + 1], start) && Runs(a, run[..|run| - 1], start)
    ensures var marked, closed, after := Reached(a, feeText, run[..n + 1]), Reached(a, feeText, run[..|run| - 1]), Reached(a, feeText, run);
            && after == ExecuteTarget(a.c, closed, target, v.opens, v.openedAt).ledger
            && closed == if ClosesFirst(a.c, target) then CloseNotInTarget(a.c, feeText, marked, target, v.closes, v.closedAt).ledger
                         else marked
  {
    hide After, ClosesFirst, CloseNotInTarget, ExecuteTarget, Calculator.Valid, IsMoney, Admits;
    var task := run[n..];
    var last := |run| - 1;
    assert run[last] == task[|task| - 1] == ExecuteStep(target, v.opens, v.openedAt);
    assert Callable(a.c, run[last]);
    AfterStep(a.c, feeText, Initial(a.balance), run);
    if ClosesFirst(a.c, target) {
      assert run[n + 1] == task[1] == RebalanceStep(target, v.closes, v.closedAt);
      assert run[..last][..n + 1] == run[..n + 1];
      AfterStep(a.c, feeText, Initial(a.balance), run[..last]);
    }
  }

  lemma AfterStep(c: Calculator, feeText: real -> string, l: Ledger, steps: seq<Step>)
    requires AllCallable(c, steps) && |steps| > 0
    ensures After(c, feeText, l, steps) == Apply(c, feeText, After(c, feeText, l, steps[..|steps| - 1]), steps[|steps| - 1])
  {
    hide Apply;
  }

  /** Everything open is of the target's symbols, but for rows that were passed over for want of a price. */
  predicate KeptToTarget(target: PortfolioTarget, rows: Table, passed: set<nat>) {
    forall i: nat | i < |rows| && rows[i].status.OPEN? && i !in passed :: InTarget(target, rows, i)
  }

  lemma CloseThenOpen(a: Account, feeText: real -> string, l: Ledger, target: PortfolioTarget,
                      closes: Quotes, closedAt: int, opens: Quotes, openedAt: int)
    requires AllTradable(a.c, opens)
    ensures var closed := CloseNotInTarget(a.c, feeText, l, target, closes, closedAt).ledger;
            KeptToTarget(target, ExecuteTarget(a.c, closed, target, opens, openedAt).ledger.rows, Passed(closes, l.rows))
  {
    hide CloseNotInTarget, ExecuteTarget, Passed, AllTradable, Symbols;
    ClosingLeaves(a, feeText, l, target, closes, closedAt);
    var closed := CloseNotInTarget(a.c, feeText, l, target, closes, closedAt).ledger;
    OpeningAdds(a.c, closed, target, opens, openedAt);
    var rows := ExecuteTarget(a.c, closed, target, opens, openedAt).ledger.rows;
    forall i: nat | i < |rows| && rows[i].status.OPEN? && i !in Passed(closes, l.rows) ensures InTarget(target, rows, i) {
      if i < |closed.rows| { assert rows[i] == closed.rows[i] && InTarget(target, closed.rows, i); }
    }
  }

  /** No more rows are open on an exchange than the target has positions. */
  lemma KeptMeansFew(a: Account, feeText: real -> string, run: seq<Step>, start: int, target: PortfolioTarget,
                     passed: set<nat>, exchange: string)
    requires Runs(a, run, start) && KeptToTarget(target, Reached(a, feeText, run).rows, passed)
    ensures |OpenAt(Reached(a, feeText, run).rows, exchange) - passed| <= |target.positions|
  {
    hide After, Symbols;
    var rows := Reached(a, feeText, run).rows;
    StopLossesAreSpacedInEveryRun(a, feeText, run, start);
    var ids := OpenAt(rows, exchange) - passed;
    forall i, j | i in ids && j in ids && rows[i].symbol == rows[j].symbol ensures i == j {
      assert SameMarket(rows[i], rows[j]);
    }
    forall i | i in ids ensures rows[i].symbol in Symbols(target.positions) {
      assert InTarget(target, rows, i);
    }
    OnePerSymbol(rows, ids, Symbols(target.positions));
    SymbolsAreFew(target.positions);
  }

  lemma PositiveMarksHavePrices(a: Account, feeText: real -> string, run: seq<Step>, start: int, quotes: Quotes)
    requires Runs(a, run, start) && a.positive
    ensures Passed(quotes, Reached(a, feeText, run).rows) == {}
  {
    hide After;
    OpenMarksArePositive(a, feeText, run, start);
  }

  /** After a task at the end of any run: where it closes, every open position of the account is of a target symbol and
      no more are open on any exchange than the target has positions, but for those without a price at the closing
      step, of which an account whose quotes round to positive marks has none.  Where it does not close, everything
      that survived marking is still open, wanted or not. */
  lemma TaskKeepsToTarget(a: Account, feeText: real -> string, run: seq<Step>, start: int, n: nat,
                          target: PortfolioTarget, v: Views, exchange: string)
    requires Runs(a, run, start) && EndsInTask(a.c, run, n, target, v)
    ensures var marked, after := Reached(a, feeText, run[..n + 1]).rows, Reached(a, feeText, run).rows;
            var passed := Passed(v.closes, marked);
            && (a.positive ==> passed == {})
            && (ClosesFirst(a.c, target) ==>
                  KeptToTarget(target, after, passed) && |OpenAt(after, exchange) - passed| <= |target.positions|)
            && (!ClosesFirst(a.c, target) ==> marked <= after)
  {
    hide ExecuteTarget, CloseNotInTarget, Reached, KeptToTarget, Passed, OpenAt, ClosesFirst, EndsInTask, Callable, Admits;
    TaskSteps(a, feeText, run, start, n, target, v);
    var marked, closed := Reached(a, feeText, run[..n + 1]), Reached(a, feeText, run[..|run| - 1]);
    if a.positive { PositiveMarksHavePrices(a, feeText, run[..n + 1], start, v.closes); }
    if ClosesFirst(a.c, target) {
      CloseThenOpen(a, feeText, marked, target, v.closes, v.closedAt, v.opens, v.openedAt);
      KeptMeansFew(a, feeText, run, start, target, Passed(v.closes, marked.rows), exchange);
    } else {
      OpeningAdds(a.c, closed, target, v.opens, v.openedAt);
    }
  }

  lemma AcceptedAreFew(limits: RiskLimits, t: PortfolioTarget)
    requires limits.Valid() && t.Valid()
    requires Assess(limits, t).APPROVED? || Assess(limits, t).REDUCED?
    ensures |Assess(limits, t).target.positions| <= limits.maxPositions
  {
    hide Issues, TryReduce;
    AcceptedTargetsPass(limits, t);
  }

  /** The target is the one that the risk engine lets through, if it lets one through. */
  predicate LetsThrough(limits: RiskLimits, t: PortfolioTarget, target: PortfolioTarget)
    requires limits.Valid()
  {
    var assessed := Assess(limits, t);
    assessed.APPROVED? || assessed.REDUCED? ==> assessed.target == target
  }

  /** One whole cycle, at the end of any run: under limits of at most 19 positions and a safe gross limit the portfolio
      engine's target is always accepted.  The task that executes what is accepted commits at most the permitted gross
      share of the account's equity, and where it closes first and every mark is positive, it leaves at most the
      permitted number of positions open on any exchange. */
  lemma CycleStaysWithinLimits(a: Account, feeText: real -> string, run: seq<Step>, start: int, n: nat,
                               target: PortfolioTarget, v: Views, e: Portfolio.Settings, limits: RiskLimits,
                               exchange: string, ds: seq<TradingDecision>, held: seq<string>, riskLevel: int, market: string)
    requires limits.Valid() && limits.maxPositions <= 19 && limits.maxGrossExposure <= SafeGross(limits.maxPositions)
    requires LetsThrough(limits, Portfolio.Target(e, exchange, ds, held, riskLevel), target)
    requires Runs(a, run, start) && EndsInTask(a.c, run, n, target, v)
    ensures var assessed := Assess(limits, Portfolio.Target(e, exchange, ds, held, riskLevel));
            (assessed.APPROVED? || assessed.REDUCED?) && assessed.target == target
    ensures var before, after := Reached(a, feeText, run[..|run| - 1]), Reached(a, feeText, run);
            && before.rows <= after.rows && |Added(before.rows, after.rows)| <= limits.maxPositions
            && SumNotional(Added(before.rows, after.rows))
               <= Times(Max(0.0, before.equity), limits.maxGrossExposure + EPSILON + 0.5 * TENTH)
            && (a.positive && ClosesFirst(a.c, target) ==> |OpenAt(after.rows, market)| <= limits.maxPositions)
  {
    hide Portfolio.Target, Assess, SafeGross, Reached, SumNotional, Added, Times, ExecuteTarget, CloseNotInTarget,
         KeptToTarget, Passed, OpenAt, ClosesFirst, EndsInTask, Callable, Admits, AllTradable, Calculator.Valid, IsMoney;
    var t := Portfolio.Target(e, exchange, ds, held, riskLevel);
    TaskSteps(a, feeText, run, start, n, target, v);
    OpeningStaysWithinLimits(a, feeText, run[..|run| - 1], start, e, limits, exchange, ds, held, riskLevel, v.opens, v.openedAt);
    TaskKeepsToTarget(a, feeText, run, start, n, target, v, market);
    EngineTargetIsValid(e, exchange, ds, held, riskLevel);
    AcceptedAreFew(limits, t);
  }

  lemma EngineTargetIsValid(e: Portfolio.Settings, exchange: string, ds: seq<TradingDecision>, held: seq<string>, riskLevel: int)
    ensures Portfolio.Target(e, exchange, ds, held, riskLevel).Valid()
  {
    hide Portfolio.Target, PortfolioTarget.Valid;
    Exposure.TargetIsWhole(e, exchange, ds, held, riskLevel);
  }
}
