/** A scalping account that outgrows its limit on the number of positions. */
module ScalpingExample {
  import opened BrokerExamples
  import opened BrokerRuns
  import opened BrokerTheorems
  import opened ExecutionCycle
  import opened Ledger
  import opened Options
  import opened PositionTable
  import opened RiskCalculator
  import opened RiskEngine
  import opened Rounding
  import opened Targets

  const SCALPER := Calculator(SCALPING, 0.0, 0.0, false)
  const SCALPING_ACCOUNT := Account(SCALPER, 10000.0, true)
  const ONE_POSITION := RiskLimits(1, 0.50, 0.10, 0.50)

  function Order(symbol: string): TargetPosition {
    TargetPosition(symbol, LONG, 0.1, 1.0, 1.0, None, None)
  }

  function OneOrder(symbol: string): PortfolioTarget {
    PortfolioTarget("X", [Order(symbol)], 1.0 - 0.1, 0.1, map[])
  }

  function QuoteOf(symbol: string): Quotes {
    map[symbol := Snapshot(Some(100.0), None, None, None, None)]
  }

  function View(symbol: string, now: int): Views {
    Views(map[], map[], QuoteOf(symbol), now, now, now)
  }

  /** Two tasks, each on a target of a single position. */
  const SCALPS := Task(SCALPER, OneOrder("A"), View("A", 0)) + Task(SCALPER, OneOrder("B"), View("B", 1))

  lemma OrdersAreApproved(symbol: string)
    ensures ONE_POSITION.Valid() && OneOrder(symbol).Valid()
    ensures Assess(ONE_POSITION, OneOrder(symbol)) == APPROVED(OneOrder(symbol))
  {
    hide TryReduce, Issues;
    assert OneOrder(symbol).positions[0].weight == 0.1;
    NoIssuesWithinLimits(ONE_POSITION, OneOrder(symbol));
  }

  lemma {:induction false} NothingQuoted(c: Calculator, l: Ledger, now: int, n: nat)
    requires n <= |l.rows|
    ensures MarkUpTo(c, map[], now, l, n).ledger == l
  {
    if n > 0 { NothingQuoted(c, l, now, n - 1); }
  }

  /** Without quotes a task with no close reasons of a scalper only opens. */
  lemma TaskOnlyOpens(feeText: real -> string, l: Ledger, symbol: string, now: int)
    requires l == Revalued(l) && AllTradable(SCALPER, QuoteOf(symbol))
    ensures AllCallable(SCALPER, Task(SCALPER, OneOrder(symbol), View(symbol, now)))
    ensures After(SCALPER, feeText, l, Task(SCALPER, OneOrder(symbol), View(symbol, now)))
            == ExecuteTarget(SCALPER, l, OneOrder(symbol), QuoteOf(symbol), now).ledger
  {
    hide Revalued, ExecuteTarget, MarkUpTo, AllTradable;
    NothingQuoted(SCALPER, l, now, |l.rows|);
    var task := Task(SCALPER, OneOrder(symbol), View(symbol, now));
    assert task == [MarkStep(map[], now), ExecuteStep(OneOrder(symbol), QuoteOf(symbol), now)];
    assert task[..1] == [task[0]] && task[..1][..0] == [];
    assert After(SCALPER, feeText, l, []) == l;
    assert After(SCALPER, feeText, l, [task[0]]) == l;
  }

  predicate OrderRow(p: Position, symbol: string) {
    && p.status.OPEN? && p.exchange == "X" && p.symbol == symbol && p.side == LONG
    && p.quantity == 10.0 && p.entryPrice == 100.0 && p.currentPrice == 100.0 && p.notional == 1000.0
  }

  lemma OrderAmounts()
    ensures Money(0.0) == 0.0 && Money(100.0) == 100.0 && Money(10.0) == 10.0 && Money(1000.0) == 1000.0
    ensures Money(9000.0) == 9000.0 && Money(10000.0) == 10000.0
    ensures Times(0.1, 10000.0) == 1000.0 && Times(100.0, 10.0) == 1000.0 && 1000.0 / 100.0 == 10.0
  {
    WholeIsMoney(0); WholeIsMoney(100); WholeIsMoney(10); WholeIsMoney(1000); WholeIsMoney(9000); WholeIsMoney(10000);
  }

  lemma OrderPrices()
    ensures SCALPER.ExecutionPrice(100.0, LONG) == SCALPER.ExecutionPrice(100.0, SHORT) == 100.0
    ensures SCALPER.Tradable(100.0)
    ensures SCALPER.TargetNotional(0.1, 10000.0) == 1000.0 && SCALPER.Fee(1000.0) == 0.0
  {
    hide Money, Times, Calculator.TargetNotional, Calculator.Fee, Calculator.ExecutionPrice;
    OrderAmounts();
    FrictionlessPrices(SCALPER, 100.0, LONG);
    FrictionlessPrices(SCALPER, 100.0, SHORT);
    FrictionlessAmounts(SCALPER, 0.1, 10000.0);
    FrictionlessAmounts(SCALPER, 0.0, 1000.0);
  }

  /** The order is filled for a tenth of the equity. */
  lemma OrderIsFilled(l: Ledger, symbol: string, now: int)
    requires AllOpen(l.rows) && !HasOpen(l.rows, "X", symbol)
    requires l.equity == 10000.0 && l.cash >= 1000.0
    ensures AllTradable(SCALPER, QuoteOf(symbol))
    ensures var after := ExecuteTarget(SCALPER, l, OneOrder(symbol), QuoteOf(symbol), now).ledger;
            && |after.rows| == |l.rows| + 1 && after.rows[..|l.rows|] == l.rows && OrderRow(after.rows[|l.rows|], symbol)
            && after == Revalued(after) && after.cash == Money(l.cash - 1000.0)
  {
    hide Money, Times, Screen, ExecuteTarget, Calculator.Tradable, Calculator.TargetNotional, Calculator.Fee,
         Calculator.ExecutionPrice, Calculator.Bracket, SumOpen, AllOpen, HasOpen;
    OrderAmounts();
    OrderPrices();
    OrderOpens(SCALPER, l, Order(symbol), 100.0, now);
  }

  lemma EquityOfOne(l: Ledger)
    requires |l.rows| == 1 && OrderRow(l.rows[0], "A") && l.cash == 9000.0
    ensures Revalued(l).equity == 10000.0
  {
    OrderAmounts();
    hide Money, Times;
    assert l.rows[..0] == [];
    assert SumOpen(l.rows, Worth) == Worth(l.rows[0]);
  }

  lemma StartOfRun()
    ensures Initial(10000.0) == Revalued(Initial(10000.0)) && IsMoney(10000.0)
  {
    WholeIsMoney(10000);
    MoneyError(10000.0);
    InitiallySound(SCALPING_ACCOUNT, 0);
  }

  lemma {:induction false} AfterBoth(c: Calculator, feeText: real -> string, l: Ledger, one: seq<Step>, two: seq<Step>)
    requires AllCallable(c, one) && AllCallable(c, two)
    ensures AllCallable(c, one + two)
    ensures After(c, feeText, l, one + two) == After(c, feeText, After(c, feeText, l, one), two)
  {
    hide Apply, Callable;
    var both := one + two;
    if |two| == 0 {
      assert both == one;
    } else {
      assert both[..|both| - 1] == one + two[..|two| - 1];
      AfterBoth(c, feeText, l, one, two[..|two| - 1]);
    }
  }

  /** Under a limit of one position, two tasks whose targets pass unchanged leave two positions open: a scalper does not
      close what is not in the target. */
  lemma ScalperOutgrowsLimit(feeText: real -> string)
    ensures Runs(SCALPING_ACCOUNT, SCALPS, 0)
    ensures ONE_POSITION.Valid() && ONE_POSITION.maxPositions == 1
    ensures Assess(ONE_POSITION, OneOrder("A")) == APPROVED(OneOrder("A"))
    ensures Assess(ONE_POSITION, OneOrder("B")) == APPROVED(OneOrder("B"))
    ensures |OpenAt(Reached(SCALPING_ACCOUNT, feeText, SCALPS).rows, "X")| == 2
  {
    hide Money, Revalued, ExecuteTarget, Assess, Task, Apply, SumOpen, AllTradable, OneOrder;
    OrdersAreApproved("A");
    OrdersAreApproved("B");
    StartOfRun();
    var l := Initial(10000.0);
    OrderIsFilled(l, "A", 0);
    TaskOnlyOpens(feeText, l, "A", 0);
    OrderAmounts();
    var l1 := ExecuteTarget(SCALPER, l, OneOrder("A"), QuoteOf("A"), 0).ledger;
    EquityOfOne(l1);
    OrderIsFilled(l1, "B", 1);
    TaskOnlyOpens(feeText, l1, "B", 1);
    var l2 := ExecuteTarget(SCALPER, l1, OneOrder("B"), QuoteOf("B"), 1).ledger;
    AfterBoth(SCALPER, feeText, l, Task(SCALPER, OneOrder("A"), View("A", 0)), Task(SCALPER, OneOrder("B"), View("B", 1)));
    ScalpsAreTimed();
    assert OpenAt(l2.rows, "X") == {0, 1};
  }

  lemma ScalpsAreTimed()
    ensures Timed(SCALPS, 0) && |SCALPS| == 4 && forall i | 0 <= i < |SCALPS| && SCALPS[i].MarkStep? :: Markable(SCALPS[i].quotes)
  {
  }
}
