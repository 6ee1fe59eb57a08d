/** Runs that show where the conditions of BrokerTheorems are needed. */
module BrokerExamples {
  import opened BrokerRuns
  import opened BrokerTheorems
  import opened Ledger
  import opened Options
  import opened PositionTable
  import opened RiskCalculator
  import opened Rounding
  import opened StepOutcomes
  import opened Targets
  import opened TrailingBracket

  lemma WholeIsMoney(n: int)
    ensures Money(n as real) == n as real
  {
    assert n as real == Tick(n * 100000000, MONEY_SCALE);
    MoneyFixed(n as real);
  }

  lemma RoundsToUnits(x: real, n: int)
    requires -0.5 < x * 100000000.0 - n as real < 0.5
    ensures Money(x) == n as real * UNIT
  {
    HalfEvenNearest(x * 100000000.0, n);
  }

  // The run below: a short of 90 units opened at 100 without friction, then a quote of 300.
  const FRICTIONLESS := Calculator(SWING, 0.0, 0.0, false)
  const SHORT_ORDER := TargetPosition("S", SHORT, 0.9, 1.0, 1.0, None, None)
  const OPEN_SHORT := ExecuteStep(PortfolioTarget("X", [SHORT_ORDER], 0.1, 0.9, map[]),
                                  map["S" := Snapshot(Some(100.0), None, None, None, None)], 0)
  const SPIKE := MarkStep(map["S" := Snapshot(Some(300.0), None, None, None, None)], 1)
  const OPENED_SHORT := NewRow("X", "S", SHORT, 90.0, 100.0, 9000.0, 0, Some(103.0), Some(94.0))

  predicate AllOpen(rows: Table) {
    forall p | p in rows :: p.status.OPEN?
  }

  /** An account that has closed nothing is in no cooldown. */
  lemma FreshOpening(l: Ledger, target: PortfolioTarget, quotes: Quotes, now: int)
    requires AllOpen(l.rows)
    ensures BeginOpening(l, target, quotes, now) == Opening(target.exchange, quotes, now, l.equity, {}, {})
  {
    assert RecentStopLossSymbols(l.rows, target.exchange, now, 120) == {};
    assert WhipsawSymbols(l.rows, target.exchange, now, 2, 2880) == {};
  }

  /** An order of such an account, at a plain quote: it opens if cash covers notional and fee. */
  lemma OrderOpens(c: Calculator, l: Ledger, t: TargetPosition, price: real, now: int)
    requires AllOpen(l.rows) && !HasOpen(l.rows, "X", t.symbol)
    requires c.Tradable(price) && price > 0.0
    requires c.TargetNotional(t.weight, l.equity) > 0.0
    requires c.TargetNotional(t.weight, l.equity) + c.Fee(c.TargetNotional(t.weight, l.equity)) <= l.cash
    ensures var quotes: Quotes := map[t.symbol := Snapshot(Some(price), None, None, None, None)];
            var o := Opening("X", quotes, now, l.equity, {}, {});
            && AllTradable(c, quotes)
            && Screen(c, o, l, t) == EXECUTED
            && ExecuteTarget(c, l, PortfolioTarget("X", [t], 1.0 - t.weight, t.weight, map[]), quotes, now).ledger
               == Revalued(OpenPosition(c, o, l, t))
  {
    hide Money, Calculator.TargetNotional, Calculator.Fee, OpenPosition, Revalued, Calculator.Tradable, BeginOpening,
         AllOpen, HasOpen;
    var quotes: Quotes := map[t.symbol := Snapshot(Some(price), None, None, None, None)];
    var target := PortfolioTarget("X", [t], 1.0 - t.weight, t.weight, map[]);
    var o := Opening("X", quotes, now, l.equity, {}, {});
    var start := Progress(l, [], []);
    FreshOpening(l, target, quotes, now);
    assert [t][..0] == [];
    assert OpenAll(c, o, start, []) == start;
    assert OpenAll(c, o, start, [t]) == OpenOne(c, o, start, t);
  }

  lemma ShortAmounts()
    ensures Money(0.0) == 0.0 && Money(100.0) == 100.0 && Money(90.0) == 90.0 && Money(1000.0) == 1000.0
    ensures Money(103.0) == 103.0 && Money(94.0) == 94.0
  {
    WholeIsMoney(0); WholeIsMoney(100); WholeIsMoney(90); WholeIsMoney(1000); WholeIsMoney(103); WholeIsMoney(94);
  }

  predicate Frictionless(c: Calculator) {
    c.commissionRate == 0.0 && c.slippageRate == 0.0 && !c.dynamicSlippage
  }

  lemma FrictionlessPrices(c: Calculator, price: real, side: Side)
    requires Frictionless(c)
    ensures c.ExecutionPrice(price, side) == c.ExitPrice(price, side) == Money(price)
  {
    hide Money;
  }

  lemma FrictionlessAmounts(c: Calculator, weight: real, balance: real)
    requires Frictionless(c) && 0.0 <= weight <= 1.0 && balance >= 0.0
    ensures c.TargetNotional(weight, balance) == Times(weight, balance)
    ensures c.Fee(balance) == Money(0.0)
  {
    hide Money;
    TimesMonotone(balance, weight, 1.0);
  }

  lemma FrictionlessBracket(price: real)
    ensures FRICTIONLESS.Bracket(price, SHORT, None, None, None) == (Money(Times(price, 1.03)), Money(Times(price, 0.94)))
    ensures FRICTIONLESS.Bracket(price, LONG, None, None, None) == (Money(Times(price, 0.97)), Money(Times(price, 1.06)))
  {
    hide Money, Times;
  }

  lemma ShortProducts()
    ensures Times(0.9, 10000.0) == 9000.0 && Times(100.0, 1.03) == 103.0 && Times(100.0, 0.94) == 94.0
    ensures 9000.0 / 100.0 == 90.0
  {
  }

  lemma ShortIsTradable()
    ensures FRICTIONLESS.Tradable(100.0)
  {
    hide Money, Times, Calculator.ExecutionPrice;
    ShortAmounts();
    FrictionlessPrices(FRICTIONLESS, 100.0, LONG);
    FrictionlessPrices(FRICTIONLESS, 100.0, SHORT);
  }

  lemma ShortIsAffordable()
    ensures FRICTIONLESS.TargetNotional(0.9, 10000.0) == 9000.0 && FRICTIONLESS.Fee(9000.0) == 0.0
  {
    hide Money, Times, Calculator.TargetNotional, Calculator.Fee;
    ShortAmounts();
    ShortProducts();
    FrictionlessAmounts(FRICTIONLESS, 0.9, 10000.0);
    FrictionlessAmounts(FRICTIONLESS, 0.0, 9000.0);
  }

  lemma ShortIsOpened()
    requires AllTradable(FRICTIONLESS, OPEN_SHORT.quotes)
    ensures var o := Opening("X", OPEN_SHORT.quotes, 0, 10000.0, {}, {});
            OpenRow(FRICTIONLESS, o, SHORT_ORDER) == OPENED_SHORT
  {
    hide Money, Times, Calculator.TargetNotional, Calculator.Fee, Calculator.ExecutionPrice, Calculator.Bracket, AllTradable;
    ShortAmounts();
    ShortProducts();
    ShortIsAffordable();
    FrictionlessPrices(FRICTIONLESS, 100.0, SHORT);
    FrictionlessBracket(100.0);
  }

  /** The short, marked at 300; its stop stays where it was. */
  lemma SpikeMarks()
    ensures var row := MarkedAndTrailed(FRICTIONLESS, OPENED_SHORT, None, 300.0);
            && row.status.OPEN? && row.side == SHORT && row.quantity == 90.0 && row.entryPrice == 100.0
            && StopHit(row, 300.0)
  {
    hide Money, TrailPct, ZeroIfTiny;
    StoppedOutExactly(FRICTIONLESS, OPENED_SHORT, None, 300.0);
    MarkEvolves(FRICTIONLESS, OPENED_SHORT, None, 300.0);
  }

  lemma SpikeSettles(l: Ledger, row: Position)
    requires l.rows == [row] && l.cash == 1000.0
    requires row.status.OPEN? && row.side == SHORT && row.quantity == 90.0 && row.entryPrice == 100.0
    ensures Settle(FRICTIONLESS, l, 0, 300.0, 1, STOP_LOSS).cash == -8000.0
  {
    WholeIsMoney(300); WholeIsMoney(27000); WholeIsMoney(0); WholeIsMoney(-9000); WholeIsMoney(-8000);
    hide Money;
  }

  lemma SpikeStopsShortOut(l: Ledger)
    requires l.rows == [OPENED_SHORT] && l.cash == 1000.0
    ensures MarkToMarket(FRICTIONLESS, l, SPIKE.quotes, 1).ledger.cash == -8000.0
  {
    hide Settle, MarkedAndTrailed, StopHit, TargetHit, OpenPositionsValue, Money;
    SpikeMarks();
    var row := MarkedAndTrailed(FRICTIONLESS, OPENED_SHORT, None, 300.0);
    SpikeSettles(l.(rows := [row]), row);
    assert l.rows[0 := row] == [row];
    assert MarkUpTo(FRICTIONLESS, SPIKE.quotes, 1, l, 0).ledger == l;
    assert MarkOne(FRICTIONLESS, SPIKE.quotes, 1, Progress(l, [], []), 0).ledger.cash == -8000.0;
    assert MarkUpTo(FRICTIONLESS, SPIKE.quotes, 1, l, 1).ledger.cash == -8000.0;
  }

  lemma ShortStepOpens()
    ensures AllTradable(FRICTIONLESS, OPEN_SHORT.quotes)
    ensures var l := ExecuteTarget(FRICTIONLESS, Initial(10000.0), OPEN_SHORT.target, OPEN_SHORT.quotes, 0).ledger;
            l.cash == 1000.0 && l.rows == [OPENED_SHORT]
  {
    hide Money, Screen, ExecuteTarget, Calculator.Tradable, Calculator.TargetNotional, Calculator.Fee, OpenRow, SumOpen;
    ShortAmounts();
    ShortIsTradable();
    ShortIsAffordable();
    OrderOpens(FRICTIONLESS, Initial(10000.0), SHORT_ORDER, 100.0, 0);
    assert OPEN_SHORT.quotes == map[SHORT_ORDER.symbol := Snapshot(Some(100.0), None, None, None, None)];
    ShortIsOpened();
  }

  /** The condition is needed: a short opened at 100 and stopped out at 300 takes cash below zero. */
  lemma UncoveredShortOverdraws(feeText: real -> string)
    ensures exists a: Account, steps: seq<Step> ::
      Runs(a, steps, 0) && Reached(a, feeText, steps).cash < 0.0
  {
    hide Money, Screen, OpenPosition, MarkUpTo, OpenOne, SumOpen;
    var a := Account(FRICTIONLESS, 10000.0, false);
    var steps := [OPEN_SHORT, SPIKE];
    assert IsMoney(10000.0) by { WholeIsMoney(10000); MoneyError(10000.0); }
    var l := Initial(10000.0);
    ShortStepOpens();
    assert Runs(a, steps, 0);
    var after := Apply(FRICTIONLESS, feeText, l, OPEN_SHORT);
    SpikeStopsShortOut(after);
    assert steps[..1] == [OPEN_SHORT] && steps[..1][..0] == [];
    assert After(FRICTIONLESS, feeText, l, []) == l;
    assert After(FRICTIONLESS, feeText, l, [OPEN_SHORT]) == after;
  }

  // ---------- a stop that overtakes the price ----------

  // The run below: a long opened at 0.9999, then a quote of 1.000000008 with a vanishing ATR, which moves the stop from
  // 0.969903 to the rounded 1.00000001.
  const NEAR_ORDER := TargetPosition("S", LONG, 0.5, 1.0, 1.0, None, None)
  const OPEN_NEAR := ExecuteStep(PortfolioTarget("X", [NEAR_ORDER], 0.5, 0.5, map[]),
                                 map["S" := Snapshot(Some(0.9999), None, None, None, None)], 0)
  const NUDGE := 1.000000008
  const VANISHING := 0.000000001
  const NUDGED := MarkStep(map["S" := Snapshot(Some(NUDGE), None, None, None, Some(VANISHING))], 1)

  predicate NearRow(p: Position) {
    && p.status.OPEN? && p.symbol == "S" && p.side == LONG && p.entryPrice == 0.9999
    && p.stopLoss == Some(0.969903)
  }

  lemma NearAmounts()
    ensures Money(0.0) == 0.0 && Money(0.9999) == 0.9999 && Money(Times(0.9999, 0.97)) == 0.969903
  {
    WholeIsMoney(0);
    RoundsToUnits(0.9999, 99990000);
    RoundsToUnits(Times(0.9999, 0.97), 96990300);
  }

  lemma NearIsTradable()
    ensures FRICTIONLESS.Tradable(0.9999)
    ensures FRICTIONLESS.TargetNotional(0.5, 10000.0) == 5000.0 && FRICTIONLESS.Fee(5000.0) == 0.0
  {
    hide Money, Times, Calculator.TargetNotional, Calculator.Fee, Calculator.ExecutionPrice;
    NearAmounts();
    HalfOfBalance();
    FrictionlessPrices(FRICTIONLESS, 0.9999, LONG);
    FrictionlessPrices(FRICTIONLESS, 0.9999, SHORT);
    FrictionlessAmounts(FRICTIONLESS, 0.5, 10000.0);
    FrictionlessAmounts(FRICTIONLESS, 0.0, 5000.0);
  }

  lemma HalfOfBalance()
    ensures Times(0.5, 10000.0) == 5000.0
  {
  }

  lemma NearStepOpens()
    ensures AllTradable(FRICTIONLESS, OPEN_NEAR.quotes)
    ensures var rows := ExecuteTarget(FRICTIONLESS, Initial(10000.0), OPEN_NEAR.target, OPEN_NEAR.quotes, 0).ledger.rows;
            |rows| == 1 && NearRow(rows[0])
  {
    hide Money, Times, Screen, ExecuteTarget, Calculator.Tradable, Calculator.TargetNotional, Calculator.Fee,
         Calculator.Quantity, Calculator.ExecutionPrice, Calculator.Bracket, SumOpen;
    NearIsTradable();
    NearAmounts();
    FrictionlessBracket(0.9999);
    OrderOpens(FRICTIONLESS, Initial(10000.0), NEAR_ORDER, 0.9999, 0);
    assert OPEN_NEAR.quotes == map[NEAR_ORDER.symbol := Snapshot(Some(0.9999), None, None, None, None)];
  }

  /** The stop to which the quote moves: nearer to it than half a unit, and rounded up past it. */
  lemma NudgedStop(p: Position)
    requires NearRow(p)
    ensures PotentialStop(FRICTIONLESS, MarkedRow(p, NUDGE), Some(VANISHING), NUDGE) == 1.00000001
  {
    hide Money, ZeroIfTiny;
    var pct := TrailPct(FRICTIONLESS, MarkedRow(p, NUDGE), Some(VANISHING), NUDGE);
    assert (NUDGE - 0.9999) / 0.9999 <= 0.02;
    assert 0.0 < pct <= 0.000000002;
    assert 1.0000000055 < Times(NUDGE, 1.0 - pct) <= NUDGE;
    RoundsToUnits(Times(NUDGE, 1.0 - pct), 100000001);
  }

  lemma NudgeOvertakes(p: Position)
    requires NearRow(p)
    ensures p.status.OPEN? && Quoted(NUDGED.quotes, p) && ClosePriceOf(NUDGED.quotes, p.symbol) == Some(NUDGE)
    ensures !StopHit(p, NUDGE) && FallsToStop(FRICTIONLESS, NUDGED.quotes, p)
  {
    hide Money, ZeroIfTiny, PotentialStop;
    NudgedStop(p);
  }

  /** The last step of the run files STOP_LOSS on the first position, although its quote had not reached the stop. */
  ghost predicate OvertakenLast(a: Account, feeText: real -> string, steps: seq<Step>)
    requires AllCallable(a.c, steps) && |steps| > 0
  {
    var before, after := Reached(a, feeText, steps[..|steps| - 1]).rows, Reached(a, feeText, steps).rows;
    var last := steps[|steps| - 1];
    && last.MarkStep? && |before| > 0 && |after| > 0
    && before[0].status.OPEN? && Quoted(last.quotes, before[0])
    && !StopHit(before[0], ClosePriceOf(last.quotes, before[0].symbol).value)
    && after[0].status == CLOSED(last.now, STOP_LOSS)
  }

  /** A stop nearer to the quote than that can overtake it: in some run a long is stopped out in the very step that
      moves its stop, at a quote far above the old one. */
  lemma NearStopOvertakes(feeText: real -> string)
    ensures exists a: Account, steps: seq<Step> :: Runs(a, steps, 0) && |steps| > 0 && OvertakenLast(a, feeText, steps)
  {
    hide Money, Screen, OpenPosition, MarkUpTo, OpenOne, SumOpen, StopHit, FallsToStop, ExecuteTarget, NearRow, MarkToMarket;
    var a := Account(FRICTIONLESS, 10000.0, false);
    var steps := [OPEN_NEAR, NUDGED];
    assert IsMoney(10000.0) by { WholeIsMoney(10000); MoneyError(10000.0); }
    var l := Initial(10000.0);
    NearStepOpens();
    assert Runs(a, steps, 0);
    var entered := Apply(FRICTIONLESS, feeText, l, OPEN_NEAR);
    NudgeOvertakes(entered.rows[0]);
    MarkingRecordsExactly(FRICTIONLESS, entered, NUDGED.quotes, 1, 0);
    assert steps[..1] == [OPEN_NEAR] && steps[..1][..0] == [];
    assert After(FRICTIONLESS, feeText, l, []) == l;
    assert After(FRICTIONLESS, feeText, l, [OPEN_NEAR]) == entered;
    assert OvertakenLast(a, feeText, steps);
  }

  // ---------- a position without a price ----------

  // The run below: a long of dust, opened at 5.1e-9, whose stop rounds to zero, then a quote of 4e-9.
  const DUST := 0.0000000051
  const DUST_ORDER := TargetPosition("S", LONG, 0.5, 1.0, 1.0, None, None)
  const OPEN_DUST := ExecuteStep(PortfolioTarget("X", [DUST_ORDER], 0.5, 0.5, map[]),
                                 map["S" := Snapshot(Some(DUST), None, None, None, None)], 0)
  const FADE := MarkStep(map["S" := Snapshot(Some(0.000000004), None, None, None, None)], 1)
  const EMPTY_TARGET := PortfolioTarget("X", [], 1.0, 0.0, map[])

  const DUST_ROW := NewRow("X", "S", LONG, 500000000000.0, DUST, 5000.0, 0, Some(0.0), Some(UNIT))

  lemma DustAmounts()
    ensures Money(0.0) == 0.0 && Money(DUST) == UNIT && Money(500000000000.0) == 500000000000.0
    ensures Money(Times(DUST, 0.97)) == 0.0 && Money(Times(DUST, 1.06)) == UNIT && Money(0.000000004) == 0.0
  {
    WholeIsMoney(0);
    WholeIsMoney(500000000000);
    RoundsToUnits(DUST, 1);
    RoundsToUnits(Times(DUST, 0.97), 0);
    RoundsToUnits(Times(DUST, 1.06), 1);
    RoundsToUnits(0.000000004, 0);
  }

  lemma DustProducts()
    ensures Times(0.5, 10000.0) == 5000.0 && 5000.0 / UNIT == 500000000000.0
  {
  }

  lemma DustIsTradable()
    ensures FRICTIONLESS.Tradable(DUST)
    ensures FRICTIONLESS.TargetNotional(0.5, 10000.0) == 5000.0 && FRICTIONLESS.Fee(5000.0) == 0.0
  {
    hide Money, Times, Calculator.TargetNotional, Calculator.Fee, Calculator.ExecutionPrice;
    DustAmounts();
    DustProducts();
    FrictionlessPrices(FRICTIONLESS, DUST, LONG);
    FrictionlessPrices(FRICTIONLESS, DUST, SHORT);
    FrictionlessAmounts(FRICTIONLESS, 0.5, 10000.0);
    FrictionlessAmounts(FRICTIONLESS, 0.0, 5000.0);
  }

  lemma DustIsOpened()
    requires AllTradable(FRICTIONLESS, OPEN_DUST.quotes)
    ensures var o := Opening("X", OPEN_DUST.quotes, 0, 10000.0, {}, {});
            OpenRow(FRICTIONLESS, o, DUST_ORDER) == DUST_ROW
  {
    hide Money, Times, Calculator.TargetNotional, Calculator.Fee, Calculator.Tradable, Calculator.ExecutionPrice,
         Calculator.Bracket, AllTradable;
    DustAmounts();
    DustProducts();
    DustIsTradable();
    FrictionlessPrices(FRICTIONLESS, DUST, LONG);
    FrictionlessBracket(DUST);
  }

  lemma DustStepOpens()
    ensures AllTradable(FRICTIONLESS, OPEN_DUST.quotes)
    ensures ExecuteTarget(FRICTIONLESS, Initial(10000.0), OPEN_DUST.target, OPEN_DUST.quotes, 0).ledger.rows == [DUST_ROW]
  {
    hide Money, Screen, ExecuteTarget, Calculator.Tradable, Calculator.TargetNotional, Calculator.Fee, OpenRow, SumOpen;
    DustIsTradable();
    OrderOpens(FRICTIONLESS, Initial(10000.0), DUST_ORDER, DUST, 0);
    assert OPEN_DUST.quotes == map[DUST_ORDER.symbol := Snapshot(Some(DUST), None, None, None, None)];
    DustIsOpened();
  }

  lemma DustFades(l: Ledger)
    requires l.rows == [DUST_ROW]
    ensures var rows := MarkToMarket(FRICTIONLESS, l, FADE.quotes, 1).ledger.rows;
            |rows| == 1 && rows[0].status.OPEN? && rows[0].symbol == "S" && rows[0].currentPrice == 0.0
  {
    hide Money, TrailPct, ZeroIfTiny, Settle, OpenPositionsValue, Gain;
    DustAmounts();
    var price := 0.000000004;
    var row := MarkedAndTrailed(FRICTIONLESS, DUST_ROW, None, price);
    assert row.status.OPEN? && row.currentPrice == 0.0 && !StopHit(row, price) && !TargetHit(row, price);
    assert MarkUpTo(FRICTIONLESS, FADE.quotes, 1, l, 0).ledger == l;
    assert MarkOne(FRICTIONLESS, FADE.quotes, 1, Progress(l, [], []), 0).ledger.rows == [row];
  }

  /** The closing step towards an empty target, without any quote, leaves the first row open. */
  ghost predicate StaysOpen(a: Account, feeText: real -> string, steps: seq<Step>)
    requires AllCallable(a.c, steps)
  {
    var rows := CloseNotInTarget(a.c, feeText, Reached(a, feeText, steps), EMPTY_TARGET, map[], 1).ledger.rows;
    |rows| > 0 && rows[0].status.OPEN?
  }

  /** Without the condition on marks, a position can be left open that no target holds: its mark rounded to zero and
      there is no quote any more. */
  lemma UnpricedPositionStaysOpen(feeText: real -> string)
    ensures exists a: Account, steps: seq<Step> :: Runs(a, steps, 0) && StaysOpen(a, feeText, steps)
  {
    hide Money, Screen, OpenPosition, MarkUpTo, OpenOne, SumOpen, CloseNotInTarget;
    var a := Account(FRICTIONLESS, 10000.0, false);
    var steps := [OPEN_DUST, FADE];
    assert IsMoney(10000.0) by { WholeIsMoney(10000); MoneyError(10000.0); }
    var l := Initial(10000.0);
    DustStepOpens();
    assert Runs(a, steps, 0);
    var after := Apply(FRICTIONLESS, feeText, l, OPEN_DUST);
    DustFades(after);
    assert steps[..1] == [OPEN_DUST] && steps[..1][..0] == [];
    assert After(FRICTIONLESS, feeText, l, []) == l;
    assert After(FRICTIONLESS, feeText, l, [OPEN_DUST]) == after;
    RebalanceLeavesOnlyTargets(a, feeText, steps, 0, EMPTY_TARGET, map[], 1);
    assert StaysOpen(a, feeText, steps);
  }
}
