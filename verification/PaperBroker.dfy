/**
 The paper broker itself: one account, its position repository and its trade ledger, and
 the loops that carry out the three steps of module Ledger.
 */
module PaperBroker {
  import opened Ledger
  import opened Options
  import opened PositionTable
  import opened RiskCalculator
  import opened Rounding
  import opened Targets

  lemma OpenAllNone(c: Calculator, o: Opening, start: Progress, ts: seq<TargetPosition>)
    requires AllTradable(c, o.quotes)
    ensures OpenAll(c, o, start, ts[..0]) == start
  {
  }

  lemma OpenAllNext(c: Calculator, o: Opening, start: Progress, ts: seq<TargetPosition>, i: nat)
    requires AllTradable(c, o.quotes) && i < |ts|
    ensures OpenAll(c, o, start, ts[..i + 1]) == OpenOne(c, o, OpenAll(c, o, start, ts[..i]), ts[i])
  {
    assert ts[..i + 1][..i] == ts[..i];
  }

  lemma ExecutesAtSomePrice(c: Calculator, quotes: Quotes, symbol: string, side: Side)
    requires AllTradable(c, quotes) && ClosePriceOf(quotes, symbol).Some? && ClosePriceOf(quotes, symbol).value > 0.0
    ensures c.ExecutionPrice(ClosePriceOf(quotes, symbol).value, side) > 0.0
  {
    hide Money, Times;
    assert c.Tradable(quotes[symbol].close.value);
  }

  class PaperBrokerService {
    const calculator: Calculator
    const feeText: real -> string
    const repository: PositionRepository

    var cashBalance: real
    var equity: real
    var trades: seq<Trade>

    constructor (calculator: Calculator, feeText: real -> string, initialBalance: real)
      ensures View() == Initial(initialBalance)
      ensures fresh(repository)
      ensures this.calculator == calculator && this.feeText == feeText
    {
      this.calculator := calculator;
      this.feeText := feeText;
      repository := new PositionRepository();
      cashBalance := initialBalance;
      equity := initialBalance;
      trades := [];
    }

    /** The state of the account as a value. */
    ghost function View(): Ledger
      reads this, repository
    {
      Ledger(cashBalance, equity, repository.rows, trades)
    }

    method CalculateOpenPositionsValue() returns (value: real)
      ensures value == OpenPositionsValue(repository.rows)
    {
      var rows := repository.rows;
      var total := 0.0;
      for i := 0 to |rows|
        invariant total == SumOpen(rows[..i], Worth)
      {
        assert rows[..i + 1][..i] == rows[..i];
        var position := rows[i];
        if position.status.OPEN? {
          if position.side == LONG {
            total := total + Times(position.currentPrice, position.quantity);
          } else {
            total := total + Times(2.0 * position.entryPrice - position.currentPrice, position.quantity);
          }
        }
      }
      assert rows[..|rows|] == rows;
      value := Money(total);
    }

    method UpdateBalances(cash: real)
      modifies this
      ensures View() == Revalued(old(View()).(cash := cash))
    {
      var value := CalculateOpenPositionsValue();
      cashBalance := cash;
      equity := Money(cash + value);
    }

    /** Opens what the target asks for and the checks let through. */
    method ExecuteTargetPortfolio(target: PortfolioTarget, quotes: Quotes, now: int)
        returns (executed: seq<Item>, skipped: seq<Item>)
      requires AllTradable(calculator, quotes)
      modifies this, repository
      ensures Progress(View(), executed, skipped) == ExecuteTarget(calculator, old(View()), target, quotes, now)
    {
      hide Money, Times, HasOpen, StoppedSince, CountStops, ThinOrWide, AllTradable, OpenAll, Revalued,
           RecentStopLossSymbols, WhipsawSymbols, Calculator.Tradable, Calculator.ExecutionPrice, Calculator.Bracket,
           Calculator.Fee, Calculator.TargetNotional;
      var startingEquity := equity;
      var availableCash := cashBalance;
      var stopped := RecentStopLossSymbols(repository.rows, target.exchange, now, 120);
      var whipsawed := WhipsawSymbols(repository.rows, target.exchange, now, 2, 2880);
      executed, skipped := [], [];
      ghost var start := View();
      ghost var o := BeginOpening(start, target, quotes, now);
      OpenAllNone(calculator, o, Progress(start, [], []), target.positions);

      for i := 0 to |target.positions|
        invariant equity == startingEquity
        invariant Progress(Ledger(availableCash, equity, repository.rows, trades), executed, skipped)
               == OpenAll(calculator, o, Progress(start, [], []), target.positions[..i])
      {
        var t := target.positions[i];
        ghost var before := Progress(Ledger(availableCash, equity, repository.rows, trades), executed, skipped);
        ghost var cash0 := availableCash;
        OpenAllNext(calculator, o, Progress(start, [], []), target.positions, i);

        if HasOpen(repository.rows, target.exchange, t.symbol) {
          skipped := skipped + [Item(t.symbol, ALREADY_OPEN)];
          continue;
        }
        if t.symbol in stopped || t.symbol in whipsawed {
          skipped := skipped + [Item(t.symbol, if t.symbol in stopped then STOP_LOSS_COOLDOWN else WHIPSAW_COOLDOWN)];
          continue;
        }
        var close := ClosePriceOf(quotes, t.symbol);
        if close.None? || close.value <= 0.0 {
          skipped := skipped + [Item(t.symbol, NO_PRICE)];
          continue;
        }
        var price := close.value;
        if ThinOrWide(quotes[t.symbol]) {
          skipped := skipped + [Item(t.symbol, THIN_LIQUIDITY)];
          continue;
        }
        var notional := calculator.TargetNotional(t.weight, startingEquity);
        if notional <= 0.0 {
          skipped := skipped + [Item(t.symbol, ZERO_NOTIONAL)];
          continue;
        }
        var fee := calculator.Fee(notional);
        var totalCost := notional + fee;
        if totalCost > availableCash {
          skipped := skipped + [Item(t.symbol, INSUFFICIENT_CASH)];
          continue;
        }

        ExecutesAtSomePrice(calculator, quotes, t.symbol, t.side);
        var executionPrice := calculator.ExecutionPrice(price, t.side);
        var quantity := calculator.Quantity(notional, executionPrice);
        // The lookup of an ATR for the bracket always fails, so the percentage bracket applies.
        var bracket := calculator.Bracket(price, t.side, None, t.overrideStop, t.overrideTarget);
        var row := NewRow(target.exchange, t.symbol, t.side, quantity, price, notional, now,
                          Some(bracket.0), Some(bracket.1));
        var id := repository.CreateOpenPosition(row);
        trades := trades + [Trade(OPENING, target.exchange, t.symbol, if t.side == LONG then BUY else SELL,
                                  quantity, executionPrice, notional, 0.0 - fee, id, now)];
        availableCash := Money(availableCash - totalCost);
        executed := executed + [Item(t.symbol, EXECUTED)];
        assert row == OpenRow(calculator, o, t);
        assert Ledger(availableCash, equity, repository.rows, trades) == OpenPosition(calculator, o, before.ledger, t);
      }
      assert target.positions[..|target.positions|] == target.positions;
      UpdateBalances(availableCash);
    }

    /** Closes one position at the slipped price of `price`, and returns the cash that results. */
    method SettlePosition(id: nat, price: real, now: int, reason: string, availableCash: real) returns (cash: real)
      requires id < |repository.rows|
      modifies this`trades, repository
      ensures Ledger(cash, equity, repository.rows, trades)
           == Settle(calculator, old(View()).(cash := availableCash), id, price, now, reason)
    {
      var position := repository.rows[id];
      var exit := calculator.ExitPrice(price, position.side);
      var raw := Gain(position.side, position.entryPrice, exit, position.quantity);
      var gross := Money(Times(position.quantity, exit));
      var fee := calculator.Fee(gross);
      var recovered := Money(Times(position.quantity, position.entryPrice) + raw - fee);
      repository.ClosePosition(id, exit, now, reason);
      var closed := repository.rows[id];
      repository.rows := repository.rows[id := closed.(realizedPnl := closed.realizedPnl - fee)];
      trades := trades + [Trade(CLOSING, position.exchange, position.symbol,
                                if position.side == LONG then SELL else BUY, position.quantity, exit, gross,
                                closed.realizedPnl - fee, id, now)];
      cash := Money(availableCash + recovered);
    }

    /** Closes the positions that the target does not hold on the same side. */
    method ClosePositionsNotInTarget(target: PortfolioTarget, quotes: Quotes, now: int)
        returns (executed: seq<Item>, skipped: seq<Item>)
      modifies this, repository
      ensures Progress(View(), executed, skipped)
           == CloseNotInTarget(calculator, feeText, old(View()), target, quotes, now)
    {
      hide Money, Times, Settle, TargetSide, RebalanceReason, Revalued, Calculator.Fee, Calculator.ExitPrice;
      var availableCash := cashBalance;
      executed, skipped := [], [];
      ghost var start := View();
      var openPositions := repository.rows;

      for i := 0 to |openPositions|
        invariant equity == start.equity && openPositions == start.rows
        invariant Progress(Ledger(availableCash, equity, repository.rows, trades), executed, skipped)
               == CloseUpTo(calculator, feeText, target, quotes, now, start, i)
      {
        ghost var before := Progress(Ledger(availableCash, equity, repository.rows, trades), executed, skipped);
        TailHead(repository.rows, start.rows, i);
        var position := openPositions[i];
        if !position.status.OPEN? {
          continue;
        }
        if TargetSide(target.positions, position.symbol) == Some(position.side) {
          skipped := skipped + [Item(position.symbol, STILL_IN_TARGET)];
          continue;
        }
        var price := ClosePriceOf(quotes, position.symbol);
        if (price.None? || price.value <= 0.0) && position.currentPrice > 0.0 {
          price := Some(position.currentPrice);
        }
        if price.None? || price.value <= 0.0 {
          skipped := skipped + [Item(position.symbol, NO_PRICE)];
          continue;
        }
        var fee := calculator.Fee(Money(Times(position.quantity, calculator.ExitPrice(price.value, position.side))));
        var reason := RebalanceReason(target.closeReasons, position.symbol, feeText(fee));
        availableCash := SettlePosition(i, price.value, now, reason, availableCash);
        executed := executed + [Item(position.symbol, EXECUTED)];
        assert Progress(Ledger(availableCash, equity, repository.rows, trades), executed, skipped)
            == CloseOne(calculator, feeText, target, quotes, now, before, i);
      }
      UpdateBalances(availableCash);
    }

    /** Marks every open position to its quote, trails its stop, and exits at the stop or the target. */
    method UpdateMarkPrices(quotes: Quotes, now: int) returns (executed: seq<Item>, skipped: seq<Item>)
      modifies this, repository
      ensures Progress(View(), executed, skipped) == MarkToMarket(calculator, old(View()), quotes, now)
    {
      hide Money, Times, Settle, Revalued, PotentialStop, MovesStop, StopHit, TargetHit, ZeroIfTiny, Gain;
      executed, skipped := [], [];
      ghost var start := View();
      var positions := repository.rows;

      for i := 0 to |positions|
        invariant equity == start.equity && positions == start.rows
        invariant Progress(View(), executed, skipped) == MarkUpTo(calculator, quotes, now, start, i)
      {
        ghost var before := Progress(View(), executed, skipped);
        TailHead(repository.rows, start.rows, i);
        var position := positions[i];
        if !position.status.OPEN? {
          continue;
        }
        var close := ClosePriceOf(quotes, position.symbol);
        if close.None? || close.value <= 0.0 {
          skipped := skipped + [Item(position.symbol, NO_PRICE)];
          continue;
        }
        var price := close.value;
        repository.UpdateMarkPrice(i, price);
        var potential := PotentialStop(calculator, repository.rows[i], quotes[position.symbol].atr, price);
        if MovesStop(calculator, repository.rows[i], potential, price) {
          repository.UpdateStopLoss(i, potential);
        }
        var row := repository.rows[i];
        assert row == MarkedAndTrailed(calculator, position, quotes[position.symbol].atr, price);
        assert repository.rows == before.ledger.rows[i := row];
        var stopHit := StopHit(row, price);
        var targetHit := TargetHit(row, price);
        if stopHit || targetHit {
          var reason := if stopHit then STOP_LOSS else TAKE_PROFIT;
          var cash := SettlePosition(i, price, now, reason, cashBalance);
          cashBalance := cash;
          executed := executed + [Item(position.symbol, if stopHit then STOPPED_OUT else TOOK_PROFIT)];
          continue;
        }
        executed := executed + [Item(position.symbol, MARKED)];
      }
      UpdateBalances(cashBalance);
    }
  }
}
