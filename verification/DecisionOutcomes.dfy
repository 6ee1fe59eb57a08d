/** What one decision of the backtest puts on the log, in terms of the log, the bar and the configured rates. */
module DecisionOutcomes {
  import opened BacktestEngine
  import opened Decisions
  import opened Options
  import opened PositionTable
  import opened Rounding

  /** One and a half ATRs as a share of the close, between 0.5% and 5%; 1% without an ATR or a close. */
  function StopDistance(bar: Bar): real {
    if bar.atr.Some? && bar.atr.value > 0.0 && bar.close > 0.0 then
      var share := bar.atr.value / bar.close * 1.5;
      if share < 0.005 then 0.005 else if share > 0.05 then 0.05 else share
    else 0.01
  }

  /** The relative gain of the holding at the close. */
  function Move(h: Holding, close: real): real
    requires h.entryPrice != 0.0
  {
    if h.side == LONG then (close - h.entryPrice) / h.entryPrice else (h.entryPrice - close) / h.entryPrice
  }

  predicate Reverses(action: Action, side: Side) {
    (side == LONG && action == CONSIDER_SHORT) || (side == SHORT && action == CONSIDER_LONG)
  }

  predicate Closes(h: Holding, action: Action, bar: Bar)
    requires h.entryPrice != 0.0
  {
    var gain, stop := Move(h, bar.close), StopDistance(bar);
    gain >= 2.0 * stop || gain <= -stop || Reverses(action, h.side)
  }

  /** Why it closes: profit before loss before the signal. */
  function Reason(h: Holding, bar: Bar): string
    requires h.entryPrice != 0.0
  {
    var gain, stop := Move(h, bar.close), StopDistance(bar);
    if gain >= 2.0 * stop then "Take Profit" else if gain <= -stop then "Stop Loss" else "Strategy Reversal"
  }

  /** The closing fill: at the close less slippage for a long and plus slippage for a short. */
  function ClosedFill(p: Params, h: Holding, bar: Bar, reason: string): Fill {
    var price := if h.side == LONG then Times(bar.close, 1.0 - p.slippage) else Times(bar.close, 1.0 + p.slippage);
    var bought, sold := if h.side == LONG then h.entryPrice else price, if h.side == LONG then price else h.entryPrice;
    var fee := Times(Times(h.quantity, price), p.feeRate);
    Close(bar.time, h.symbol, h.side, price, h.quantity, fee, reason,
          Times(h.quantity, sold) - Times(h.quantity, bought) - fee - h.openFee)
  }

  /** The balance once the fill is booked: a long returns its proceeds, a short its stake and its profit. */
  function BalanceAfter(balance: real, h: Holding, t: Fill): real
    requires t.Close?
  {
    if h.side == LONG then balance + Times(t.quantity, t.price) - t.fee else balance + Times(h.quantity, h.entryPrice) + t.pnl
  }

  function FillPrice(p: Params, action: Action, close: real): real {
    if action == CONSIDER_LONG then Times(close, 1.0 + p.slippage) else Times(close, 1.0 - p.slippage)
  }

  /** The opening fill, for a tenth of the balance at that moment. */
  function OpenedFill(p: Params, balance: real, d: TradingDecision, bar: Bar): Fill
    requires FillPrice(p, d.action, bar.close) != 0.0
  {
    var price := FillPrice(p, d.action, bar.close);
    Open(bar.time, d.symbol, if d.action == CONSIDER_LONG then LONG else SHORT, price, Times(balance, 0.1) / price,
         Times(Times(balance, 0.1), p.feeRate), d.reason)
  }

  lemma DistanceIsStop(bar: Bar)
    ensures StopPct(bar) == StopDistance(bar) && ProfitPct(bar) == 2.0 * StopDistance(bar)
  {
  }

  lemma ReasonIff(h: Holding, action: Action, bar: Bar)
    requires h.entryPrice != 0.0
    ensures ExitReason(h, action, bar).Some? <==> Closes(h, action, bar)
  {
    hide StopPct, ProfitPct, StopDistance;
    DistanceIsStop(bar);
  }

  lemma FillIs(p: Params, h: Holding, bar: Bar, reason: string)
    ensures ClosingFill(p, h, bar, reason) == ClosedFill(p, h, bar, reason)
  {
    hide Times;
  }

  lemma ReasonIs(h: Holding, action: Action, bar: Bar)
    requires h.entryPrice != 0.0 && ExitReason(h, action, bar).Some?
    ensures ExitReason(h, action, bar).value == Reason(h, bar)
  {
    hide StopPct, ProfitPct, StopDistance;
    DistanceIsStop(bar);
  }

  /** What the decision does to a held position: it is closed if and only if its gain has reached twice the stop
      distance or its loss the distance itself, or the signal is the opposite entry; for that reason, in that order. */
  lemma HeldPositionCloses(p: Params, s: Sim, d: TradingDecision, bar: Bar)
    requires Sound(p, s) && Outstanding(s.trades, d.symbol).Some?
    ensures var h := Outstanding(s.trades, d.symbol).value;
            && h.entryPrice != 0.0
            && var after := AfterExit(p, s, d, bar);
               if Closes(h, d.action, bar) then
                 && after.trades == s.trades + [ClosedFill(p, h, bar, Reason(h, bar))]
                 && after.balance == BalanceAfter(s.balance, h, ClosedFill(p, h, bar, Reason(h, bar)))
               else after == s
  {
    hide Times, ExitReason, Closes, Reason, ClosedFill, ClosingFill, Paired, Balanced;
    NotHeldMeansNothingOutstanding(s.book, s.trades, d.symbol);
    var h := s.book[IndexOf(s.book, d.symbol)];
    ReasonIff(h, d.action, bar);
    if ExitReason(h, d.action, bar).Some? {
      ReasonIs(h, d.action, bar);
      FillIs(p, h, bar, Reason(h, bar));
      BookedBalance(p, s, d.symbol, bar, ExitReason(h, d.action, bar).value);
    }
  }

  lemma BookedBalance(p: Params, s: Sim, symbol: string, bar: Bar, reason: string)
    requires Holds(s.book, symbol)
    ensures var h := s.book[IndexOf(s.book, symbol)];
            && ClosingFill(p, h, bar, reason).Close?
            && Closed(p, s, symbol, bar, reason).balance == BalanceAfter(s.balance, h, ClosingFill(p, h, bar, reason))
            && Closed(p, s, symbol, bar, reason).trades == s.trades + [ClosingFill(p, h, bar, reason)]
  {
    hide Times;
  }

  // ---------- the whole decision ----------

  /** The closing fill of the decision, if there is one. */
  function ClosingOn(p: Params, held: Option<Holding>, action: Action, bar: Bar): seq<Fill>
    requires held.Some? ==> held.value.entryPrice != 0.0
  {
    if held.Some? && Closes(held.value, action, bar) then [ClosedFill(p, held.value, bar, Reason(held.value, bar))] else []
  }

  function BalanceOnceClosed(p: Params, balance: real, held: Option<Holding>, action: Action, bar: Bar): real
    requires held.Some? ==> held.value.entryPrice != 0.0
  {
    if held.Some? && Closes(held.value, action, bar) then
      BalanceAfter(balance, held.value, ClosedFill(p, held.value, bar, Reason(held.value, bar)))
    else
      balance
  }

  /** The symbol is free, at once or because it was closed, and the signal is an entry. */
  predicate WantsIn(held: Option<Holding>, action: Action, bar: Bar)
    requires held.Some? ==> held.value.entryPrice != 0.0
  {
    (held.None? || Closes(held.value, action, bar)) && (action == CONSIDER_LONG || action == CONSIDER_SHORT)
  }

  lemma HeldIsPriced(p: Params, s: Sim, symbol: string)
    requires Sound(p, s)
    ensures var held := Outstanding(s.trades, symbol); held.Some? ==> held.value.entryPrice != 0.0
    ensures Holds(s.book, symbol) <==> Outstanding(s.trades, symbol).Some?
  {
    hide Paired, Balanced;
    NotHeldMeansNothingOutstanding(s.book, s.trades, symbol);
    if Holds(s.book, symbol) { assert s.book[IndexOf(s.book, symbol)].entryPrice != 0.0; }
  }

  lemma ExitOnTheLog(p: Params, s: Sim, d: TradingDecision, bar: Bar)
    requires Sound(p, s)
    ensures var held := Outstanding(s.trades, d.symbol);
            && (held.Some? ==> held.value.entryPrice != 0.0)
            && var exited := AfterExit(p, s, d, bar);
               && exited.trades == s.trades + ClosingOn(p, held, d.action, bar)
               && exited.balance == BalanceOnceClosed(p, s.balance, held, d.action, bar)
               && (WouldOpen(exited, d) <==> WantsIn(held, d.action, bar))
  {
    hide Times, Closes, ClosedFill, BalanceAfter, Paired, Balanced, AfterExit, Outstanding;
    HeldIsPriced(p, s, d.symbol);
    var held := Outstanding(s.trades, d.symbol);
    ProcessKeepsSound(p, s, d, bar);
    var exited := AfterExit(p, s, d, bar);
    HeldIsPriced(p, exited, d.symbol);
    if held.Some? {
      HeldPositionCloses(p, s, d, bar);
      if Closes(held.value, d.action, bar) {
        LogAppend(s.trades, ClosedFill(p, held.value, bar, Reason(held.value, bar)));
        FillNames(p, held.value, bar, Reason(held.value, bar));
        HeldSymbol(s.trades, d.symbol);
      }
    } else {
      NothingExits(p, s, d, bar);
    }
  }

  lemma FillNames(p: Params, h: Holding, bar: Bar, reason: string)
    ensures ClosedFill(p, h, bar, reason).Close? && ClosedFill(p, h, bar, reason).symbol == h.symbol
  {
  }

  lemma {:induction false} HeldSymbol(trades: seq<Fill>, symbol: string)
    ensures Outstanding(trades, symbol).Some? ==> Outstanding(trades, symbol).value.symbol == symbol
  {
    if |trades| > 0 { HeldSymbol(trades[..|trades| - 1], symbol); }
  }

  lemma NothingExits(p: Params, s: Sim, d: TradingDecision, bar: Bar)
    requires Priced(s.book) && !Holds(s.book, d.symbol)
    ensures AfterExit(p, s, d, bar) == s
  {
  }

  /** From any sound state: the decision adds to the log the closing of the held position, if its gain or loss or the
      signal calls for it, and then an opening, if the symbol is free and the signal is an entry at a price that is
      not zero; nothing else, and the balance moves accordingly.  It fails exactly where that price is zero. */
  lemma DecisionOnTheLog(p: Params, s: Sim, d: TradingDecision, bar: Bar)
    requires Sound(p, s)
    ensures var held := Outstanding(s.trades, d.symbol);
            && (held.Some? ==> held.value.entryPrice != 0.0)
            && var after, closing := Processed(p, s, d, bar), ClosingOn(p, held, d.action, bar);
               var balance, price := BalanceOnceClosed(p, s.balance, held, d.action, bar), FillPrice(p, d.action, bar.close);
               && (DividesByZero(p, s, d, bar) <==> WantsIn(held, d.action, bar) && price == 0.0)
               && if WantsIn(held, d.action, bar) && price != 0.0 then
                    var opening := OpenedFill(p, balance, d, bar);
                    && after.trades == s.trades + closing + [opening]
                    && after.balance == balance - (Times(balance, 0.1) + opening.fee)
                  else after.trades == s.trades + closing && after.balance == balance
  {
    hide Times, ClosingOn, BalanceOnceClosed, WantsIn, AfterExit, Outstanding, BookMatches, Paired, Balanced;
    ExitOnTheLog(p, s, d, bar);
    EntryIsFill(p, d.action, bar.close);
  }

  lemma EntryIsFill(p: Params, action: Action, close: real)
    ensures EntryPrice(p, action, close) == FillPrice(p, action, close)
  {
  }

  // ---------- the whole run ----------

  /** One more bar: nothing while there are fewer than five; from then on the strategy is shown the last five, and what
      it decides, if anything, is carried out at the newest, unless the run has failed. */
  lemma BarByBar(p: Params, strategy: Strategy, bars: seq<Bar>, s: Sim)
    requires Priced(s.book)
    ensures |bars| < 5 ==> Replay(p, strategy, bars, s) == Some(s)
    ensures |bars| >= 5 ==>
              var n := |bars| - 1;
              var before, d := Replay(p, strategy, bars[..n], s), strategy(bars[n - 4..]);
              Replay(p, strategy, bars, s)
              == if before.None? || d.None? then before
                 else if DividesByZero(p, before.value, d.value, bars[n]) then None
                 else Some(Processed(p, before.value, d.value, bars[n]))
  {
    hide Processed, DividesByZero;
    if |bars| < 5 { FewBars(p, strategy, bars, s); }
  }

  lemma {:induction false} FewBars(p: Params, strategy: Strategy, bars: seq<Bar>, s: Sim)
    requires Priced(s.book) && |bars| < 5
    ensures Replay(p, strategy, bars, s) == Some(s)
  {
    hide Processed, DividesByZero, Tail;
    if |bars| > 0 { FewBars(p, strategy, bars[..|bars| - 1], s); }
  }

  /** What the last bar leaves open in the symbol is closed there, for that reason. */
  lemma RunEndsFlat(p: Params, strategy: Strategy, symbol: string, bars: seq<Bar>, s: Sim)
    requires Sound(p, s) && |bars| > 0 && Replay(p, strategy, bars, s).Some?
    ensures var last := Replay(p, strategy, bars, s).value;
            var held := Outstanding(last.trades, symbol);
            Ran(p, strategy, symbol, bars, s).Some? &&
            var end := Ran(p, strategy, symbol, bars, s).value;
            if held.Some? then
              var fill := ClosedFill(p, held.value, bars[|bars| - 1], "End of Backtest");
              end.trades == last.trades + [fill] && end.balance == BalanceAfter(last.balance, held.value, fill)
            else end == last
  {
    hide Replay, Times, ClosedFill, ClosingFill, BalanceAfter, BookMatches, Paired, Balanced, Outstanding, Closed;
    ReplayKeepsSound(p, strategy, bars, s);
    var last, bar := Replay(p, strategy, bars, s).value, bars[|bars| - 1];
    HeldIsPriced(p, last, symbol);
    if Holds(last.book, symbol) {
      HoldingIsOutstanding(p, last, symbol);
      FillIs(p, last.book[IndexOf(last.book, symbol)], bar, "End of Backtest");
      BookedBalance(p, last, symbol, bar, "End of Backtest");
    }
  }

  lemma HoldingIsOutstanding(p: Params, s: Sim, symbol: string)
    requires Sound(p, s) && Holds(s.book, symbol)
    ensures Outstanding(s.trades, symbol) == Some(s.book[IndexOf(s.book, symbol)])
  {
    hide Paired, Balanced;
  }
}
