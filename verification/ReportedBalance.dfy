/**
 When the final balance that a backtest reports is the one its engine ended with: the inputs that make the two
 part.
 */
module ReportedBalance {
  import opened BacktestEngine
  import opened Decisions
  import opened Options
  import opened PositionTable
  import opened Rounding
  import opened Sums
  import Analytics

  // ---------- runs that pay no fee on a short ----------

  /** No short of the log was opened at a fee. */
  predicate ShortsAreFree(trades: seq<Fill>) {
    forall i | 0 <= i < |trades| && trades[i].Open? && trades[i].side == SHORT :: trades[i].fee == 0.0
  }

  lemma {:induction false} OutstandingIsFree(trades: seq<Fill>, symbol: string)
    requires ShortsAreFree(trades)
    ensures var open := Outstanding(trades, symbol);
            open.Some? && open.value.side == SHORT ==> open.value.openFee == 0.0
  {
    if |trades| > 0 { OutstandingIsFree(trades[..|trades| - 1], symbol); }
  }

  lemma {:induction false} FreeShortsCostNothing(trades: seq<Fill>)
    requires Paired(trades) && ShortsAreFree(trades)
    ensures ShortFees(trades) == 0.0
  {
    if |trades| > 0 {
      var n := |trades| - 1;
      FreeShortsCostNothing(trades[..n]);
      OutstandingIsFree(trades[..n], trades[n].symbol);
    }
  }

  /** A decision after which the log gets no short that costs a fee: there is no fee, the decision asks for no short,
      or a short cannot be priced. */
  predicate OpensFree(p: Params, d: TradingDecision) {
    p.feeRate == 0.0 || d.action != CONSIDER_SHORT || p.slippage == 1.0
  }

  lemma ShortEntryIsZero(p: Params, price: real)
    requires p.slippage == 1.0
    ensures EntryPrice(p, CONSIDER_SHORT, price) == 0.0
  {
  }

  lemma OpenedIsFree(p: Params, s: Sim, d: TradingDecision, bar: Bar)
    requires OpensFree(p, d) && IsEntry(d.action) && EntryPrice(p, d.action, bar.close) != 0.0
    requires ShortsAreFree(s.trades)
    ensures ShortsAreFree(Opened(p, s, d, bar).trades)
  {
    hide EntryPrice;
    if p.slippage == 1.0 { ShortEntryIsZero(p, bar.close); }
    TimesNothing(Times(s.balance, TRADE_SHARE));
  }

  lemma ProcessedIsFree(p: Params, s: Sim, d: TradingDecision, bar: Bar)
    requires Priced(s.book) && OpensFree(p, d) && ShortsAreFree(s.trades)
    ensures ShortsAreFree(Processed(p, s, d, bar).trades)
  {
    hide Opened, ExitReason, EntryPrice, OpensFree, Times;
    var exited := AfterExit(p, s, d, bar);
    assert ShortsAreFree(exited.trades);
    if WouldOpen(exited, d) && !DividesByZero(p, s, d, bar) { OpenedIsFree(p, exited, d, bar); }
  }

  ghost predicate AlwaysOpensFree(p: Params, strategy: Strategy) {
    forall window :: strategy(window).Some? ==> OpensFree(p, strategy(window).value)
  }

  lemma {:induction false} ReplayIsFree(p: Params, strategy: Strategy, bars: seq<Bar>)
    requires AlwaysOpensFree(p, strategy)
    ensures var after := Replay(p, strategy, bars, Fresh(p)); after.Some? ==> ShortsAreFree(after.value.trades)
  {
    hide Processed, DividesByZero, OpensFree, ShortsAreFree, Tail;
    if |bars| == 0 {
      NoTradesAreFree();
    } else {
      var before := Replay(p, strategy, bars[..|bars| - 1], Fresh(p));
      ReplayIsFree(p, strategy, bars[..|bars| - 1]);
      if before.Some? && |bars| >= WINDOW {
        var d := strategy(Tail(bars));
        if d.Some? { ProcessedIsFree(p, before.value, d.value, bars[|bars| - 1]); }
      }
    }
  }

  lemma NoTradesAreFree()
    ensures ShortsAreFree([])
  {
  }

  /** Every report on a run of the strategy on a fresh engine gives the engine's own balance. */
  ghost predicate Agrees(p: Params, strategy: Strategy, symbol: string, bars: seq<Bar>) {
    var end := Ran(p, strategy, symbol, bars, Fresh(p));
    end.Some? ==> forall r | ReportsOn(p, r, end.value.trades, symbol) :: r.finalBalance == end.value.balance
  }

  lemma FinishedIsFree(p: Params, s: Sim, symbol: string, bars: seq<Bar>)
    requires ShortsAreFree(s.trades)
    ensures ShortsAreFree(Finished(p, s, symbol, bars).trades)
  {
    hide Times;
  }

  lemma FreeRunsAgree(p: Params, strategy: Strategy, symbol: string, bars: seq<Bar>)
    requires DecidesFor(strategy, symbol) && AlwaysOpensFree(p, strategy)
    ensures Agrees(p, strategy, symbol, bars)
  {
    hide ShortsAreFree, ShortFees, ReportsOn, Finished, Replay, AlwaysOpensFree, DecidesFor, BookMatches, Balanced, Paired;
    var ran := Ran(p, strategy, symbol, bars, Fresh(p));
    if ran.Some? {
      ReplayIsFree(p, strategy, bars);
      FinishedIsFree(p, Replay(p, strategy, bars, Fresh(p)).value, symbol, bars);
      FreshRun(p, strategy, symbol, bars);
      FreeShortsCostNothing(ran.value.trades);
      forall r | ReportsOn(p, r, ran.value.trades, symbol) ensures r.finalBalance == ran.value.balance {
        ReportOverstatesByShortFees(p, strategy, symbol, bars, r);
      }
    }
  }

  /** A strategy that never asks for a short is always reported the balance it ends with. */
  lemma NeverShortAgrees(p: Params, strategy: Strategy, symbol: string, bars: seq<Bar>)
    requires DecidesFor(strategy, symbol)
    requires forall window :: strategy(window).Some? ==> strategy(window).value.action != CONSIDER_SHORT
    ensures Agrees(p, strategy, symbol, bars)
  {
    FreeRunsAgree(p, strategy, symbol, bars);
  }

  // ---------- a run that pays one ----------

  function ShortOrder(symbol: string): TradingDecision {
    TradingDecision(symbol, CONSIDER_SHORT, 1.0, 1.0, None, None, None, "")
  }

  const FLAT := Bar(0, 1.0, None)
  const FLAT_BARS := [FLAT, FLAT, FLAT, FLAT, FLAT]

  /** Too few bars for the strategy to be asked. */
  lemma {:induction false} QuietReplay(p: Params, strategy: Strategy, bars: seq<Bar>)
    requires |bars| < WINDOW
    ensures Replay(p, strategy, bars, Fresh(p)) == Some(Fresh(p))
  {
    if |bars| > 0 { QuietReplay(p, strategy, bars[..|bars| - 1]); }
  }

  /** Five flat bars and a strategy that asks for a short: it is opened at the last bar and closed there. */
  lemma ShortIsFilled(p: Params, strategy: Strategy, symbol: string)
    requires p.slippage != 1.0 && strategy(FLAT_BARS) == Some(ShortOrder(symbol))
    ensures var end := Ran(p, strategy, symbol, FLAT_BARS, Fresh(p));
            end.Some? && ShortFees(end.value.trades) == Times(Times(p.initialBalance, TRADE_SHARE), p.feeRate)
  {
    var d := ShortOrder(symbol);
    QuietReplay(p, strategy, FLAT_BARS[..4]);
    assert Tail(FLAT_BARS) == FLAT_BARS;
    assert EntryPrice(p, d.action, FLAT.close) == 1.0 - p.slippage;
    var entered := Opened(p, Fresh(p), d, FLAT);
    assert Processed(p, Fresh(p), d, FLAT) == entered;
    assert Replay(p, strategy, FLAT_BARS, Fresh(p)) == Some(entered);
    assert entered.book[0].symbol == symbol;
    OneShortFee(p, symbol, entered);
  }

  lemma OneShortFee(p: Params, symbol: string, entered: Sim)
    requires |entered.book| == 1 && entered.book[0].symbol == symbol && entered.book[0].side == SHORT
    requires entered.trades == [Open(0, symbol, SHORT, entered.book[0].entryPrice, entered.book[0].quantity, entered.book[0].openFee, "")]
    ensures var end := Finished(p, entered, symbol, FLAT_BARS);
            ShortFees(end.trades) == entered.book[0].openFee
  {
    hide Times;
    var closed := Closed(p, entered, symbol, FLAT, "End of Backtest");
    assert closed.trades[..1] == entered.trades && entered.trades[..0] == [];
    assert Outstanding(entered.trades, symbol) == LeftBy(entered.trades[0]);
    assert ShortFees(entered.trades) == 0.0;
  }

  lemma ShortRunParts(p: Params, symbol: string) returns (strategy: Strategy)
    requires p.initialBalance > 0.0 && p.feeRate != 0.0 && p.slippage != 1.0
    ensures DecidesFor(strategy, symbol) && !Agrees(p, strategy, symbol, FLAT_BARS)
  {
    strategy := _ => Some(ShortOrder(symbol));
    ShortIsFilled(p, strategy, symbol);
    hide Ran, Times, ShortFees, ReportsOn;
    FeeIsPaid(p);
    var r := SomeReport(p, Ran(p, strategy, symbol, FLAT_BARS, Fresh(p)).value.trades, symbol);
    ReportOverstatesByShortFees(p, strategy, symbol, FLAT_BARS, r);
  }

  lemma SomeReport(p: Params, trades: seq<Fill>, symbol: string) returns (r: Report)
    ensures ReportsOn(p, r, trades, symbol)
  {
    hide Times, EquityPath, Analytics.Pass, Analytics.WinRate;
    var pnls := Pnls(trades, symbol);
    var total := Total(pnls);
    var pct := if p.initialBalance != 0.0 then Times(total / p.initialBalance, 100.0) else 0.0;
    r := Report(p.initialBalance + total, total, pct, |pnls|, Times(Analytics.WinRate(pnls), 100.0),
                Times(Analytics.Pass(EquityPath(pnls, p.initialBalance)).1, 100.0));
  }

  lemma FeeIsPaid(p: Params)
    requires p.initialBalance > 0.0 && p.feeRate != 0.0
    ensures Times(Times(p.initialBalance, TRADE_SHARE), p.feeRate) != 0.0
  {
  }

  /** For every engine: whatever the strategy and the bars, the report gives the balance the engine ended with, if and
      only if there is no fee or the slippage leaves no price to sell short at. */
  lemma BalancesAgreeIff(p: Params, symbol: string)
    requires p.initialBalance > 0.0
    ensures p.feeRate == 0.0 || p.slippage == 1.0 <==>
            forall strategy: Strategy, bars | DecidesFor(strategy, symbol) :: Agrees(p, strategy, symbol, bars)
  {
    hide Agrees;
    if p.feeRate == 0.0 || p.slippage == 1.0 {
      forall strategy: Strategy, bars | DecidesFor(strategy, symbol) ensures Agrees(p, strategy, symbol, bars) {
        FreeRunsAgree(p, strategy, symbol, bars);
      }
    } else {
      var strategy := ShortRunParts(p, symbol);
    }
  }
}
