/** Trading decisions: what a strategy asks for, and what the portfolio and backtest engines consume. */
module Decisions {
  import opened Options

  datatype Action = CONSIDER_LONG | CONSIDER_SHORT | CLOSE_LONG | CLOSE_SHORT | HOLD | AVOID

  datatype Regime = BULL_TREND | BEAR_TREND | SIDEWAYS | HIGH_VOLATILITY | UNKNOWN

  datatype TradingDecision = TradingDecision(
    symbol: string,
    action: Action,
    confidence: real,
    finalScore: real,
    regime: Option<Regime>,
    overrideStop: Option<real>,
    overrideTarget: Option<real>,
    reason: string)

  predicate IsEntry(action: Action) {
    action == CONSIDER_LONG || action == CONSIDER_SHORT
  }
}
