/**
 The broker's numbers, written out once more on plain values: what an order costs, at which prices it trades, and the
 percentages of each strategy mode.  The theorems on the three steps are stated in these terms.
 */
module BrokerRules {
  import opened Ledger
  import opened Options
  import opened PositionTable
  import opened RiskCalculator
  import opened Rounding

  /** The slippage of an order: the configured rate, rounded to money where slippage is dynamic. */
  function SlippageRate(c: Calculator): real {
    if c.dynamicSlippage then Money(c.slippageRate) else c.slippageRate
  }

  function Above(price: real, rate: real): real {
    Money(Times(price, 1.0 + rate))
  }

  function Below(price: real, rate: real): real {
    Money(Times(price, 1.0 - rate))
  }

  /** Longs are bought above the quote and shorts sold below it. */
  function EntryAt(c: Calculator, price: real, side: Side): real {
    if side == LONG then Above(price, SlippageRate(c)) else Below(price, SlippageRate(c))
  }

  /** Longs are sold below the quote and shorts bought back above it. */
  function ExitAt(c: Calculator, price: real, side: Side): real {
    if side == LONG then Below(price, SlippageRate(c)) else Above(price, SlippageRate(c))
  }

  function Commission(c: Calculator, amount: real): real {
    Money(Times(amount, c.commissionRate))
  }

  function StopFraction(mode: StrategyMode): real {
    if mode == SCALPING then 0.02 else if mode == HODL then 0.05 else 0.03
  }

  function TargetFraction(mode: StrategyMode): real {
    if mode == SCALPING then 0.024 else if mode == HODL then 0.12 else 0.06
  }

  /** Commission and slippage, in and out. */
  function RoundTrip(c: Calculator): real {
    2.0 * c.commissionRate + 2.0 * c.slippageRate
  }

  lemma PricesAreSlipped(c: Calculator, price: real, side: Side)
    requires price > 0.0
    ensures c.ExecutionPrice(price, side) == EntryAt(c, price, side)
    ensures c.ExitPrice(price, side) == ExitAt(c, price, side)
  {
    hide Money, Times;
    assert c.slippageRate * 1.0 == c.slippageRate;
  }

  lemma FeeIsCommission(c: Calculator, amount: real)
    ensures c.Fee(amount) == Commission(c, amount)
  {
  }

  /** Without an ATR, stop and target of a new position are the mode's percentages away, overrides or not. */
  lemma BracketIsPercentage(c: Calculator, price: real, side: Side, stop: Option<real>, target: Option<real>)
    ensures var far := TargetFraction(c.mode) + RoundTrip(c);
            c.Bracket(price, side, None, stop, target)
            == if side == LONG then (Below(price, StopFraction(c.mode)), Above(price, far))
               else (Above(price, StopFraction(c.mode)), Below(price, far))
  {
    hide Money, Times;
    assert c.Friction() == RoundTrip(c);
  }

  /** The quote of a symbol, if there is a positive one. */
  function QuoteFor(quotes: Quotes, symbol: string): Option<real> {
    if symbol in quotes && quotes[symbol].close.Some? && quotes[symbol].close.value > 0.0 then quotes[symbol].close else None
  }

  /** The profit on record for a price move: rounded to money, and nothing within one unit. */
  function ProfitFor(p: Position, price: real): real {
    var raw := if p.side == LONG then Times(price - p.entryPrice, p.quantity) else Times(p.entryPrice - price, p.quantity);
    if -0.00000001 < raw < 0.00000001 then 0.0 else Money(raw)
  }

  /** The value on record at a price. */
  function NotionalFor(p: Position, price: real): real {
    if ProfitFor(p, price) == 0.0 then Money(p.notional) else Money(Times(p.quantity, price))
  }

  /** The row as it is on record once it has been closed at a price before slippage. */
  function ClosedAt(c: Calculator, p: Position, price: real, now: int, reason: string): Position {
    var exit := ExitAt(c, price, p.side);
    var fee := Commission(c, Money(Times(p.quantity, exit)));
    p.(status := CLOSED(now, reason), currentPrice := exit, unrealizedPnl := 0.0,
       realizedPnl := ProfitFor(p, exit) - fee, notional := NotionalFor(p, exit))
  }

  /** The trade that goes with it. */
  function ClosingTrade(c: Calculator, p: Position, id: nat, price: real, now: int): Trade {
    var exit := ExitAt(c, price, p.side);
    var fee := Commission(c, Money(Times(p.quantity, exit)));
    Trade(CLOSING, p.exchange, p.symbol, if p.side == LONG then SELL else BUY, p.quantity, exit,
          Money(Times(p.quantity, exit)), ProfitFor(p, exit) - fee, id, now)
  }

  lemma SettleFiles(c: Calculator, l: Ledger, id: nat, price: real, now: int, reason: string)
    requires id < |l.rows| && price > 0.0
    ensures var l' := Settle(c, l, id, price, now, reason);
            && l'.rows == l.rows[id := ClosedAt(c, l.rows[id], price, now, reason)]
            && l'.trades == l.trades + [ClosingTrade(c, l.rows[id], id, price, now)]
  {
    hide Money, Times;
    var p := l.rows[id];
    PricesAreSlipped(c, price, p.side);
    ExitIsMoney(c, price, p.side);
  }

  lemma ExitIsMoney(c: Calculator, price: real, side: Side)
    ensures Money(ExitAt(c, price, side)) == ExitAt(c, price, side)
  {
    hide Money, Times;
    MoneyError(Times(price, 1.0 - SlippageRate(c)));
    MoneyError(Times(price, 1.0 + SlippageRate(c)));
    MoneyFixed(ExitAt(c, price, side));
  }
}
