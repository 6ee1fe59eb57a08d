/**
 The paper-trading ledger as a state machine: what each of the broker's three steps
 (open towards a target, close what is not in the target, mark to market) makes of
 cash, equity, positions and trades.
 */
module Ledger {
  import opened Options
  import opened PositionTable
  import opened RiskCalculator
  import opened Rounding
  import opened Targets

  datatype OrderSide = BUY | SELL

  /** Which half of a position's life a trade records. */
  datatype Origin = OPENING | CLOSING

  datatype Trade = Trade(
    origin: Origin,
    exchange: string,
    symbol: string,
    side: OrderSide,
    quantity: real,
    price: real,
    notional: real,
    realizedPnl: real,
    positionId: nat,
    executedAt: int)

  datatype Ledger = Ledger(cash: real, equity: real, rows: Table, trades: seq<Trade>)

  type Quotes = map<string, Snapshot>

  datatype Verdict =
    | ALREADY_OPEN
    | STOP_LOSS_COOLDOWN
    | WHIPSAW_COOLDOWN
    | NO_PRICE
    | THIN_LIQUIDITY
    | ZERO_NOTIONAL
    | INSUFFICIENT_CASH
    | STILL_IN_TARGET
    | EXECUTED
    | STOPPED_OUT
    | TOOK_PROFIT
    | MARKED

  datatype Item = Item(symbol: string, verdict: Verdict)

  /** A step under way: the ledger so far and the two lists of its report. */
  datatype Progress = Progress(ledger: Ledger, executed: seq<Item>, skipped: seq<Item>)
  {
    function Execute(l: Ledger, symbol: string, verdict: Verdict): Progress {
      Progress(l, executed + [Item(symbol, verdict)], skipped)
    }

    function Skip(symbol: string, verdict: Verdict): Progress {
      Progress(ledger, executed, skipped + [Item(symbol, verdict)])
    }
  }

  // ---------- what an account is worth ----------

  function Cost(p: Position): real {
    Times(p.quantity, p.entryPrice)
  }

  /** A short is worth its cost plus what it gained: (2*entry - current) * quantity. */
  function Worth(p: Position): real {
    match p.side
    case LONG => Times(p.currentPrice, p.quantity)
    case SHORT => Times(2.0 * p.entryPrice - p.currentPrice, p.quantity)
  }

  function OpenPositionsValue(rows: Table): real {
    Money(SumOpen(rows, Worth))
  }

  function Revalued(l: Ledger): Ledger {
    l.(equity := Money(l.cash + OpenPositionsValue(l.rows)))
  }

  function Initial(balance: real): Ledger {
    Ledger(balance, balance, [], [])
  }

  // ---------- opening ----------

  /** What the opening step fixes before it looks at the first target position. */
  datatype Opening = Opening(
    exchange: string,
    quotes: Quotes,
    now: int,
    startingEquity: real,
    stopped: set<string>,
    whipsawed: set<string>)

  function BeginOpening(l: Ledger, target: PortfolioTarget, quotes: Quotes, now: int): Opening {
    Opening(target.exchange, quotes, now, l.equity,
            RecentStopLossSymbols(l.rows, target.exchange, now, 120),
            WhipsawSymbols(l.rows, target.exchange, now, 2, 2880))
  }

  predicate AllTradable(c: Calculator, quotes: Quotes) {
    forall symbol | symbol in quotes ::
      quotes[symbol].close.Some? ==> c.Tradable(quotes[symbol].close.value)
  }

  /** The checks a target position runs through, in order. */
  function Screen(c: Calculator, o: Opening, l: Ledger, t: TargetPosition): Verdict {
    var price := ClosePriceOf(o.quotes, t.symbol);
    if HasOpen(l.rows, o.exchange, t.symbol) then ALREADY_OPEN
    else if t.symbol in o.stopped then STOP_LOSS_COOLDOWN
    else if t.symbol in o.whipsawed then WHIPSAW_COOLDOWN
    else if price.None? || price.value <= 0.0 then NO_PRICE
    else if ThinOrWide(o.quotes[t.symbol]) then THIN_LIQUIDITY
    else
      var notional := c.TargetNotional(t.weight, o.startingEquity);
      if notional <= 0.0 then ZERO_NOTIONAL
      else if notional + c.Fee(notional) > l.cash then INSUFFICIENT_CASH
      else EXECUTED
  }

  /** Sizes the position at the slipped price and records it at the quoted one. */
  function OpenRow(c: Calculator, o: Opening, t: TargetPosition): Position
    requires AllTradable(c, o.quotes)
    requires t.symbol in o.quotes && o.quotes[t.symbol].close.Some? && o.quotes[t.symbol].close.value > 0.0
  {
    var price := o.quotes[t.symbol].close.value;
    var notional := c.TargetNotional(t.weight, o.startingEquity);
    var quantity := c.Quantity(notional, c.ExecutionPrice(price, t.side));
    var (stop, takeProfit) := c.Bracket(price, t.side, None, t.overrideStop, t.overrideTarget);
    NewRow(o.exchange, t.symbol, t.side, quantity, price, notional, o.now, Some(stop), Some(takeProfit))
  }

  function OpenPosition(c: Calculator, o: Opening, l: Ledger, t: TargetPosition): Ledger
    requires AllTradable(c, o.quotes)
    requires t.symbol in o.quotes && o.quotes[t.symbol].close.Some? && o.quotes[t.symbol].close.value > 0.0
  {
    var row := OpenRow(c, o, t);
    var fee := c.Fee(row.notional);
    var trade := Trade(OPENING, o.exchange, t.symbol, if t.side == LONG then BUY else SELL,
                       row.quantity, c.ExecutionPrice(row.entryPrice, t.side), row.notional,
                       0.0 - fee, |l.rows|, o.now);
    l.(cash := Money(l.cash - (row.notional + fee)),
       rows := l.rows + [row],
       trades := l.trades + [trade])
  }

  function OpenOne(c: Calculator, o: Opening, pr: Progress, t: TargetPosition): Progress
    requires AllTradable(c, o.quotes)
  {
    var verdict := Screen(c, o, pr.ledger, t);
    if verdict == EXECUTED then pr.Execute(OpenPosition(c, o, pr.ledger, t), t.symbol, EXECUTED)
    else pr.Skip(t.symbol, verdict)
  }

  function OpenAll(c: Calculator, o: Opening, pr: Progress, ts: seq<TargetPosition>): Progress
    requires AllTradable(c, o.quotes)
  {
    if |ts| == 0 then pr
    else OpenOne(c, o, OpenAll(c, o, pr, ts[..|ts| - 1]), ts[|ts| - 1])
  }

  function ExecuteTarget(c: Calculator, l: Ledger, target: PortfolioTarget, quotes: Quotes, now: int): Progress
    requires AllTradable(c, quotes)
  {
    var pr := OpenAll(c, BeginOpening(l, target, quotes, now), Progress(l, [], []), target.positions);
    pr.(ledger := Revalued(pr.ledger))
  }

  // ---------- settling a position ----------

  /** Closes row `id` at the slipped exit price, credits what is recovered after the fee
      and records the trade. */
  function Settle(c: Calculator, l: Ledger, id: nat, price: real, now: int, reason: string): Ledger
    requires id < |l.rows|
  {
    var p := l.rows[id];
    var exit := c.ExitPrice(price, p.side);
    var gross := Money(Times(p.quantity, exit));
    var fee := c.Fee(gross);
    var recovered := Money(Cost(p) + Gain(p.side, p.entryPrice, exit, p.quantity) - fee);
    var closed := ClosedRow(p, exit, now, reason);
    var row := closed.(realizedPnl := closed.realizedPnl - fee);
    var trade := Trade(CLOSING, p.exchange, p.symbol, if p.side == LONG then SELL else BUY,
                       p.quantity, exit, gross, row.realizedPnl, id, now);
    l.(cash := Money(l.cash + recovered),
       rows := l.rows[id := row],
       trades := l.trades + [trade])
  }

  // ---------- closing what is not in the target ----------

  /** The first target position of a symbol decides; the exchange is not compared. */
  function TargetSide(ts: seq<TargetPosition>, symbol: string): Option<Side> {
    if |ts| == 0 then None
    else if ts[0].symbol == symbol then Some(ts[0].side)
    else TargetSide(ts[1..], symbol)
  }

  /** The text a rebalancing close is filed under; `feeText` is the formatted fee. */
  function RebalanceReason(closeReasons: map<string, string>, symbol: string, feeText: string): string {
    (if symbol in closeReasons && closeReasons[symbol] != "" then closeReasons[symbol]
     else "Closed by PortfolioEngine") + " (Fee: $" + feeText + ")"
  }

  /** The quote, or failing that the last mark. */
  function RebalancePrice(quotes: Quotes, p: Position): Option<real> {
    var price := ClosePriceOf(quotes, p.symbol);
    if (price.None? || price.value <= 0.0) && p.currentPrice > 0.0 then Some(p.currentPrice) else price
  }

  function CloseOne(c: Calculator, feeText: real -> string, target: PortfolioTarget, quotes: Quotes, now: int,
                    pr: Progress, id: nat): Progress
    requires id < |pr.ledger.rows|
  {
    var p := pr.ledger.rows[id];
    var price := RebalancePrice(quotes, p);
    if TargetSide(target.positions, p.symbol) == Some(p.side) then pr.Skip(p.symbol, STILL_IN_TARGET)
    else if price.None? || price.value <= 0.0 then pr.Skip(p.symbol, NO_PRICE)
    else
      var fee := c.Fee(Money(Times(p.quantity, c.ExitPrice(price.value, p.side))));
      var reason := RebalanceReason(target.closeReasons, p.symbol, feeText(fee));
      pr.Execute(Settle(c, pr.ledger, id, price.value, now, reason), p.symbol, EXECUTED)
  }

  /** Tables that agree from i on agree at i and after it. */
  lemma TailHead(rows: Table, rows': Table, i: nat)
    requires i < |rows| == |rows'| && rows[i..] == rows'[i..]
    ensures rows[i] == rows'[i] && rows[i + 1..] == rows'[i + 1..]
  {
    assert rows[i] == rows[i..][0] && rows'[i] == rows'[i..][0];
    assert rows[i + 1..] == rows[i..][1..] && rows'[i + 1..] == rows'[i..][1..];
  }

  /** The closing loop over the first n rows, passing over those already closed. */
  function CloseUpTo(c: Calculator, feeText: real -> string, target: PortfolioTarget, quotes: Quotes, now: int,
                     l: Ledger, n: nat): (pr: Progress)
    requires n <= |l.rows|
    ensures |pr.ledger.rows| == |l.rows|
    ensures pr.ledger.rows[n..] == l.rows[n..]
  {
    if n == 0 then Progress(l, [], [])
    else
      var pr := CloseUpTo(c, feeText, target, quotes, now, l, n - 1);
      TailHead(pr.ledger.rows, l.rows, n - 1);
      if l.rows[n - 1].status.OPEN? then CloseOne(c, feeText, target, quotes, now, pr, n - 1) else pr
  }

  function CloseNotInTarget(c: Calculator, feeText: real -> string, l: Ledger, target: PortfolioTarget,
                            quotes: Quotes, now: int): Progress
  {
    var pr := CloseUpTo(c, feeText, target, quotes, now, l, |l.rows|);
    pr.(ledger := Revalued(pr.ledger))
  }

  // ---------- marking to market ----------

  /** How far behind the price the trailing stop follows, as a fraction of the price. */
  function TrailPct(c: Calculator, p: Position, atr: Option<real>, price: real): real
    requires price != 0.0
  {
    var pct := if atr.Some? && atr.value > 0.0 then (atr.value / price) * 2.0 else c.StopPct();
    var gainPct := match p.side
      case LONG => (price - p.entryPrice) / p.entryPrice
      case SHORT => (p.entryPrice - price) / p.entryPrice;
    if gainPct > 0.02 then pct * 0.5
    else if gainPct > 0.01 then pct * 0.75
    else pct
  }

  function PotentialStop(c: Calculator, p: Position, atr: Option<real>, price: real): real
    requires price != 0.0
  {
    var pct := TrailPct(c, p, atr, price);
    match p.side
    case LONG => Money(Times(price, 1.0 - pct))
    case SHORT => Money(Times(price, 1.0 + pct))
  }

  /** The stop only tightens, and only once the price is past break-even. */
  predicate MovesStop(c: Calculator, p: Position, potential: real, price: real) {
    match p.side
    case LONG =>
      (p.stopLoss.None? || potential > p.stopLoss.value) &&
      price > Times(p.entryPrice, 1.0 + c.Friction())
    case SHORT =>
      (p.stopLoss.None? || potential < p.stopLoss.value) &&
      price < Times(p.entryPrice, 1.0 - c.Friction())
  }

  function Trailed(c: Calculator, p: Position, atr: Option<real>, price: real): Position
    requires price != 0.0
  {
    var potential := PotentialStop(c, p, atr, price);
    if MovesStop(c, p, potential, price) then StoppedRow(p, potential) else p
  }

  predicate StopHit(p: Position, price: real) {
    p.stopLoss.Some? &&
    match p.side
    case LONG => price <= p.stopLoss.value
    case SHORT => price >= p.stopLoss.value
  }

  predicate TargetHit(p: Position, price: real) {
    p.takeProfit.Some? &&
    match p.side
    case LONG => price >= p.takeProfit.value
    case SHORT => price <= p.takeProfit.value
  }

  /** The row as the mark step leaves it before it decides whether to exit. */
  function MarkedAndTrailed(c: Calculator, p: Position, atr: Option<real>, price: real): Position
    requires price != 0.0
  {
    Trailed(c, MarkedRow(p, price), atr, price)
  }

  function MarkOne(c: Calculator, quotes: Quotes, now: int, pr: Progress, id: nat): Progress
    requires id < |pr.ledger.rows|
  {
    var l := pr.ledger;
    var p := l.rows[id];
    var price := ClosePriceOf(quotes, p.symbol);
    if price.None? || price.value <= 0.0 then pr.Skip(p.symbol, NO_PRICE)
    else
      var row := MarkedAndTrailed(c, p, quotes[p.symbol].atr, price.value);
      var marked := l.(rows := l.rows[id := row]);
      if StopHit(row, price.value) then
        pr.Execute(Settle(c, marked, id, price.value, now, STOP_LOSS), p.symbol, STOPPED_OUT)
      else if TargetHit(row, price.value) then
        pr.Execute(Settle(c, marked, id, price.value, now, TAKE_PROFIT), p.symbol, TOOK_PROFIT)
      else
        pr.Execute(marked, p.symbol, MARKED)
  }

  function MarkUpTo(c: Calculator, quotes: Quotes, now: int, l: Ledger, n: nat): (pr: Progress)
    requires n <= |l.rows|
    ensures |pr.ledger.rows| == |l.rows|
    ensures pr.ledger.rows[n..] == l.rows[n..]
  {
    if n == 0 then Progress(l, [], [])
    else
      var pr := MarkUpTo(c, quotes, now, l, n - 1);
      TailHead(pr.ledger.rows, l.rows, n - 1);
      if l.rows[n - 1].status.OPEN? then MarkOne(c, quotes, now, pr, n - 1) else pr
  }

  function MarkToMarket(c: Calculator, l: Ledger, quotes: Quotes, now: int): Progress
  {
    var pr := MarkUpTo(c, quotes, now, l, |l.rows|);
    pr.(ledger := Revalued(pr.ledger))
  }

  // ---------- runs ----------

  /** One call of the broker, with the quotes and the instant it sees. */
  datatype Step =
    | ExecuteStep(target: PortfolioTarget, quotes: Quotes, now: int)
    | RebalanceStep(target: PortfolioTarget, quotes: Quotes, now: int)
    | MarkStep(quotes: Quotes, now: int)

  /** Opening divides by the slipped price, so its quotes must leave one to divide by. */
  predicate Callable(c: Calculator, s: Step) {
    s.ExecuteStep? ==> AllTradable(c, s.quotes)
  }

  function Apply(c: Calculator, feeText: real -> string, l: Ledger, s: Step): Ledger
    requires Callable(c, s)
  {
    match s
    case ExecuteStep(target, quotes, now) => ExecuteTarget(c, l, target, quotes, now).ledger
    case RebalanceStep(target, quotes, now) => CloseNotInTarget(c, feeText, l, target, quotes, now).ledger
    case MarkStep(quotes, now) => MarkToMarket(c, l, quotes, now).ledger
  }

  predicate AllCallable(c: Calculator, steps: seq<Step>) {
    forall i | 0 <= i < |steps| :: Callable(c, steps[i])
  }

  function After(c: Calculator, feeText: real -> string, l: Ledger, steps: seq<Step>): Ledger
    requires AllCallable(c, steps)
  {
    if |steps| == 0 then l
    else Apply(c, feeText, After(c, feeText, l, steps[..|steps| - 1]), steps[|steps| - 1])
  }

  /** The clock does not run backwards. */
  predicate Timed(steps: seq<Step>, start: int) {
    && (forall i | 0 <= i < |steps| :: start <= steps[i].now)
    && (forall i, j | 0 <= i < j < |steps| :: steps[i].now <= steps[j].now)
  }
}
