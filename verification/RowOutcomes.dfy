/**
 What closing and marking make of each row, on its own: the row on record afterwards, the trade that goes with it and
 the line of the report, in terms of the row, its quote and the configured rates.
 */
module RowOutcomes {
  import opened BrokerRules
  import opened Ledger
  import opened Options
  import opened PositionTable
  import opened RiskCalculator
  import opened Rounding
  import opened Targets

  datatype Outcome = Outcome(row: Position, trades: seq<Trade>, executed: seq<Item>, skipped: seq<Item>)

  function Untouched(p: Position): Outcome {
    Outcome(p, [], [], [])
  }

  function Skipped(p: Position, verdict: Verdict): Outcome {
    Outcome(p, [], [], [Item(p.symbol, verdict)])
  }

  function Ended(c: Calculator, p: Position, id: nat, price: real, now: int, reason: string, verdict: Verdict): Outcome {
    Outcome(ClosedAt(c, p, price, now, reason), [ClosingTrade(c, p, id, price, now)], [Item(p.symbol, verdict)], [])
  }

  // ---------- closing what is not in the target ----------

  /** The target's first position in the symbol is on the given side. */
  predicate FirstOnSide(ts: seq<TargetPosition>, symbol: string, side: Side) {
    exists k :: 0 <= k < |ts| && ts[k].symbol == symbol && ts[k].side == side && forall j | 0 <= j < k :: ts[j].symbol != symbol
  }

  /** The strategy's reason where it gives one, with the fee of the close. */
  function CloseText(target: PortfolioTarget, symbol: string, fee: string): string {
    var given := if symbol in target.closeReasons then target.closeReasons[symbol] else "";
    (if |given| > 0 then given else "Closed by PortfolioEngine") + " (Fee: $" + fee + ")"
  }

  function ExitFee(c: Calculator, p: Position, price: real): real {
    Commission(c, Money(Times(p.quantity, ExitAt(c, price, p.side))))
  }

  function Rebalanced(c: Calculator, feeText: real -> string, target: PortfolioTarget, quotes: Quotes, now: int,
                      p: Position, id: nat): Outcome
  {
    var quote := QuoteFor(quotes, p.symbol);
    if p.status.CLOSED? then Untouched(p)
    else if FirstOnSide(target.positions, p.symbol, p.side) then Skipped(p, STILL_IN_TARGET)
    else if quote.None? && p.currentPrice <= 0.0 then Skipped(p, NO_PRICE)
    else
      var price := if quote.Some? then quote.value else p.currentPrice;
      Ended(c, p, id, price, now, CloseText(target, p.symbol, feeText(ExitFee(c, p, price))), EXECUTED)
  }

  // ---------- marking ----------

  /** How far a stop trails: twice the ATR, or the mode's percentage without one; three quarters of it above 1% of gain
      and half above 2%. */
  function TrailFraction(c: Calculator, p: Position, atr: Option<real>, price: real): real
    requires price > 0.0
  {
    var full := if atr.Some? && atr.value > 0.0 then atr.value / price * 2.0 else StopFraction(c.mode);
    var move := if p.side == LONG then (price - p.entryPrice) / p.entryPrice else (p.entryPrice - price) / p.entryPrice;
    if move > 0.02 then full / 2.0 else if move > 0.01 then full * 3.0 / 4.0 else full
  }

  /** Where the stop is after marking: the trailing one where it is tighter and the quote is past break-even, the old
      one otherwise. */
  function StopAfter(c: Calculator, p: Position, atr: Option<real>, price: real): Option<real>
    requires price > 0.0
  {
    var far := TrailFraction(c, p, atr, price);
    var candidate := if p.side == LONG then Below(price, far) else Above(price, far);
    var tighter := p.stopLoss.None? || (if p.side == LONG then candidate > p.stopLoss.value else candidate < p.stopLoss.value);
    var pastBreakEven := if p.side == LONG then price > Times(p.entryPrice, 1.0 + RoundTrip(c))
                         else price < Times(p.entryPrice, 1.0 - RoundTrip(c));
    if tighter && pastBreakEven then Some(candidate) else p.stopLoss
  }

  /** The price is at the level or beyond it, on the losing side. */
  predicate AtStop(side: Side, level: Option<real>, price: real) {
    level.Some? && if side == LONG then price <= level.value else price >= level.value
  }

  predicate AtTarget(side: Side, level: Option<real>, price: real) {
    level.Some? && if side == LONG then price >= level.value else price <= level.value
  }

  function MarkedAt(p: Position, price: real, stop: Option<real>): Position {
    var mark := Money(price);
    p.(currentPrice := mark, unrealizedPnl := ProfitFor(p, mark), notional := NotionalFor(p, mark), stopLoss := stop)
  }

  function Marked(c: Calculator, quotes: Quotes, now: int, p: Position, id: nat): Outcome {
    var quote := QuoteFor(quotes, p.symbol);
    if p.status.CLOSED? then Untouched(p)
    else if quote.None? then Skipped(p, NO_PRICE)
    else
      var stop := StopAfter(c, p, quotes[p.symbol].atr, quote.value);
      var row := MarkedAt(p, quote.value, stop);
      if AtStop(p.side, stop, quote.value) then Ended(c, row, id, quote.value, now, "STOP_LOSS", STOPPED_OUT)
      else if AtTarget(p.side, p.takeProfit, quote.value) then Ended(c, row, id, quote.value, now, "TAKE_PROFIT", TOOK_PROFIT)
      else Outcome(row, [], [Item(p.symbol, MARKED)], [])
  }

  // ---------- one row ----------

  lemma {:induction false} TargetSideIff(ts: seq<TargetPosition>, symbol: string, side: Side)
    ensures TargetSide(ts, symbol) == Some(side) <==> FirstOnSide(ts, symbol, side)
  {
    if |ts| > 0 {
      var rest := ts[1..];
      TargetSideIff(rest, symbol, side);
      if ts[0].symbol != symbol {
        if FirstOnSide(rest, symbol, side) {
          var k :| && 0 <= k < |rest| && rest[k].symbol == symbol && rest[k].side == side
                   && forall j | 0 <= j < k :: rest[j].symbol != symbol;
          assert ts[k + 1].symbol == symbol && forall j | 0 <= j < k + 1 :: ts[j].symbol != symbol;
        }
        if FirstOnSide(ts, symbol, side) {
          var k :| && 0 <= k < |ts| && ts[k].symbol == symbol && ts[k].side == side
                   && forall j | 0 <= j < k :: ts[j].symbol != symbol;
          assert rest[k - 1].symbol == symbol && forall j | 0 <= j < k - 1 :: rest[j].symbol != symbol;
        }
      }
    }
  }

  /** What one turn of a loop adds to the step under way. */
  predicate Turn(pr: Progress, id: nat, out: Outcome, pr': Progress)
    requires id < |pr.ledger.rows|
  {
    && pr'.ledger.rows == pr.ledger.rows[id := out.row]
    && pr'.ledger.trades == pr.ledger.trades + out.trades
    && pr'.executed == pr.executed + out.executed
    && pr'.skipped == pr.skipped + out.skipped
  }

  lemma ReasonIsText(target: PortfolioTarget, symbol: string, fee: string)
    ensures RebalanceReason(target.closeReasons, symbol, fee) == CloseText(target, symbol, fee)
  {
  }

  lemma CloseOneTurn(c: Calculator, feeText: real -> string, target: PortfolioTarget, quotes: Quotes, now: int, pr: Progress, id: nat)
    requires id < |pr.ledger.rows| && pr.ledger.rows[id].status.OPEN?
    ensures Turn(pr, id, Rebalanced(c, feeText, target, quotes, now, pr.ledger.rows[id], id),
                 CloseOne(c, feeText, target, quotes, now, pr, id))
  {
    hide Money, Times, Settle, ClosedAt, ClosingTrade, TargetSide, FirstOnSide, CloseText, RebalanceReason, Commission, ExitAt,
         Calculator.Fee, Calculator.ExitPrice;
    var p := pr.ledger.rows[id];
    TargetSideIff(target.positions, p.symbol, p.side);
    assert pr.ledger.rows[id := p] == pr.ledger.rows;
    var price := RebalancePrice(quotes, p);
    if price.Some? && price.value > 0.0 {
      PricesAreSlipped(c, price.value, p.side);
      var gross := Money(Times(p.quantity, ExitAt(c, price.value, p.side)));
      FeeIsCommission(c, gross);
      var reason := CloseText(target, p.symbol, feeText(Commission(c, gross)));
      ReasonIsText(target, p.symbol, feeText(Commission(c, gross)));
      SettleFiles(c, pr.ledger, id, price.value, now, reason);
    }
  }

  lemma TrailIsFraction(c: Calculator, p: Position, atr: Option<real>, price: real)
    requires price > 0.0
    ensures TrailPct(c, p, atr, price) == TrailFraction(c, p, atr, price)
  {
  }

  lemma LevelIsMoney(price: real, rate: real)
    ensures Money(Above(price, rate)) == Above(price, rate) && Money(Below(price, rate)) == Below(price, rate)
  {
    hide Money, Times;
    MoneyError(Times(price, 1.0 + rate));
    MoneyError(Times(price, 1.0 - rate));
    MoneyFixed(Above(price, rate));
    MoneyFixed(Below(price, rate));
  }

  lemma MarkedIs(c: Calculator, p: Position, atr: Option<real>, price: real)
    requires price > 0.0
    ensures MarkedAndTrailed(c, p, atr, price) == MarkedAt(p, price, StopAfter(c, p, atr, price))
  {
    hide Money, Times, TrailPct, TrailFraction;
    var marked := MarkedRow(p, price);
    TrailIsFraction(c, p, atr, price);
    TrailIsFraction(c, marked, atr, price);
    SameTrail(c, p, marked, atr, price);
    LevelIsMoney(price, TrailFraction(c, p, atr, price));
    assert c.Friction() == RoundTrip(c);
  }

  lemma SameTrail(c: Calculator, p: Position, q: Position, atr: Option<real>, price: real)
    requires price > 0.0 && p.side == q.side && p.entryPrice == q.entryPrice
    ensures TrailFraction(c, p, atr, price) == TrailFraction(c, q, atr, price)
  {
  }

  lemma MarkOneTurn(c: Calculator, quotes: Quotes, now: int, pr: Progress, id: nat)
    requires id < |pr.ledger.rows| && pr.ledger.rows[id].status.OPEN?
    ensures Turn(pr, id, Marked(c, quotes, now, pr.ledger.rows[id], id), MarkOne(c, quotes, now, pr, id))
  {
    hide Money, Times, Settle, ClosedAt, ClosingTrade, MarkedAndTrailed, MarkedAt, StopAfter;
    var l, p := pr.ledger, pr.ledger.rows[id];
    assert l.rows[id := p] == l.rows;
    if QuoteFor(quotes, p.symbol).Some? {
      var price, atr := QuoteFor(quotes, p.symbol).value, quotes[p.symbol].atr;
      MarkedIs(c, p, atr, price);
      MarkedKeeps(p, price, StopAfter(c, p, atr, price));
      var row := MarkedAndTrailed(c, p, atr, price);
      var marked := l.(rows := l.rows[id := row]);
      assert marked.rows[id] == row;
      assert marked.rows[id := ClosedAt(c, row, price, now, STOP_LOSS)] == l.rows[id := ClosedAt(c, row, price, now, STOP_LOSS)];
      assert marked.rows[id := ClosedAt(c, row, price, now, TAKE_PROFIT)] == l.rows[id := ClosedAt(c, row, price, now, TAKE_PROFIT)];
      SettleFiles(c, marked, id, price, now, STOP_LOSS);
      SettleFiles(c, marked, id, price, now, TAKE_PROFIT);
    }
  }

  lemma MarkedKeeps(p: Position, price: real, stop: Option<real>)
    ensures var row := MarkedAt(p, price, stop);
            row.side == p.side && row.stopLoss == stop && row.takeProfit == p.takeProfit && row.status == p.status
            && row.symbol == p.symbol
  {
    hide Money, Times;
  }

  // ---------- whole loops ----------

  function TradesOf(outs: seq<Outcome>): seq<Trade> {
    if |outs| == 0 then [] else TradesOf(outs[..|outs| - 1]) + outs[|outs| - 1].trades
  }

  function ExecutedOf(outs: seq<Outcome>): seq<Item> {
    if |outs| == 0 then [] else ExecutedOf(outs[..|outs| - 1]) + outs[|outs| - 1].executed
  }

  function SkippedOf(outs: seq<Outcome>): seq<Item> {
    if |outs| == 0 then [] else SkippedOf(outs[..|outs| - 1]) + outs[|outs| - 1].skipped
  }

  function RebalancedRows(c: Calculator, feeText: real -> string, target: PortfolioTarget, quotes: Quotes, now: int,
                          rows: Table): (outs: seq<Outcome>)
    ensures |outs| == |rows|
  {
    seq(|rows|, i requires 0 <= i < |rows| => Rebalanced(c, feeText, target, quotes, now, rows[i], i))
  }

  function MarkedRows(c: Calculator, quotes: Quotes, now: int, rows: Table): (outs: seq<Outcome>)
    ensures |outs| == |rows|
  {
    seq(|rows|, i requires 0 <= i < |rows| => Marked(c, quotes, now, rows[i], i))
  }

  /** The step's result is the outcomes of the first n rows, in order. */
  ghost predicate Gathered(l: Ledger, outs: seq<Outcome>, pr: Progress, n: nat)
    requires n <= |outs| == |l.rows|
  {
    && |pr.ledger.rows| == |l.rows|
    && (forall i | 0 <= i < n :: pr.ledger.rows[i] == outs[i].row)
    && (forall i | n <= i < |l.rows| :: pr.ledger.rows[i] == l.rows[i])
    && pr.ledger.trades == l.trades + TradesOf(outs[..n])
    && pr.executed == ExecutedOf(outs[..n])
    && pr.skipped == SkippedOf(outs[..n])
  }

  lemma GatheredNone(l: Ledger, outs: seq<Outcome>)
    requires |outs| == |l.rows|
    ensures Gathered(l, outs, Progress(l, [], []), 0)
  {
    assert outs[..0] == [];
  }

  lemma GatheredNext(l: Ledger, outs: seq<Outcome>, pr: Progress, pr': Progress, n: nat)
    requires n < |outs| == |l.rows| && Gathered(l, outs, pr, n)
    requires Turn(pr, n, outs[n], pr')
    ensures Gathered(l, outs, pr', n + 1)
  {
    assert outs[..n + 1][..n] == outs[..n];
    assert l.trades + (TradesOf(outs[..n]) + outs[n].trades) == (l.trades + TradesOf(outs[..n])) + outs[n].trades;
  }

  lemma UntouchedTurn(pr: Progress, id: nat)
    requires id < |pr.ledger.rows|
    ensures Turn(pr, id, Untouched(pr.ledger.rows[id]), pr)
  {
  }

  lemma {:induction false} CloseUpToGathers(c: Calculator, feeText: real -> string, target: PortfolioTarget, quotes: Quotes,
                                            now: int, l: Ledger, n: nat)
    requires n <= |l.rows|
    ensures Gathered(l, RebalancedRows(c, feeText, target, quotes, now, l.rows), CloseUpTo(c, feeText, target, quotes, now, l, n), n)
  {
    hide CloseOne, Turn, Gathered, FirstOnSide, QuoteFor, Ended, CloseText;
    var outs := RebalancedRows(c, feeText, target, quotes, now, l.rows);
    if n == 0 {
      GatheredNone(l, outs);
    } else {
      CloseUpToGathers(c, feeText, target, quotes, now, l, n - 1);
      var pr := CloseUpTo(c, feeText, target, quotes, now, l, n - 1);
      TailHead(pr.ledger.rows, l.rows, n - 1);
      if l.rows[n - 1].status.OPEN? {
        CloseOneTurn(c, feeText, target, quotes, now, pr, n - 1);
      } else {
        UntouchedTurn(pr, n - 1);
      }
      GatheredNext(l, outs, pr, CloseUpTo(c, feeText, target, quotes, now, l, n), n - 1);
    }
  }

  lemma {:induction false} MarkUpToGathers(c: Calculator, quotes: Quotes, now: int, l: Ledger, n: nat)
    requires n <= |l.rows|
    ensures Gathered(l, MarkedRows(c, quotes, now, l.rows), MarkUpTo(c, quotes, now, l, n), n)
  {
    hide MarkOne, Turn, Gathered, QuoteFor, Ended, StopAfter, MarkedAt;
    var outs := MarkedRows(c, quotes, now, l.rows);
    if n == 0 {
      GatheredNone(l, outs);
    } else {
      MarkUpToGathers(c, quotes, now, l, n - 1);
      var pr := MarkUpTo(c, quotes, now, l, n - 1);
      TailHead(pr.ledger.rows, l.rows, n - 1);
      if l.rows[n - 1].status.OPEN? {
        MarkOneTurn(c, quotes, now, pr, n - 1);
      } else {
        UntouchedTurn(pr, n - 1);
      }
      GatheredNext(l, outs, pr, MarkUpTo(c, quotes, now, l, n), n - 1);
    }
  }

  lemma GatheredRevalued(l: Ledger, outs: seq<Outcome>, pr: Progress)
    requires |outs| == |l.rows| && Gathered(l, outs, pr, |outs|)
    ensures Gathered(l, outs, pr.(ledger := Revalued(pr.ledger)), |outs|)
  {
  }

  // ---------- the two steps ----------

  /** The closing step leaves of every row, and reports, exactly what the row, its quote and the target decide. */
  lemma ClosingDecidesEachRow(c: Calculator, feeText: real -> string, l: Ledger, target: PortfolioTarget, quotes: Quotes, now: int)
    ensures Gathered(l, RebalancedRows(c, feeText, target, quotes, now, l.rows),
                     CloseNotInTarget(c, feeText, l, target, quotes, now), |l.rows|)
  {
    hide CloseUpTo, Gathered, Rebalanced, Revalued;
    CloseUpToGathers(c, feeText, target, quotes, now, l, |l.rows|);
    GatheredRevalued(l, RebalancedRows(c, feeText, target, quotes, now, l.rows),
                     CloseUpTo(c, feeText, target, quotes, now, l, |l.rows|));
  }

  /** And so does the marking step. */
  lemma MarkingDecidesEachRow(c: Calculator, l: Ledger, quotes: Quotes, now: int)
    ensures Gathered(l, MarkedRows(c, quotes, now, l.rows), MarkToMarket(c, l, quotes, now), |l.rows|)
  {
    hide MarkUpTo, Gathered, Marked, Revalued;
    MarkUpToGathers(c, quotes, now, l, |l.rows|);
    GatheredRevalued(l, MarkedRows(c, quotes, now, l.rows), MarkUpTo(c, quotes, now, l, |l.rows|));
  }

  lemma {:induction false} TradeIsAmong(outs: seq<Outcome>, i: nat, t: Trade)
    requires i < |outs| && t in outs[i].trades
    ensures t in TradesOf(outs)
  {
    if i < |outs| - 1 { TradeIsAmong(outs[..|outs| - 1], i, t); }
  }

  /** In any ledger, a row that the closing step ends is sold below, or bought back above, the quote of its symbol where
      there is a positive one, and its last mark where there is none; the row and a new trade say so. */
  lemma RebalancesAtQuoteOrMark(c: Calculator, feeText: real -> string, l: Ledger, target: PortfolioTarget, quotes: Quotes,
                                now: int, i: nat)
    requires i < |l.rows| && l.rows[i].status.OPEN?
    ensures var p, l' := l.rows[i], CloseNotInTarget(c, feeText, l, target, quotes, now).ledger;
            && |l'.rows| == |l.rows| && l.trades <= l'.trades
            && (l'.rows[i].status.CLOSED? ==>
                  var price := if QuoteFor(quotes, p.symbol).Some? then QuoteFor(quotes, p.symbol).value else p.currentPrice;
                  var exit := if p.side == LONG then Money(Times(price, 1.0 - SlippageRate(c)))
                              else Money(Times(price, 1.0 + SlippageRate(c)));
                  && l'.rows[i].currentPrice == exit
                  && exists t :: t in l'.trades[|l.trades|..] && t.origin == CLOSING && t.positionId == i && t.price == exit)
  {
    hide CloseNotInTarget, Money, Times, FirstOnSide, CloseText, ProfitFor, NotionalFor, TradesOf, ExecutedOf, SkippedOf;
    ClosingDecidesEachRow(c, feeText, l, target, quotes, now);
    var outs := RebalancedRows(c, feeText, target, quotes, now, l.rows);
    var l' := CloseNotInTarget(c, feeText, l, target, quotes, now).ledger;
    assert outs[..|outs|] == outs;
    assert l'.trades[|l.trades|..] == TradesOf(outs);
    if l'.rows[i].status.CLOSED? {
      TradeIsAmong(outs, i, outs[i].trades[0]);
    }
  }

  /** In any ledger, the stop of an open row that marking leaves open at a positive quote moves to the trailing one
      exactly where that is tighter and the quote is past break-even, on either side. */
  lemma StopsMoveExactly(c: Calculator, l: Ledger, quotes: Quotes, now: int, i: nat)
    requires i < |l.rows| && l.rows[i].status.OPEN? && QuoteFor(quotes, l.rows[i].symbol).Some?
    requires |MarkToMarket(c, l, quotes, now).ledger.rows| == |l.rows|
    requires MarkToMarket(c, l, quotes, now).ledger.rows[i].status.OPEN?
    ensures var p, q := l.rows[i], MarkToMarket(c, l, quotes, now).ledger.rows[i];
            var price := QuoteFor(quotes, p.symbol).value;
            var far := TrailFraction(c, p, quotes[p.symbol].atr, price);
            match p.side
            case LONG =>
              var trailing := Money(Times(price, 1.0 - far));
              q.stopLoss == if (p.stopLoss.None? || trailing > p.stopLoss.value) && price > Times(p.entryPrice, 1.0 + RoundTrip(c))
                            then Some(trailing) else p.stopLoss
            case SHORT =>
              var trailing := Money(Times(price, 1.0 + far));
              q.stopLoss == if (p.stopLoss.None? || trailing < p.stopLoss.value) && price < Times(p.entryPrice, 1.0 - RoundTrip(c))
                            then Some(trailing) else p.stopLoss
  {
    hide MarkToMarket, Money, Times, TrailFraction, ProfitFor, NotionalFor, TradesOf, ExecutedOf, SkippedOf;
    MarkingDecidesEachRow(c, l, quotes, now);
    var outs := MarkedRows(c, quotes, now, l.rows);
    assert MarkToMarket(c, l, quotes, now).ledger.rows[i] == outs[i].row;
  }
}
