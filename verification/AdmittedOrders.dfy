/**
 Which orders of a target the broker fills, and what it puts on record for them, in terms of the account's rows, the
 bar and the configured rates.
 */
module AdmittedOrders {
  import opened BrokerRules
  import opened Ledger
  import opened Options
  import opened PositionTable
  import opened RiskCalculator
  import opened Rounding
  import opened StepOutcomes
  import opened Targets

  // ---------- the conditions ----------

  predicate InMarket(p: Position, exchange: string, symbol: string) {
    p.exchange == exchange && p.symbol == symbol
  }

  predicate OpenThere(rows: Table, exchange: string, symbol: string) {
    exists i :: 0 <= i < |rows| && InMarket(rows[i], exchange, symbol) && rows[i].status.OPEN?
  }

  /** Row i was stopped out in the market no longer than so many minutes ago. */
  predicate StoppedWithin(rows: Table, i: nat, exchange: string, symbol: string, now: int, minutes: int)
    requires i < |rows|
  {
    && InMarket(rows[i], exchange, symbol) && rows[i].status.CLOSED?
    && rows[i].status.reason == "STOP_LOSS" && now - rows[i].status.closedAt <= minutes * 60_000_000
  }

  predicate StoppedOnce(rows: Table, exchange: string, symbol: string, now: int, minutes: int) {
    exists i: nat :: i < |rows| && StoppedWithin(rows, i, exchange, symbol, now, minutes)
  }

  predicate StoppedTwice(rows: Table, exchange: string, symbol: string, now: int, minutes: int) {
    exists i: nat, j: nat :: i < j < |rows| && StoppedWithin(rows, i, exchange, symbol, now, minutes)
                             && StoppedWithin(rows, j, exchange, symbol, now, minutes)
  }

  /** The bar's range is at most 8% of its close and its turnover at least 1000, as far as the bar gives them. */
  predicate Liquid(bar: Snapshot, close: real) {
    && (bar.high.Some? && bar.low.Some? ==> bar.high.value - bar.low.value <= Times(close, 0.08))
    && (bar.volume.Some? ==> Times(bar.volume.value, close) >= 1000.0)
  }

  /** The order's share of the equity, and no more than all of it. */
  function Share(t: TargetPosition, equity: real): real {
    if Times(t.weight, equity) <= equity then Times(t.weight, equity) else equity
  }

  predicate Affordable(c: Calculator, amount: real, cash: real) {
    amount > 0.0 && amount + Commission(c, amount) <= cash
  }

  predicate Admissible(c: Calculator, rows: Table, cash: real, equity: real, exchange: string, t: TargetPosition,
                       quotes: Quotes, now: int)
  {
    && !OpenThere(rows, exchange, t.symbol)
    && !StoppedOnce(rows, exchange, t.symbol, now, 120)
    && !StoppedTwice(rows, exchange, t.symbol, now, 2880)
    && QuoteFor(quotes, t.symbol).Some?
    && Liquid(quotes[t.symbol], QuoteFor(quotes, t.symbol).value)
    && Affordable(c, Share(t, equity), cash)
  }

  /** What an order that is not admitted is reported for: the first condition it fails. */
  function Refusal(rows: Table, equity: real, exchange: string, t: TargetPosition, quotes: Quotes, now: int): Verdict {
    if OpenThere(rows, exchange, t.symbol) then ALREADY_OPEN
    else if StoppedOnce(rows, exchange, t.symbol, now, 120) then STOP_LOSS_COOLDOWN
    else if StoppedTwice(rows, exchange, t.symbol, now, 2880) then WHIPSAW_COOLDOWN
    else if QuoteFor(quotes, t.symbol).None? then NO_PRICE
    else if !Liquid(quotes[t.symbol], QuoteFor(quotes, t.symbol).value) then THIN_LIQUIDITY
    else if Share(t, equity) <= 0.0 then ZERO_NOTIONAL
    else INSUFFICIENT_CASH
  }

  // ---------- what is filed ----------

  function FilledRow(c: Calculator, equity: real, exchange: string, t: TargetPosition, close: PositiveReal, now: int): Position
    requires EntryAt(c, close, t.side) != 0.0
  {
    var amount, far := Share(t, equity), TargetFraction(c.mode) + RoundTrip(c);
    Position(exchange, t.symbol, t.side, OPEN, Money(amount / EntryAt(c, close, t.side)), close, close, amount, 0.0, 0.0,
             Some(if t.side == LONG then Below(close, StopFraction(c.mode)) else Above(close, StopFraction(c.mode))),
             Some(if t.side == LONG then Above(close, far) else Below(close, far)), now)
  }

  function FilledTrade(c: Calculator, row: Position, id: nat): Trade {
    Trade(OPENING, row.exchange, row.symbol, if row.side == LONG then BUY else SELL, row.quantity,
          EntryAt(c, row.entryPrice, row.side), row.notional, 0.0 - Commission(c, row.notional), id, row.openedAt)
  }

  // ---------- the screen, condition by condition ----------

  lemma OpenThereIff(rows: Table, exchange: string, symbol: string)
    ensures HasOpen(rows, exchange, symbol) <==> OpenThere(rows, exchange, symbol)
  {
    if HasOpen(rows, exchange, symbol) {
      var p :| p in rows && OpenFor(p, exchange, symbol);
      var i :| 0 <= i < |rows| && rows[i] == p;
    }
    if OpenThere(rows, exchange, symbol) {
      var i :| 0 <= i < |rows| && InMarket(rows[i], exchange, symbol) && rows[i].status.OPEN?;
      assert rows[i] in rows && OpenFor(rows[i], exchange, symbol);
    }
  }

  lemma StoppedOnceIff(rows: Table, exchange: string, symbol: string, now: int)
    ensures symbol in RecentStopLossSymbols(rows, exchange, now, 120) <==> StoppedOnce(rows, exchange, symbol, now, 120)
  {
    if symbol in RecentStopLossSymbols(rows, exchange, now, 120) {
      var p :| p in rows && StoppedSince(p, exchange, now - 120 * MINUTE) && p.symbol == symbol;
      var i :| 0 <= i < |rows| && rows[i] == p;
      assert StoppedWithin(rows, i, exchange, symbol, now, 120);
    }
    if StoppedOnce(rows, exchange, symbol, now, 120) {
      var i: nat :| i < |rows| && StoppedWithin(rows, i, exchange, symbol, now, 120);
      assert rows[i] in rows && StoppedSince(rows[i], exchange, now - 120 * MINUTE);
    }
  }

  lemma {:induction false} CountedOnce(rows: Table, exchange: string, symbol: string, cutoff: int) returns (i: nat)
    requires CountStops(rows, exchange, symbol, cutoff) >= 1
    ensures i < |rows| && StoppedSince(rows[i], exchange, cutoff) && rows[i].symbol == symbol
  {
    var n := |rows| - 1;
    if StoppedSince(rows[n], exchange, cutoff) && rows[n].symbol == symbol {
      i := n;
    } else {
      i := CountedOnce(rows[..n], exchange, symbol, cutoff);
    }
  }

  lemma {:induction false} CountedTwice(rows: Table, exchange: string, symbol: string, cutoff: int) returns (i: nat, j: nat)
    requires CountStops(rows, exchange, symbol, cutoff) >= 2
    ensures i < j < |rows|
    ensures StoppedSince(rows[i], exchange, cutoff) && rows[i].symbol == symbol
    ensures StoppedSince(rows[j], exchange, cutoff) && rows[j].symbol == symbol
  {
    var n := |rows| - 1;
    if StoppedSince(rows[n], exchange, cutoff) && rows[n].symbol == symbol {
      i := CountedOnce(rows[..n], exchange, symbol, cutoff);
      j := n;
    } else {
      i, j := CountedTwice(rows[..n], exchange, symbol, cutoff);
    }
  }

  lemma WithinIsSince(rows: Table, i: nat, exchange: string, symbol: string, now: int, minutes: int)
    requires i < |rows|
    ensures StoppedWithin(rows, i, exchange, symbol, now, minutes)
            <==> StoppedSince(rows[i], exchange, now - minutes * MINUTE) && rows[i].symbol == symbol
  {
  }

  lemma StoppedTwiceIff(rows: Table, exchange: string, symbol: string, now: int)
    ensures symbol in WhipsawSymbols(rows, exchange, now, 2, 2880) <==> StoppedTwice(rows, exchange, symbol, now, 2880)
  {
    hide StoppedWithin, StoppedSince, CountStops;
    var cutoff := now - 2880 * MINUTE;
    if symbol in WhipsawSymbols(rows, exchange, now, 2, 2880) {
      var i, j := CountedTwice(rows, exchange, symbol, cutoff);
      WithinIsSince(rows, i, exchange, symbol, now, 2880);
      WithinIsSince(rows, j, exchange, symbol, now, 2880);
    }
    if StoppedTwice(rows, exchange, symbol, now, 2880) {
      var i: nat, j: nat :| i < j < |rows| && StoppedWithin(rows, i, exchange, symbol, now, 2880)
                            && StoppedWithin(rows, j, exchange, symbol, now, 2880);
      WithinIsSince(rows, i, exchange, symbol, now, 2880);
      WithinIsSince(rows, j, exchange, symbol, now, 2880);
      CountStopsAtLeastTwo(rows, exchange, symbol, cutoff, i, j);
      assert rows[i] in rows && rows[i].symbol == symbol;
    }
  }

  lemma LiquidIff(bar: Snapshot)
    requires bar.close.Some? && bar.close.value > 0.0
    ensures !ThinOrWide(bar) <==> Liquid(bar, bar.close.value)
  {
    hide Times;
    if bar.high.Some? && bar.low.Some? {
      RangeShare(bar.high.value, bar.low.value, bar.close.value);
    }
  }

  lemma RangeShare(high: real, low: real, close: real)
    requires close > 0.0
    ensures (high - low) / close > 0.08 <==> high - low > Times(close, 0.08)
  {
    var q := (high - low) / close;
    assert q * close == high - low;
    assert q > 0.08 ==> q * close > 0.08 * close;
    assert q <= 0.08 ==> q * close <= 0.08 * close;
  }

  lemma ShareIsNotional(c: Calculator, t: TargetPosition, equity: real)
    ensures c.TargetNotional(t.weight, equity) == Share(t, equity)
  {
    hide Times;
    TimesOne(equity);
  }

  /** Rows that were opened since leave the cooldowns as they are. */
  lemma CooldownsUnmoved(rows: Table, more: Table, exchange: string, symbol: string, now: int)
    requires rows <= more && forall k | |rows| <= k < |more| :: more[k].status.OPEN?
    ensures StoppedOnce(rows, exchange, symbol, now, 120) <==> StoppedOnce(more, exchange, symbol, now, 120)
    ensures StoppedTwice(rows, exchange, symbol, now, 2880) <==> StoppedTwice(more, exchange, symbol, now, 2880)
  {
    forall i: nat, minutes: int | i < |more|
      ensures StoppedWithin(more, i, exchange, symbol, now, minutes)
              <==> i < |rows| && StoppedWithin(rows, i, exchange, symbol, now, minutes)
    {
    }
    hide StoppedWithin;
  }

  lemma ScreenIff(c: Calculator, rows: Table, l: Ledger, exchange: string, equity: real, t: TargetPosition, quotes: Quotes,
                  now: int)
    requires rows <= l.rows && forall k | |rows| <= k < |l.rows| :: l.rows[k].status.OPEN?
    ensures var o := Opening(exchange, quotes, now, equity, RecentStopLossSymbols(rows, exchange, now, 120),
                             WhipsawSymbols(rows, exchange, now, 2, 2880));
            Screen(c, o, l, t) == if Admissible(c, l.rows, l.cash, equity, exchange, t, quotes, now) then EXECUTED
                                  else Refusal(l.rows, equity, exchange, t, quotes, now)
    ensures Refusal(l.rows, equity, exchange, t, quotes, now) != EXECUTED
  {
    hide Money, Times, StoppedOnce, StoppedTwice, OpenThere, HasOpen, RecentStopLossSymbols, WhipsawSymbols, ThinOrWide,
         Liquid, Share, Commission, Calculator.TargetNotional, Calculator.Fee;
    OpenThereIff(l.rows, exchange, t.symbol);
    StoppedOnceIff(rows, exchange, t.symbol, now);
    StoppedTwiceIff(rows, exchange, t.symbol, now);
    CooldownsUnmoved(rows, l.rows, exchange, t.symbol, now);
    if QuoteFor(quotes, t.symbol).Some? { LiquidIff(quotes[t.symbol]); }
    ShareIsNotional(c, t, equity);
    FeeIsCommission(c, Share(t, equity));
  }

  lemma FilledIs(c: Calculator, o: Opening, l: Ledger, t: TargetPosition)
    requires AllTradable(c, o.quotes) && QuoteFor(o.quotes, t.symbol).Some?
    ensures EntryAt(c, QuoteFor(o.quotes, t.symbol).value, t.side) > 0.0
    ensures var row := FilledRow(c, o.startingEquity, o.exchange, t, QuoteFor(o.quotes, t.symbol).value, o.now);
            OpenPosition(c, o, l, t)
            == l.(cash := Money(l.cash - (row.notional + Commission(c, row.notional))), rows := l.rows + [row],
                  trades := l.trades + [FilledTrade(c, row, |l.rows|)])
  {
    hide Money, Times, Share, Commission, EntryAt, Above, Below, Calculator.TargetNotional, Calculator.Fee,
         Calculator.ExecutionPrice, Calculator.Bracket;
    var close := QuoteFor(o.quotes, t.symbol).value;
    assert c.Tradable(close);
    PricesAreSlipped(c, close, t.side);
    ShareIsNotional(c, t, o.startingEquity);
    FeeIsCommission(c, Share(t, o.startingEquity));
    BracketIsPercentage(c, close, t.side, t.overrideStop, t.overrideTarget);
  }

  // ---------- every order of a target ----------

  /** The ledger and the report once the first k orders of the target have been worked off. */
  function AfterOrders(c: Calculator, l: Ledger, target: PortfolioTarget, quotes: Quotes, now: int, k: nat): Progress
    requires AllTradable(c, quotes) && k <= |target.positions|
  {
    ExecuteTarget(c, l, target.(positions := target.positions[..k]), quotes, now)
  }

  lemma OrdersInTurn(c: Calculator, l: Ledger, target: PortfolioTarget, quotes: Quotes, now: int, k: nat)
    requires AllTradable(c, quotes) && k <= |target.positions|
    ensures var o := BeginOpening(l, target, quotes, now);
            var worked := OpenAll(c, o, Progress(l, [], []), target.positions[..k]);
            && AfterOrders(c, l, target, quotes, now, k) == worked.(ledger := Revalued(worked.ledger))
            && (k < |target.positions| ==>
                  OpenAll(c, o, Progress(l, [], []), target.positions[..k + 1])
                  == OpenOne(c, o, OpenAll(c, o, Progress(l, [], []), target.positions[..k]), target.positions[k]))
            && l.rows <= worked.ledger.rows
            && (forall i | |l.rows| <= i < |worked.ledger.rows| :: worked.ledger.rows[i].status.OPEN?)
  {
    hide OpenOne, Revalued, AllTradable;
    var o := BeginOpening(l, target, quotes, now);
    assert o == BeginOpening(l, target.(positions := target.positions[..k]), quotes, now);
    if k < |target.positions| { assert target.positions[..k + 1][..k] == target.positions[..k]; }
    OpenAllFiles(c, o, l, target.positions[..k]);
  }

  lemma RevaluedKeeps(l: Ledger)
    ensures Revalued(l).rows == l.rows && Revalued(l).cash == l.cash && Revalued(l).trades == l.trades
  {
  }

  /** Order k of a target is filled if and only if its market has no open row, no stop-loss in the last 120 minutes and
      fewer than two in the last 2880, there is a positive close on a bar that is neither too wide nor too thin, and
      its share of the equity is positive and covered by the cash left, commission included.  What is then filed is
      fixed by the close and the configured rates; otherwise nothing is. */
  lemma OrdersAreAdmittedExactly(c: Calculator, l: Ledger, target: PortfolioTarget, quotes: Quotes, now: int, k: nat)
    requires AllTradable(c, quotes) && k < |target.positions|
    ensures var t, equity := target.positions[k], l.equity;
            var before, after := AfterOrders(c, l, target, quotes, now, k), AfterOrders(c, l, target, quotes, now, k + 1);
            var b, a := before.ledger, after.ledger;
            if Admissible(c, b.rows, b.cash, equity, target.exchange, t, quotes, now) then
              EntryAt(c, QuoteFor(quotes, t.symbol).value, t.side) > 0.0 &&
              var row := FilledRow(c, equity, target.exchange, t, QuoteFor(quotes, t.symbol).value, now);
              && a.rows == b.rows + [row]
              && a.trades == b.trades + [FilledTrade(c, row, |b.rows|)]
              && a.cash == Money(b.cash - (row.notional + Commission(c, row.notional)))
              && after.skipped == before.skipped && after.executed == before.executed + [Item(t.symbol, EXECUTED)]
            else
              && a.rows == b.rows && a.trades == b.trades && a.cash == b.cash && after.executed == before.executed
              && after.skipped == before.skipped + [Item(t.symbol, Refusal(b.rows, equity, target.exchange, t, quotes, now))]
  {
    hide OpenAll, Revalued, Admissible, Refusal, FilledRow, FilledTrade, Commission, Money, Screen, RecentStopLossSymbols,
         WhipsawSymbols, AfterOrders, EntryAt, AllTradable, OpenPosition;
    var o, t := BeginOpening(l, target, quotes, now), target.positions[k];
    OrdersInTurn(c, l, target, quotes, now, k);
    OrdersInTurn(c, l, target, quotes, now, k + 1);
    var pr := OpenAll(c, o, Progress(l, [], []), target.positions[..k]);
    RevaluedKeeps(pr.ledger);
    RevaluedKeeps(OpenOne(c, o, pr, t).ledger);
    ScreenIff(c, l.rows, pr.ledger, target.exchange, l.equity, t, quotes, now);
    if Screen(c, o, pr.ledger, t) == EXECUTED {
      AdmissibleIsQuoted(c, pr.ledger.rows, pr.ledger.cash, l.equity, target.exchange, t, quotes, now);
      FilledIs(c, o, pr.ledger, t);
    }
  }

  lemma AdmissibleIsQuoted(c: Calculator, rows: Table, cash: real, equity: real, exchange: string, t: TargetPosition,
                           quotes: Quotes, now: int)
    requires Admissible(c, rows, cash, equity, exchange, t, quotes, now)
    ensures QuoteFor(quotes, t.symbol).Some?
  {
  }

  /** The step begins at the ledger it is given and ends after the last order. */
  lemma OrdersMakeTheStep(c: Calculator, l: Ledger, target: PortfolioTarget, quotes: Quotes, now: int)
    requires AllTradable(c, quotes)
    ensures var start := AfterOrders(c, l, target, quotes, now, 0);
            && start.ledger.rows == l.rows && start.ledger.cash == l.cash && start.ledger.trades == l.trades
            && start.executed == [] && start.skipped == []
    ensures AfterOrders(c, l, target, quotes, now, |target.positions|) == ExecuteTarget(c, l, target, quotes, now)
  {
    hide Revalued, AllTradable, OpenOne;
    RevaluedKeeps(l);
    assert target.positions[..0] == [];
    assert target.positions[..|target.positions|] == target.positions;
    assert target.(positions := target.positions) == target;
  }

  /** In particular a target of one order adds a row, the one that the order asks for, if and only if it is admitted on
      the account as it stands. */
  lemma OneOrderIsAdmittedExactly(c: Calculator, l: Ledger, target: PortfolioTarget, quotes: Quotes, now: int)
    requires AllTradable(c, quotes) && |target.positions| == 1
    ensures var t, rows := target.positions[0], ExecuteTarget(c, l, target, quotes, now).ledger.rows;
            if Admissible(c, l.rows, l.cash, l.equity, target.exchange, t, quotes, now) then
              EntryAt(c, QuoteFor(quotes, t.symbol).value, t.side) > 0.0
              && rows == l.rows + [FilledRow(c, l.equity, target.exchange, t, QuoteFor(quotes, t.symbol).value, now)]
            else rows == l.rows
  {
    hide AfterOrders, ExecuteTarget, Admissible, FilledRow, FilledTrade, Refusal, EntryAt, AllTradable, Money;
    OrdersMakeTheStep(c, l, target, quotes, now);
    OrdersAreAdmittedExactly(c, l, target, quotes, now, 0);
    if Admissible(c, l.rows, l.cash, l.equity, target.exchange, target.positions[0], quotes, now) {
      AdmissibleIsQuoted(c, l.rows, l.cash, l.equity, target.exchange, target.positions[0], quotes, now);
    }
  }
}
