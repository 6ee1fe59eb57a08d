/**
 Cash never goes below zero, unless a short is settled at an exit price more than its
 collateral covers; and trading at one quote never pays.
 */
module CashSafety {
  import opened Ledger
  import opened PositionTable
  import opened RiskCalculator
  import opened Rounding
  import opened Targets

  predicate Sized(p: Position) {
    p.quantity >= 0.0
  }

  function ClosingFee(c: Calculator, p: Position, exit: real): real {
    c.Fee(Money(Times(p.quantity, exit)))
  }

  /** A short's collateral, twice its cost, pays for buying it back at `exit` plus the fee
      (half a unit short still rounds to nothing owed). */
  predicate Covers(c: Calculator, p: Position, exit: real) {
    Times(p.quantity, exit) + ClosingFee(c, p, exit) <= 2.0 * Cost(p) + 0.5 * UNIT
  }

  /** Every short closed so far was covered at the price it was closed at. */
  predicate ShortsCovered(c: Calculator, rows: Table) {
    forall p | p in rows && p.side.SHORT? && p.status.CLOSED? :: Covers(c, p, p.currentPrice)
  }

  /** What settling pays out, before it is added to cash. */
  function Recovered(c: Calculator, p: Position, exit: real): real {
    Money(Cost(p) + Gain(p.side, p.entryPrice, exit, p.quantity) - ClosingFee(c, p, exit))
  }

  /** The two sides of a position recover what the exit is worth, or twice the cost less that. */
  lemma RecoveredIs(c: Calculator, p: Position, exit: real)
    ensures p.side.LONG? ==> Recovered(c, p, exit) == Money(Times(p.quantity, exit) - ClosingFee(c, p, exit))
    ensures p.side.SHORT? ==>
      Recovered(c, p, exit) == Money(2.0 * Cost(p) - Times(p.quantity, exit) - ClosingFee(c, p, exit))
  {
    hide Money;
    assert p.side.LONG? ==> Cost(p) + Gain(p.side, p.entryPrice, exit, p.quantity) == Times(p.quantity, exit);
    assert p.side.SHORT? ==> Cost(p) + Gain(p.side, p.entryPrice, exit, p.quantity)
                             == 2.0 * Cost(p) - Times(p.quantity, exit);
  }

  /** The fee on an amount that rounds to `gross` is at most `gross`. */
  lemma FeeAtMostGross(c: Calculator, gross: real)
    requires c.Valid() && gross >= 0.0 && IsMoney(gross)
    ensures 0.0 <= c.Fee(gross) <= gross
  {
    hide Money;
    TimesMonotone(gross, 0.0, c.commissionRate);
    TimesMonotone(gross, c.commissionRate, 1.0);
    MoneySign(Times(gross, c.commissionRate));
    MoneyMonotone(Times(gross, c.commissionRate), gross);
    MoneyFixed(gross);
  }

  lemma LongRecoversNonNegative(c: Calculator, p: Position, exit: real)
    requires c.Valid() && Sized(p) && p.side.LONG? && exit >= 0.0
    ensures Recovered(c, p, exit) >= 0.0
  {
    hide Money, Times;
    var worth := Times(p.quantity, exit);
    assert worth >= 0.0 by { TimesNonNegative(p.quantity, exit); }
    MoneyError(worth);
    MoneySign(worth);
    FeeAtMostGross(c, Money(worth));
    MoneySign(worth - ClosingFee(c, p, exit));
    RecoveredIs(c, p, exit);
  }

  /** For a short the guard is exact. */
  lemma ShortRecoversIffCovered(c: Calculator, p: Position, exit: real)
    requires p.side.SHORT?
    ensures Recovered(c, p, exit) >= 0.0 <==> Covers(c, p, exit)
  {
    hide Money, Times;
    RecoveredIs(c, p, exit);
    MoneySign(2.0 * Cost(p) - Times(p.quantity, exit) - ClosingFee(c, p, exit));
  }

  // ---------- each change keeps cash safe ----------

  ghost predicate CashSafe(c: Calculator, l: Ledger) {
    && (forall p | p in l.rows :: Sized(p))
    && (ShortsCovered(c, l.rows) ==> l.cash >= 0.0)
  }

  /** The screen admits only what the running cash can pay, so several openings in one
      step cannot overdraw it together. */
  lemma OpenKeepsCashSafe(c: Calculator, o: Opening, l: Ledger, t: TargetPosition)
    requires AllTradable(c, o.quotes) && CashSafe(c, l)
    requires Screen(c, o, l, t) == EXECUTED
    ensures CashSafe(c, OpenPosition(c, o, l, t))
    ensures OpenPosition(c, o, l, t).cash >= 0.0
  {
    hide Money, Times;
    var l' := OpenPosition(c, o, l, t);
    var row := OpenRow(c, o, t);
    MoneySign(l.cash - (row.notional + c.Fee(row.notional)));
    assert c.Tradable(o.quotes[t.symbol].close.value);
    var price := c.ExecutionPrice(row.entryPrice, t.side);
    assert row.notional / price >= 0.0;
    MoneySign(row.notional / price);
    assert forall p | p in l'.rows :: p in l.rows || p == row;
  }

  lemma SettleKeepsCashSafe(c: Calculator, l: Ledger, id: nat, price: real, now: int, reason: string)
    requires c.Valid() && CashSafe(c, l) && price > 0.0
    requires id < |l.rows| && l.rows[id].status.OPEN?
    ensures CashSafe(c, Settle(c, l, id, price, now, reason))
  {
    hide Money, Times, Gain, ZeroIfTiny;
    var l' := Settle(c, l, id, price, now, reason);
    var p, p' := l.rows[id], l'.rows[id];
    var exit := c.ExitPrice(price, p.side);
    SlippageCosts(c, price);
    assert exit >= 0.0 by { MoneySign(price); }
    MoneyError(Times(price, 1.0 - c.Slip(price)));
    MoneyError(Times(price, 1.0 + c.Slip(price)));
    MoneyFixed(exit);
    assert p in l.rows && p' in l'.rows;
    forall q | q in l'.rows ensures Sized(q) {
      assert q in l.rows || q == p';
    }
    if ShortsCovered(c, l'.rows) {
      OtherRowsCovered(c, l.rows, id, p');
      if p.side.LONG? {
        LongRecoversNonNegative(c, p, exit);
      } else {
        assert Covers(c, p', p'.currentPrice) && Covers(c, p, exit);
        ShortRecoversIffCovered(c, p, exit);
      }
      MoneySign(l.cash + Recovered(c, p, exit));
    }
  }

  /** The row being settled was open, so the shorts closed before are among those closed after. */
  lemma OtherRowsCovered(c: Calculator, rows: Table, id: nat, row: Position)
    requires id < |rows| && rows[id].status.OPEN?
    requires ShortsCovered(c, rows[id := row])
    ensures ShortsCovered(c, rows)
  {
    forall q | q in rows && q.side.SHORT? && q.status.CLOSED? ensures Covers(c, q, q.currentPrice) {
      var i :| 0 <= i < |rows| && rows[i] == q;
      assert rows[id := row][i] == q;
      assert q in rows[id := row];
    }
  }

  lemma RemarkKeepsCashSafe(c: Calculator, l: Ledger, id: nat, row: Position)
    requires CashSafe(c, l) && id < |l.rows| && l.rows[id].status.OPEN? && row.status.OPEN?
    requires row.quantity == l.rows[id].quantity
    ensures CashSafe(c, l.(rows := l.rows[id := row]))
  {
    assert l.rows[id] in l.rows;
    forall q | q in l.rows[id := row] ensures Sized(q) {
      assert q in l.rows || q == row;
    }
    if ShortsCovered(c, l.rows[id := row]) {
      OtherRowsCovered(c, l.rows, id, row);
    }
  }

  // ---------- trading never pays by itself ----------

  /** A fresh position is marked at its quote, which may have more than eight decimals; later marks have eight. */
  function MarkRounding(p: Position): real {
    if Money(p.currentPrice) == p.currentPrice then 0.0 else 0.5 * UNIT * p.quantity
  }

  lemma MarkedValue(p: Position)
    requires Sized(p)
    ensures Times(p.quantity, Money(p.currentPrice)) <= Times(p.quantity, p.currentPrice) + MarkRounding(p)
    ensures Times(p.quantity, Money(p.currentPrice)) >= Times(p.quantity, p.currentPrice) - MarkRounding(p)
  {
    hide Money;
    var mark := p.currentPrice;
    MoneyError(mark);
    TimesMonotone(p.quantity, Money(mark), mark + 0.5 * UNIT);
    TimesMonotone(p.quantity, mark - 0.5 * UNIT, Money(mark));
  }

  /** Settling a position at its own mark returns at most its worth less the fee, beyond rounding. */
  lemma SettlingAtMarkNeverPays(c: Calculator, p: Position)
    requires c.Valid() && Sized(p) && p.currentPrice > 0.0
    ensures var exit := c.ExitPrice(p.currentPrice, p.side);
            Recovered(c, p, exit) <= Worth(p) - ClosingFee(c, p, exit) + 0.5 * UNIT + MarkRounding(p)
    ensures ClosingFee(c, p, c.ExitPrice(p.currentPrice, p.side)) >= 0.0
  {
    hide Money, MarkRounding, Calculator.ExitPrice, ClosingFee, Recovered;
    var exit := c.ExitPrice(p.currentPrice, p.side);
    SlippageCosts(c, p.currentPrice);
    MarkedValue(p);
    RecoveredIs(c, p, exit);
    MoneyError(Times(p.quantity, exit) - ClosingFee(c, p, exit));
    MoneyError(2.0 * Cost(p) - Times(p.quantity, exit) - ClosingFee(c, p, exit));
    if p.side.LONG? {
      TimesMonotone(p.quantity, exit, Money(p.currentPrice));
    } else {
      TimesMonotone(p.quantity, Money(p.currentPrice), exit);
    }
    ShortWorth(p);
    ExitNotNegative(c, p.currentPrice, p.side);
    FeeNotNegative(c, p, exit);
  }

  lemma ShortWorth(p: Position)
    ensures Worth(p) == if p.side.LONG? then Times(p.quantity, p.currentPrice)
                        else 2.0 * Cost(p) - Times(p.quantity, p.currentPrice)
  {
  }

  lemma ExitNotNegative(c: Calculator, price: real, side: Side)
    requires c.Valid() && price > 0.0
    ensures c.ExitPrice(price, side) >= 0.0
  {
    hide Money;
    SlippageCosts(c, price);
    MoneySign(price);
  }

  lemma FeeNotNegative(c: Calculator, p: Position, exit: real)
    requires c.Valid() && Sized(p) && exit >= 0.0
    ensures ClosingFee(c, p, exit) >= 0.0
  {
    hide Money, Times;
    TimesNonNegative(p.quantity, exit);
    MoneySign(Times(p.quantity, exit));
    MoneyError(Times(p.quantity, exit));
    FeeAtMostGross(c, Money(Times(p.quantity, exit)));
  }

  lemma SettledLedger(c: Calculator, l: Ledger, id: nat, price: real, now: int, reason: string)
    requires id < |l.rows| && l.rows[id].status.OPEN? && IsMoney(l.cash)
    ensures var l' := Settle(c, l, id, price, now, reason);
            && l'.cash == l.cash + Recovered(c, l.rows[id], c.ExitPrice(price, l.rows[id].side))
            && SumOpen(l'.rows, Worth) == SumOpen(l.rows, Worth) - Worth(l.rows[id])
  {
    hide Money, Times, Gain, ZeroIfTiny, Worth, SumOpen;
    var p := l.rows[id];
    var exit := c.ExitPrice(price, p.side);
    MoneyError(Cost(p) + Gain(p.side, p.entryPrice, exit, p.quantity) - ClosingFee(c, p, exit));
    MoneySum(l.cash, Recovered(c, p, exit));
    MoneyFixed(l.cash + Recovered(c, p, exit));
    SumOpenUpdate(l.rows, id, Settle(c, l, id, price, now, reason).rows[id], Worth);
  }

  /** Settling an open position at its mark lowers the account's equity by the fee, or more, beyond one and a half
      units (and the rounding of a quote that was never marked). */
  lemma SettlingAtMarkLowersEquity(c: Calculator, l: Ledger, id: nat, now: int, reason: string)
    requires c.Valid() && IsMoney(l.cash)
    requires id < |l.rows| && l.rows[id].status.OPEN? && Sized(l.rows[id]) && l.rows[id].currentPrice > 0.0
    ensures var p := l.rows[id];
            var fee := ClosingFee(c, p, c.ExitPrice(p.currentPrice, p.side));
            && fee >= 0.0
            && Revalued(Settle(c, l, id, p.currentPrice, now, reason)).equity
               <= Revalued(l).equity - fee + 1.5 * UNIT + MarkRounding(p)
  {
    hide Money, Settle, MarkRounding, ClosingFee, Recovered, Worth, SumOpen, Calculator.ExitPrice;
    var p := l.rows[id];
    var l' := Settle(c, l, id, p.currentPrice, now, reason);
    SettledLedger(c, l, id, p.currentPrice, now, reason);
    SettlingAtMarkNeverPays(c, p);
    EquityIs(l);
    SettleRoundingOfCash(c, l, id, p.currentPrice, now, reason);
    EquityIs(l');
  }

  lemma SettleRoundingOfCash(c: Calculator, l: Ledger, id: nat, price: real, now: int, reason: string)
    requires id < |l.rows|
    ensures IsMoney(Settle(c, l, id, price, now, reason).cash)
  {
    var p := l.rows[id];
    MoneyError(l.cash + Recovered(c, p, c.ExitPrice(price, p.side)));
  }

  /** Equity misses cash plus the exact worth of what is open by half a unit. */
  lemma EquityIs(l: Ledger)
    requires IsMoney(l.cash)
    ensures -0.5 * UNIT <= Revalued(l).equity - (l.cash + SumOpen(l.rows, Worth)) <= 0.5 * UNIT
  {
    hide Money, SumOpen;
    MoneyError(SumOpen(l.rows, Worth));
    MoneySum(l.cash, Money(SumOpen(l.rows, Worth)));
    MoneyFixed(l.cash + Money(SumOpen(l.rows, Worth)));
  }

  /** A quantity sized at `unitPrice` is worth at most the notional at any lower price, but for
      the rounding of the quantity. */
  lemma SizedWorth(notional: real, unitPrice: real, price: real)
    requires unitPrice > 0.0 && notional >= 0.0 && 0.0 <= price <= unitPrice
    ensures Times(Money(notional / unitPrice), price) <= notional + 0.5 * UNIT * price
  {
    hide Money;
    var exact := notional / unitPrice;
    var quantity := Money(exact);
    MoneyError(exact);
    assert exact * unitPrice == notional;
    TimesMonotone(price, quantity, exact + 0.5 * UNIT);
    TimesMonotone(exact, price, unitPrice);
  }

  /** A short bought back at the quote it was sold at returns at most its slipped proceeds, to a unit. */
  lemma ShortNetsAtMostProceeds(c: Calculator, price: real)
    requires c.Valid() && price > 0.0
    ensures 2.0 * price - c.ExitPrice(price, SHORT) <= c.ExecutionPrice(price, SHORT) + UNIT
  {
    hide Money;
    MoneyError(Times(price, 1.0 + c.Slip(price)));
    MoneyError(Times(price, 1.0 - c.Slip(price)));
    assert Times(price, 1.0 + c.Slip(price)) + Times(price, 1.0 - c.Slip(price)) == 2.0 * price;
  }

  lemma TimesCombine(q: real, a: real, b: real)
    ensures 2.0 * Times(q, a) - Times(q, b) == Times(q, 2.0 * a - b)
    ensures Times(q, a + UNIT) == Times(q, a) + q * UNIT
  {
  }

  lemma ShortRoundTrip(c: Calculator, p: Position, notional: real, executed: real, exit: real)
    requires p.side.SHORT? && p.quantity >= 0.0 && executed > 0.0 && notional >= 0.0
    requires p.quantity == Money(notional / executed)
    requires executed <= Money(p.entryPrice) && 2.0 * p.entryPrice - exit <= executed + UNIT
    ensures Recovered(c, p, exit) <= notional - ClosingFee(c, p, exit)
                                     + UNIT * (0.5 + 0.5 * Money(p.entryPrice) + p.quantity)
  {
    hide Money, Times;
    RecoveredIs(c, p, exit);
    SizedWorth(notional, executed, executed);
    TimesMonotone(p.quantity, 2.0 * p.entryPrice - exit, executed + UNIT);
    TimesCombine(p.quantity, p.entryPrice, exit);
    TimesCombine(p.quantity, executed, exit);
    MoneyError(2.0 * Cost(p) - Times(p.quantity, exit) - ClosingFee(c, p, exit));
  }

  lemma LongRoundTrip(c: Calculator, p: Position, notional: real, executed: real, exit: real)
    requires p.side.LONG? && executed > 0.0 && notional >= 0.0 && p.quantity >= 0.0
    requires p.quantity == Money(notional / executed)
    requires 0.0 <= exit <= executed && exit <= Money(p.entryPrice)
    ensures Recovered(c, p, exit) <= notional - ClosingFee(c, p, exit)
                                     + UNIT * (0.5 + 0.5 * Money(p.entryPrice) + p.quantity)
  {
    hide Money, Times;
    RecoveredIs(c, p, exit);
    SizedWorth(notional, executed, exit);
    MoneyError(Times(p.quantity, exit) - ClosingFee(c, p, exit));
  }

  lemma RoundTripRecovers(c: Calculator, p: Position, notional: real)
    requires c.Valid() && notional >= 0.0 && c.ExecutionPrice(p.entryPrice, p.side) > 0.0
    requires p.quantity == c.Quantity(notional, c.ExecutionPrice(p.entryPrice, p.side))
    ensures var exit := c.ExitPrice(p.entryPrice, p.side);
            Recovered(c, p, exit) <= notional - ClosingFee(c, p, exit)
                                     + UNIT * (0.5 + 0.5 * Money(p.entryPrice) + p.quantity)
  {
    hide Money, Times, Recovered, ClosingFee, Calculator.ExitPrice, Calculator.ExecutionPrice;
    var executed := c.ExecutionPrice(p.entryPrice, p.side);
    var exit := c.ExitPrice(p.entryPrice, p.side);
    SlippageCosts(c, p.entryPrice);
    assert notional / executed >= 0.0;
    MoneySign(notional / executed);
    if p.side.LONG? {
      LongRoundTrip(c, p, notional, executed, exit);
    } else {
      ShortNetsAtMostProceeds(c, p.entryPrice);
      ShortRoundTrip(c, p, notional, executed, exit);
    }
  }

  /** Opening and closing at one quote leaves at least both fees behind, on either side of the
      market, but for rounding of the order of the price and the quantity. */
  lemma RoundTripNeverPays(c: Calculator, o: Opening, l: Ledger, t: TargetPosition, later: int, reason: string)
    requires c.Valid() && AllTradable(c, o.quotes) && IsMoney(l.cash)
    requires Screen(c, o, l, t) == EXECUTED
    ensures var after := OpenPosition(c, o, l, t);
            var row := after.rows[|l.rows|];
            var closed := Settle(c, after, |l.rows|, row.entryPrice, later, reason);
            var fees := c.Fee(row.notional) + ClosingFee(c, row, c.ExitPrice(row.entryPrice, row.side));
            closed.cash <= l.cash - fees + UNIT * (1.0 + 0.5 * Money(row.entryPrice) + row.quantity)
  {
    hide Money, Times, Gain;
    var after := OpenPosition(c, o, l, t);
    var row := after.rows[|l.rows|];
    assert c.Tradable(o.quotes[t.symbol].close.value);
    RoundTripRecovers(c, row, row.notional);
    var exit := c.ExitPrice(row.entryPrice, row.side);
    MoneyError(l.cash - (row.notional + c.Fee(row.notional)));
    MoneyError(Cost(row) + Gain(row.side, row.entryPrice, exit, row.quantity) - ClosingFee(c, row, exit));
    MoneySum(after.cash, Recovered(c, row, exit));
    MoneyFixed(after.cash + Recovered(c, row, exit));
  }
}
