/**
 Conservation: no step of the broker creates or destroys money beyond the rounding of
 its own amounts.
 */
module Conservation {
  import opened Ledger
  import opened Options
  import opened PositionTable
  import opened RiskCalculator
  import opened Rounding
  import opened Targets

  // ---------- the quantities of the law ----------

  function RealizedPnl(trades: seq<Trade>): real {
    if |trades| == 0 then 0.0
    else RealizedPnl(trades[..|trades| - 1]) + trades[|trades| - 1].realizedPnl
  }

  function CountOf(trades: seq<Trade>, origin: Origin): nat {
    if |trades| == 0 then 0
    else CountOf(trades[..|trades| - 1], origin) + if trades[|trades| - 1].origin == origin then 1 else 0
  }

  function EntryPrices(rows: Table): seq<real> {
    seq(|rows|, i requires 0 <= i < |rows| => rows[i].entryPrice)
  }

  /** What a position cost beyond its quantity at the quoted entry price. */
  function SlippagePaid(t: Trade, entries: seq<real>): real {
    if t.origin == OPENING && t.positionId < |entries|
    then t.notional - Times(t.quantity, entries[t.positionId])
    else 0.0
  }

  function TotalSlippage(trades: seq<Trade>, entries: seq<real>): real {
    if |trades| == 0 then 0.0
    else TotalSlippage(trades[..|trades| - 1], entries) + SlippagePaid(trades[|trades| - 1], entries)
  }

  /** Cash and the cost of what is open, less what the trades say it should be. */
  function Drift(l: Ledger, balance: real): real {
    l.cash + SumOpen(l.rows, Cost)
    - (balance + RealizedPnl(l.trades) - TotalSlippage(l.trades, EntryPrices(l.rows)))
  }

  function RoundingAllowance(trades: seq<Trade>): real {
    0.5 * UNIT * CountOf(trades, OPENING) as real + 1.5 * UNIT * CountOf(trades, CLOSING) as real
  }

  predicate TradesRefer(l: Ledger) {
    forall i | 0 <= i < |l.trades| :: l.trades[i].positionId < |l.rows|
  }

  /** The books balance up to half a unit per opening and one and a half per closing trade. */
  ghost predicate Balanced(l: Ledger, balance: real) {
    && IsMoney(l.cash)
    && TradesRefer(l)
    && CountOf(l.trades, OPENING) == |l.rows|
    && CountOf(l.trades, CLOSING) + CountOpen(l.rows) == |l.rows|
    && -RoundingAllowance(l.trades) <= Drift(l, balance) <= RoundingAllowance(l.trades)
  }

  /** An open row's unrealized profit is that of its last mark, to a unit. */
  predicate MarkAgrees(p: Position) {
    p.status.OPEN? ==> -UNIT <= Gain(p.side, p.entryPrice, p.currentPrice, p.quantity) - p.unrealizedPnl <= UNIT
  }

  // ---------- sums under the two ways a table changes ----------

  lemma SlippageAppendTrade(trades: seq<Trade>, t: Trade, entries: seq<real>)
    ensures TotalSlippage(trades + [t], entries) == TotalSlippage(trades, entries) + SlippagePaid(t, entries)
    ensures RealizedPnl(trades + [t]) == RealizedPnl(trades) + t.realizedPnl
    ensures forall o :: CountOf(trades + [t], o) == CountOf(trades, o) + if t.origin == o then 1 else 0
  {
    assert (trades + [t])[..|trades|] == trades;
  }

  lemma {:induction false} SlippageAppendRow(trades: seq<Trade>, entries: seq<real>, entry: real)
    requires forall i | 0 <= i < |trades| :: trades[i].positionId < |entries|
    ensures TotalSlippage(trades, entries + [entry]) == TotalSlippage(trades, entries)
  {
    if |trades| > 0 {
      var n := |trades| - 1;
      SlippageAppendRow(trades[..n], entries, entry);
      assert (entries + [entry])[trades[n].positionId] == entries[trades[n].positionId];
    }
  }

  lemma {:induction false} CountOpenUpdate(rows: Table, i: nat, p: Position)
    requires i < |rows|
    ensures CountOpen(rows[i := p]) == CountOpen(rows)
              - (if rows[i].status.OPEN? then 1 else 0) + (if p.status.OPEN? then 1 else 0)
  {
    var n := |rows| - 1;
    if i < n {
      assert rows[i := p][..n] == rows[..n][i := p];
      CountOpenUpdate(rows[..n], i, p);
    } else {
      assert rows[i := p][..n] == rows[..n];
    }
  }

  // ---------- each change keeps the books balanced ----------

  lemma InitiallyBalanced(balance: real)
    requires IsMoney(balance)
    ensures Balanced(Initial(balance), balance)
  {
  }

  /** Opening: the only rounding is that of the new cash. */
  lemma OpenKeepsBalance(c: Calculator, o: Opening, l: Ledger, t: TargetPosition, balance: real)
    requires AllTradable(c, o.quotes)
    requires t.symbol in o.quotes && o.quotes[t.symbol].close.Some? && o.quotes[t.symbol].close.value > 0.0
    requires Balanced(l, balance)
    ensures Balanced(OpenPosition(c, o, l, t), balance)
  {
    hide Money, Times;
    var l' := OpenPosition(c, o, l, t);
    var row := OpenRow(c, o, t);
    var trade := l'.trades[|l.trades|];
    var entries := EntryPrices(l.rows);
    assert EntryPrices(l'.rows) == entries + [row.entryPrice];
    SlippageAppendRow(l.trades, entries, row.entryPrice);
    SlippageAppendTrade(l.trades, trade, EntryPrices(l'.rows));
    SumOpenAppend(l.rows, row, Cost);
    assert (l.rows + [row])[..|l.rows|] == l.rows;
    MoneyError(l.cash - (row.notional + c.Fee(row.notional)));
  }

  /** What settling adds to cash and files as profit differ by the position's cost, to 1.5 units. */
  lemma SettleRounding(c: Calculator, l: Ledger, id: nat, price: real, now: int, reason: string)
    requires id < |l.rows| && IsMoney(l.cash)
    ensures var l' := Settle(c, l, id, price, now, reason);
            && IsMoney(l'.cash)
            && -1.5 * UNIT <= (l'.cash - l.cash) - Cost(l.rows[id]) - l'.rows[id].realizedPnl <= 1.5 * UNIT
  {
    hide Money, Times, ZeroIfTiny, Gain;
    var p := l.rows[id];
    var exit := c.ExitPrice(price, p.side);
    ExitIsMoney(c, price, p.side);
    MoneyFixed(exit);
    var raw := Gain(p.side, p.entryPrice, exit, p.quantity);
    var fee := c.Fee(Money(Times(p.quantity, exit)));
    var recovered := Money(Cost(p) + raw - fee);
    MoneyError(Cost(p) + raw - fee);
    ZeroIfTinyError(raw);
    MoneySum(l.cash, recovered);
    MoneyFixed(l.cash + recovered);
  }

  /** Settling: recovering cash rounds once, and the recorded profit once more. */
  lemma SettleKeepsBalance(c: Calculator, l: Ledger, id: nat, price: real, now: int, reason: string, balance: real)
    requires id < |l.rows| && l.rows[id].status.OPEN?
    requires Balanced(l, balance)
    ensures Balanced(Settle(c, l, id, price, now, reason), balance)
  {
    hide Money, Times, ZeroIfTiny, Gain;
    var l' := Settle(c, l, id, price, now, reason);
    SettleRounding(c, l, id, price, now, reason);
    assert EntryPrices(l'.rows) == EntryPrices(l.rows);
    SlippageAppendTrade(l.trades, l'.trades[|l.trades|], EntryPrices(l.rows));
    SumOpenUpdate(l.rows, id, l'.rows[id], Cost);
    CountOpenUpdate(l.rows, id, l'.rows[id]);
  }

  lemma ExitIsMoney(c: Calculator, price: real, side: Side)
    ensures IsMoney(c.ExitPrice(price, side))
  {
    MoneyError(Times(price, 1.0 - c.Slip(price)));
    MoneyError(Times(price, 1.0 + c.Slip(price)));
  }

  /** Marking and trailing move no money. */
  lemma RemarkKeepsBalance(l: Ledger, id: nat, row: Position, balance: real)
    requires id < |l.rows| && l.rows[id].status.OPEN? && row.status.OPEN?
    requires row.quantity == l.rows[id].quantity && row.entryPrice == l.rows[id].entryPrice
    requires Balanced(l, balance)
    ensures Balanced(l.(rows := l.rows[id := row]), balance)
  {
    hide Times;
    assert EntryPrices(l.rows[id := row]) == EntryPrices(l.rows);
    SumOpenUpdate(l.rows, id, row, Cost);
    CountOpenUpdate(l.rows, id, row);
  }

  // ---------- what balance means for the account ----------

  /** Within one unit per recorded trade. */
  lemma BalancedPerTrade(l: Ledger, balance: real)
    requires Balanced(l, balance)
    ensures -UNIT * |l.trades| as real <= Drift(l, balance) <= UNIT * |l.trades| as real
  {
    CountsAddUp(l.trades);
  }

  lemma {:induction false} CountsAddUp(trades: seq<Trade>)
    ensures CountOf(trades, OPENING) + CountOf(trades, CLOSING) == |trades|
  {
    if |trades| > 0 {
      CountsAddUp(trades[..|trades| - 1]);
    }
  }

  function WorthOverCost(p: Position): real {
    Worth(p) - Cost(p)
  }

  function Unrealized(p: Position): real {
    p.unrealizedPnl
  }

  /** Longs and shorts alike are worth their cost plus what they have gained. */
  lemma WorthIsCostPlusGain(p: Position)
    ensures Worth(p) == Cost(p) + Gain(p.side, p.entryPrice, p.currentPrice, p.quantity)
  {
  }

  lemma {:induction false} SumOpenDifference(rows: Table)
    ensures SumOpen(rows, WorthOverCost) == SumOpen(rows, Worth) - SumOpen(rows, Cost)
  {
    if |rows| > 0 {
      SumOpenDifference(rows[..|rows| - 1]);
    }
  }

  /** Equity is cash, plus what is open at cost, plus the unrealized profit of the open rows. */
  lemma EquityLaw(l: Ledger, balance: real)
    requires Balanced(l, balance)
    requires forall p | p in l.rows :: MarkAgrees(p)
    ensures var allowed := UNIT * (0.5 + CountOpen(l.rows) as real);
            -allowed <= Revalued(l).equity - (l.cash + SumOpen(l.rows, Cost) + SumOpen(l.rows, Unrealized)) <= allowed
  {
    hide Money, Times, Gain;
    forall p | p in l.rows && p.status.OPEN?
      ensures -UNIT <= WorthOverCost(p) - Unrealized(p) <= UNIT
    {
      WorthIsCostPlusGain(p);
    }
    SumOpenClose(l.rows, WorthOverCost, Unrealized);
    SumOpenDifference(l.rows);
    MoneyError(SumOpen(l.rows, Worth));
    MoneySum(l.cash, OpenPositionsValue(l.rows));
    MoneyFixed(l.cash + OpenPositionsValue(l.rows));
  }
}
