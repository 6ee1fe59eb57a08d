/**
 The life of a position: its stop only tightens, stop and target never cross while it is
 open, and it is stopped out exactly when the price has reached its stop.
 */
module TrailingBracket {
  import opened Ledger
  import opened Options
  import opened PositionTable
  import opened RiskCalculator
  import opened Rounding
  import opened Targets

  // ---------- one row through time ----------

  /** `after` stops out no later than `before` would. */
  predicate Tightened(side: Side, before: Option<real>, after: Option<real>) {
    before.Some? ==>
      after.Some? && match side
        case LONG => before.value <= after.value
        case SHORT => after.value <= before.value
  }

  /** What may become of a row: its terms are fixed, its stop tightens, and once closed it is history. */
  predicate RowEvolves(p: Position, q: Position) {
    && q.exchange == p.exchange && q.symbol == p.symbol && q.side == p.side
    && q.quantity == p.quantity && q.entryPrice == p.entryPrice
    && q.openedAt == p.openedAt && q.takeProfit == p.takeProfit
    && Tightened(p.side, p.stopLoss, q.stopLoss)
    && (p.status.CLOSED? ==> q == p)
  }

  ghost predicate Evolves(rows: Table, rows': Table) {
    && |rows| <= |rows'|
    && forall i | 0 <= i < |rows| :: RowEvolves(rows[i], rows'[i])
  }

  lemma EvolvesTransitive(a: Table, b: Table, c: Table)
    requires Evolves(a, b) && Evolves(b, c)
    ensures Evolves(a, c)
  {
    forall i | 0 <= i < |a| ensures RowEvolves(a[i], c[i]) {
      assert RowEvolves(a[i], b[i]) && RowEvolves(b[i], c[i]);
    }
  }

  /** While a position is open, its stop and its target do not cross. */
  predicate Bracketed(p: Position) {
    p.status.OPEN? ==>
      && p.stopLoss.Some? && p.takeProfit.Some?
      && match p.side
         case LONG => p.stopLoss.value <= p.takeProfit.value
         case SHORT => p.takeProfit.value <= p.stopLoss.value
  }

  lemma OpenRowBracketed(c: Calculator, o: Opening, t: TargetPosition)
    requires c.Valid() && AllTradable(c, o.quotes)
    requires t.symbol in o.quotes && o.quotes[t.symbol].close.Some? && o.quotes[t.symbol].close.value > 0.0
    ensures Bracketed(OpenRow(c, o, t))
  {
    hide Money, Times;
    BracketStraddlesEntry(c, o.quotes[t.symbol].close.value, t.side, t.overrideStop, t.overrideTarget);
  }

  lemma PotentialIsMoney(c: Calculator, p: Position, atr: Option<real>, price: real)
    requires price > 0.0
    ensures Money(PotentialStop(c, p, atr, price)) == PotentialStop(c, p, atr, price)
  {
    hide Money, Times;
    var pct := TrailPct(c, p, atr, price);
    MoneyError(Times(price, 1.0 - pct));
    MoneyError(Times(price, 1.0 + pct));
    MoneyFixed(PotentialStop(c, p, atr, price));
  }

  lemma MarkEvolves(c: Calculator, p: Position, atr: Option<real>, price: real)
    requires price > 0.0
    ensures RowEvolves(p, p)
    ensures p.status.OPEN? ==> RowEvolves(p, MarkedAndTrailed(c, p, atr, price))
    ensures MarkedAndTrailed(c, p, atr, price).status == p.status
  {
    hide Money, Times;
    PotentialIsMoney(c, MarkedRow(p, price), atr, price);
  }

  /** The price beats the stop and has not reached the target. */
  predicate Inside(p: Position, price: real) {
    p.stopLoss.Some? && p.takeProfit.Some? &&
    match p.side
    case LONG => p.stopLoss.value < price < p.takeProfit.value
    case SHORT => p.takeProfit.value < price < p.stopLoss.value
  }

  /** A marked row is at neither end of its bracket exactly when the price lies strictly inside it. */
  lemma StaysOpenInsideBracket(c: Calculator, p: Position, atr: Option<real>, price: real)
    requires price > 0.0 && p.status.OPEN? && p.stopLoss.Some? && p.takeProfit.Some?
    ensures var row := MarkedAndTrailed(c, p, atr, price);
            !StopHit(row, price) && !TargetHit(row, price) <==> Inside(row, price)
    ensures Inside(MarkedAndTrailed(c, p, atr, price), price) ==> Bracketed(MarkedAndTrailed(c, p, atr, price))
  {
    hide Money, Times, TrailPct, ZeroIfTiny;
    assert MarkedAndTrailed(c, p, atr, price).takeProfit == p.takeProfit;
  }

  // ---------- stopped out exactly when the stop was breached ----------

  /** The trailing stop has been moved onto the wrong side of the price. */
  predicate Overtakes(c: Calculator, p: Position, atr: Option<real>, price: real)
    requires price > 0.0
  {
    var marked := MarkedRow(p, price);
    var potential := PotentialStop(c, marked, atr, price);
    && MovesStop(c, marked, potential, price)
    && match p.side
       case LONG => potential >= price
       case SHORT => potential <= price
  }

  /** The stop of a marked row is reached when the price had reached the stop as it stood before, or when the stop
      just moved overtook the price; never otherwise. */
  lemma StoppedOutExactly(c: Calculator, p: Position, atr: Option<real>, price: real)
    requires price > 0.0 && p.status.OPEN?
    ensures StopHit(MarkedAndTrailed(c, p, atr, price), price) <==> StopHit(p, price) || Overtakes(c, p, atr, price)
  {
    hide Money, Times, TrailPct, ZeroIfTiny;
    var marked := MarkedRow(p, price);
    assert marked.stopLoss == p.stopLoss && marked.side == p.side;
    PotentialIsMoney(c, marked, atr, price);
  }

  /** A stop that trails by more than half a unit never overtakes the price, so then the old
      stop alone decides. */
  lemma DistantStopNeverOvertakes(c: Calculator, p: Position, atr: Option<real>, price: real)
    requires price > 0.0 && p.status.OPEN?
    requires Times(price, TrailPct(c, MarkedRow(p, price), atr, price)) > 0.5 * UNIT
    ensures !Overtakes(c, p, atr, price)
    ensures StopHit(MarkedAndTrailed(c, p, atr, price), price) <==> StopHit(p, price)
  {
    hide Money, TrailPct, ZeroIfTiny;
    var marked := MarkedRow(p, price);
    var pct := TrailPct(c, marked, atr, price);
    assert Times(price, 1.0 - pct) == price - Times(price, pct);
    assert Times(price, 1.0 + pct) == price + Times(price, pct);
    MoneyError(Times(price, 1.0 - pct));
    MoneyError(Times(price, 1.0 + pct));
    StoppedOutExactly(c, p, atr, price);
  }
}
