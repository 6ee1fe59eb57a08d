/**
 The history the broker writes: one open position per market, and stop-losses of one
 market kept apart by the two cooldowns the opening step consults.
 */
module StopSpacing {
  import opened Ledger
  import opened PositionTable

  const STOP_GAP := 120 * MINUTE
  const WHIPSAW_GAP := 2880 * MINUTE

  predicate SameMarket(p: Position, q: Position) {
    p.exchange == q.exchange && p.symbol == q.symbol
  }

  predicate StoppedOut(p: Position) {
    p.status.CLOSED? && p.status.reason == STOP_LOSS
  }

  predicate Dated(p: Position, now: int) {
    p.openedAt <= now && (p.status.CLOSED? ==> p.openedAt <= p.status.closedAt <= now)
  }

  /** p was over, and out of its stop-loss cooldown, when the later row q of its market opened. */
  predicate Precedes(p: Position, q: Position) {
    && p.status.CLOSED? && p.status.closedAt <= q.openedAt
    && (StoppedOut(p) ==> p.status.closedAt < q.openedAt - STOP_GAP)
  }

  predicate InSequence(rows: Table) {
    forall i, j | 0 <= i < j < |rows| && SameMarket(rows[i], rows[j]) :: Precedes(rows[i], rows[j])
  }

  predicate WhipsawFree(rows: Table) {
    forall i, k, j | 0 <= i < k < j < |rows| && SameMarket(rows[i], rows[k]) && SameMarket(rows[k], rows[j])
                     && StoppedOut(rows[i]) && StoppedOut(rows[k]) ::
      rows[i].status.closedAt < rows[j].openedAt - WHIPSAW_GAP
  }

  /** The invariant of the table at instant `now`. */
  predicate Chronicle(rows: Table, now: int) {
    && (forall i | 0 <= i < |rows| :: Dated(rows[i], now))
    && InSequence(rows)
    && WhipsawFree(rows)
  }

  /** The cooldowns read when the opening step began still describe the table. */
  ghost predicate CooldownsCurrent(o: Opening, rows: Table) {
    && o.stopped == RecentStopLossSymbols(rows, o.exchange, o.now, 120)
    && o.whipsawed == WhipsawSymbols(rows, o.exchange, o.now, 2, 2880)
  }

  // ---------- opening ----------

  lemma OpeningKeepsCooldowns(o: Opening, rows: Table, row: Position)
    requires CooldownsCurrent(o, rows) && row.status.OPEN?
    ensures CooldownsCurrent(o, rows + [row])
  {
    assert forall p :: p in rows + [row] <==> p in rows || p == row;
    assert RecentStopLossSymbols(rows + [row], o.exchange, o.now, 120) == o.stopped;
    var cutoff := o.now - 2880 * MINUTE;
    assert (rows + [row])[..|rows|] == rows;
    assert forall s :: CountStops(rows + [row], o.exchange, s, cutoff) == CountStops(rows, o.exchange, s, cutoff);
    assert WhipsawSymbols(rows + [row], o.exchange, o.now, 2, 2880) == o.whipsawed;
  }

  /** An earlier row of a market that passes the screen is closed and out of cooldown. */
  lemma ScreenedRowPrecedes(o: Opening, rows: Table, i: nat, row: Position)
    requires Chronicle(rows, o.now) && CooldownsCurrent(o, rows)
    requires row.exchange == o.exchange && row.openedAt == o.now
    requires !HasOpen(rows, o.exchange, row.symbol) && row.symbol !in o.stopped
    requires i < |rows| && SameMarket(rows[i], row)
    ensures Precedes(rows[i], row)
  {
    assert rows[i] in rows;
    assert Dated(rows[i], o.now);
    assert !OpenFor(rows[i], o.exchange, row.symbol);
    var p := rows[i];
    assert StoppedSince(p, o.exchange, o.now - 120 * MINUTE)
           ==> p.symbol in RecentStopLossSymbols(rows, o.exchange, o.now, 120);
  }

  lemma TwoStopsAreWhipsaw(rows: Table, exchange: string, now: int, i: nat, k: nat)
    requires i < k < |rows| && rows[i].symbol == rows[k].symbol
    requires StoppedSince(rows[i], exchange, now - 2880 * MINUTE)
    requires StoppedSince(rows[k], exchange, now - 2880 * MINUTE)
    ensures rows[i].symbol in WhipsawSymbols(rows, exchange, now, 2, 2880)
  {
    CountStopsAtLeastTwo(rows, exchange, rows[i].symbol, now - 2880 * MINUTE, i, k);
    assert rows[i] in rows;
  }

  lemma ScreenedRowEndsNoWhipsaw(o: Opening, rows: Table, i: nat, k: nat, row: Position)
    requires Chronicle(rows, o.now) && CooldownsCurrent(o, rows)
    requires row.exchange == o.exchange && row.openedAt == o.now && row.symbol !in o.whipsawed
    requires i < k < |rows| && SameMarket(rows[i], rows[k]) && SameMarket(rows[k], row)
    requires StoppedOut(rows[i]) && StoppedOut(rows[k])
    ensures rows[i].status.closedAt < row.openedAt - WHIPSAW_GAP
  {
    var cutoff := o.now - 2880 * MINUTE;
    assert Precedes(rows[i], rows[k]) && Dated(rows[k], o.now);
    if rows[i].status.closedAt >= cutoff {
      TwoStopsAreWhipsaw(rows, o.exchange, o.now, i, k);
    }
  }

  lemma OpeningKeepsChronicle(o: Opening, rows: Table, row: Position)
    requires Chronicle(rows, o.now) && CooldownsCurrent(o, rows)
    requires row.exchange == o.exchange && row.openedAt == o.now && row.status.OPEN?
    requires !HasOpen(rows, o.exchange, row.symbol)
    requires row.symbol !in o.stopped && row.symbol !in o.whipsawed
    ensures Chronicle(rows + [row], o.now)
  {
    var rows' := rows + [row];
    forall i, j | 0 <= i < j < |rows'| && SameMarket(rows'[i], rows'[j])
      ensures Precedes(rows'[i], rows'[j])
    {
      if j < |rows| { assert Precedes(rows[i], rows[j]); } else { ScreenedRowPrecedes(o, rows, i, row); }
    }
    forall i, k, j | 0 <= i < k < j < |rows'| && SameMarket(rows'[i], rows'[k]) && SameMarket(rows'[k], rows'[j])
                     && StoppedOut(rows'[i]) && StoppedOut(rows'[k])
      ensures rows'[i].status.closedAt < rows'[j].openedAt - WHIPSAW_GAP
    {
      if j == |rows| { ScreenedRowEndsNoWhipsaw(o, rows, i, k, row); }
    }
  }

  // ---------- rewriting an open row ----------

  /** Marking, trailing and settling rewrite the latest row of a market, so no order is disturbed. */
  lemma RewriteKeepsChronicle(rows: Table, id: nat, row: Position, now: int)
    requires Chronicle(rows, now)
    requires id < |rows| && rows[id].status.OPEN?
    requires SameMarket(rows[id], row) && row.openedAt == rows[id].openedAt
    requires row.status.CLOSED? ==> row.status.closedAt == now
    ensures Chronicle(rows[id := row], now)
  {
    var rows' := rows[id := row];
    assert Dated(rows[id], now);
    forall j | id < j < |rows| ensures !SameMarket(rows[id], rows[j]) {
      var p, q := rows[id], rows[j];
      assert SameMarket(p, q) ==> Precedes(p, q);
    }
    forall i, j | 0 <= i < j < |rows'| && SameMarket(rows'[i], rows'[j])
      ensures Precedes(rows'[i], rows'[j])
    {
      assert Precedes(rows[i], rows[j]);
    }
    forall i, k, j | 0 <= i < k < j < |rows'| && SameMarket(rows'[i], rows'[k]) && SameMarket(rows'[k], rows'[j])
                     && StoppedOut(rows'[i]) && StoppedOut(rows'[k])
      ensures rows'[i].status.closedAt < rows'[j].openedAt - WHIPSAW_GAP
    {
      assert Precedes(rows[k], rows[j]);
    }
  }

  lemma LaterIsStillChronicle(rows: Table, now: int, later: int)
    requires Chronicle(rows, now) && now <= later
    ensures Chronicle(rows, later)
  {
    forall i | 0 <= i < |rows| ensures Dated(rows[i], later) { assert Dated(rows[i], now); }
  }

  // ---------- what the invariant says ----------

  lemma OneOpenPerMarket(rows: Table, now: int, i: nat, j: nat)
    requires Chronicle(rows, now)
    requires i < |rows| && j < |rows| && SameMarket(rows[i], rows[j])
    requires rows[i].status.OPEN? && rows[j].status.OPEN?
    ensures i == j
  {
    var p, q := rows[i], rows[j];
    assert i < j ==> Precedes(p, q);
    assert j < i ==> Precedes(q, p);
  }

  /** Two stop-losses of one market are more than 120 minutes apart, three span more than 48 hours. */
  lemma StopsAreSpaced(rows: Table, now: int)
    requires Chronicle(rows, now)
    ensures forall i, j | 0 <= i < j < |rows| && SameMarket(rows[i], rows[j])
                          && StoppedOut(rows[i]) && StoppedOut(rows[j]) ::
              rows[j].status.closedAt - rows[i].status.closedAt > STOP_GAP
    ensures forall i, k, j | 0 <= i < k < j < |rows| && SameMarket(rows[i], rows[k]) && SameMarket(rows[k], rows[j])
                             && StoppedOut(rows[i]) && StoppedOut(rows[k]) && StoppedOut(rows[j]) ::
              rows[j].status.closedAt - rows[i].status.closedAt > WHIPSAW_GAP
  {
    forall i, j | 0 <= i < j < |rows| && SameMarket(rows[i], rows[j]) && StoppedOut(rows[i]) && StoppedOut(rows[j])
      ensures rows[j].status.closedAt - rows[i].status.closedAt > STOP_GAP
    {
      assert Precedes(rows[i], rows[j]) && Dated(rows[j], now);
    }
    forall i, k, j | 0 <= i < k < j < |rows| && SameMarket(rows[i], rows[k]) && SameMarket(rows[k], rows[j])
                     && StoppedOut(rows[i]) && StoppedOut(rows[k]) && StoppedOut(rows[j])
      ensures rows[j].status.closedAt - rows[i].status.closedAt > WHIPSAW_GAP
    {
      assert Dated(rows[j], now);
    }
  }

  /** A rebalancing close is never filed as a stop-loss, whatever the strategy's own words. */
  lemma RebalanceIsNoStopLoss(closeReasons: map<string, string>, symbol: string, feeText: string)
    ensures RebalanceReason(closeReasons, symbol, feeText) != STOP_LOSS
  {
    var reason := RebalanceReason(closeReasons, symbol, feeText);
    assert reason[|reason| - 1] == ')';
    assert STOP_LOSS[|STOP_LOSS| - 1] == 'S';
  }
}
