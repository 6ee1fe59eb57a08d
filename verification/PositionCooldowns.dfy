/**
 How the position cache's cooldowns and profits compare with the database's, for every cooldown length and
 along every run.
 */
module PositionCooldowns {
  import opened Options
  import opened PositionCache
  import opened PositionTable
  import opened Rounding

  // ---------- cooldowns of every length ----------

  lemma ExpiryIsLatest(rows: Table, expiry: map<string, int>, delay: int, stopsOnly: bool, symbol: string, now: int)
    requires ExpiresAfter(rows, expiry, delay, stopsOnly)
    ensures (symbol in expiry && now <= expiry[symbol])
       <==> exists p :: p in rows && Filed(p, symbol, stopsOnly) && p.status.closedAt >= now - delay
  {
  }

  /** The database lists a symbol for as long as it is asked to after its latest stop-loss, or its latest close: the
      instant from which the cache counts its own fixed delay. */
  lemma DatabaseCountsFromLatest(calls: seq<Call>, exchange: string, start: int, now: int, minutes: int, symbol: string)
    requires ProperRun(calls, exchange, start)
    ensures var c, rows := CacheRun(calls), TableRun(calls);
            && (symbol in RecentStopLossSymbols(rows, exchange, now, minutes)
                <==> symbol in c.stopExpiry && now - minutes * MINUTE <= c.stopExpiry[symbol] - STOP_DELAY)
            && (symbol in RecentClosedSymbols(rows, exchange, now, minutes)
                <==> symbol in c.closeExpiry && now - minutes * MINUTE <= c.closeExpiry[symbol] - CLOSE_DELAY)
  {
    RunsMirror(calls, exchange, start);
    hide CacheRun, TableRun, ProperRun, OpenAgree, ExpiresAfter, CountIn, CountStops;
    var c, rows := CacheRun(calls), TableRun(calls);
    var cutoff := now - minutes * MINUTE;
    ExpiryIsLatest(rows, c.stopExpiry, STOP_DELAY, true, symbol, cutoff + STOP_DELAY);
    ExpiryIsLatest(rows, c.closeExpiry, CLOSE_DELAY, false, symbol, cutoff + CLOSE_DELAY);
    assert forall p | p in rows :: p.exchange == exchange;
    forall p | p in rows ensures
      && (Filed(p, symbol, true) && p.status.closedAt >= cutoff <==> p.symbol == symbol && StoppedSince(p, exchange, cutoff))
      && (Filed(p, symbol, false) && p.status.closedAt >= cutoff <==> p.symbol == symbol && ClosedSince(p, exchange, cutoff))
    {
    }
  }

  ghost predicate StopAnswersDiffer(calls: seq<Call>, exchange: string, now: int, minutes: int, symbol: string) {
    (symbol in RecentStopLossSymbols(TableRun(calls), exchange, now, minutes))
    != (symbol in Unexpired(CacheRun(calls).stopExpiry, now))
  }

  ghost predicate CloseAnswersDiffer(calls: seq<Call>, exchange: string, now: int, minutes: int, symbol: string) {
    (symbol in RecentClosedSymbols(TableRun(calls), exchange, now, minutes))
    != (symbol in Unexpired(CacheRun(calls).closeExpiry, now))
  }

  /** The elapsed time lies between the fixed delay and the length asked for, whichever is longer. */
  predicate Between(elapsed: int, delay: int, length: int) {
    delay <= elapsed <= length || length < elapsed < delay
  }

  /** For every length, the two answers differ exactly while the time since the latest stop-loss (or close) lies
      between the cache's own delay and the length asked for. */
  lemma AnswersDifferExactly(calls: seq<Call>, exchange: string, start: int, now: int, minutes: int, symbol: string)
    requires ProperRun(calls, exchange, start)
    ensures var c := CacheRun(calls);
            && (StopAnswersDiffer(calls, exchange, now, minutes, symbol)
                <==> symbol in c.stopExpiry
                     && Between(now - (c.stopExpiry[symbol] - STOP_DELAY), STOP_DELAY, minutes * MINUTE))
            && (CloseAnswersDiffer(calls, exchange, now, minutes, symbol)
                <==> symbol in c.closeExpiry
                     && Between(now - (c.closeExpiry[symbol] - CLOSE_DELAY), CLOSE_DELAY, minutes * MINUTE))
  {
    hide CacheRun, TableRun, ProperRun, RecentStopLossSymbols, RecentClosedSymbols;
    DatabaseCountsFromLatest(calls, exchange, start, now, minutes, symbol);
  }

  /** At its own lengths, 30 and 60 minutes, the cache agrees with the database at every instant, except exactly at
      expiry, where only the database still lists the symbol. */
  lemma CooldownsAgreeButAtExpiry(calls: seq<Call>, exchange: string, start: int, now: int, symbol: string)
    requires ProperRun(calls, exchange, start)
    ensures var c := CacheRun(calls);
            && (StopAnswersDiffer(calls, exchange, now, 30, symbol)
                <==> symbol in c.stopExpiry && now == c.stopExpiry[symbol])
            && (CloseAnswersDiffer(calls, exchange, now, 60, symbol)
                <==> symbol in c.closeExpiry && now == c.closeExpiry[symbol])
  {
    hide CacheRun, TableRun, ProperRun, StopAnswersDiffer, CloseAnswersDiffer;
    AnswersDifferExactly(calls, exchange, start, now, 30, symbol);
    AnswersDifferExactly(calls, exchange, start, now, 60, symbol);
  }

  ghost predicate StopsAgreeButAtExpiry(exchange: string, minutes: int) {
    forall calls, start, now, symbol | ProperRun(calls, exchange, start) && StopAnswersDiffer(calls, exchange, now, minutes, symbol) ::
      symbol in CacheRun(calls).stopExpiry && now == CacheRun(calls).stopExpiry[symbol]
  }

  ghost predicate ClosesAgreeButAtExpiry(exchange: string, minutes: int) {
    forall calls, start, now, symbol | ProperRun(calls, exchange, start) && CloseAnswersDiffer(calls, exchange, now, minutes, symbol) ::
      symbol in CacheRun(calls).closeExpiry && now == CacheRun(calls).closeExpiry[symbol]
  }

  /** One position, opened and stopped out at instant 0. */
  function OneStop(exchange: string): seq<Call> {
    [Create(NewRow(exchange, "S", LONG, 1.0, 1.0, 1.0, 0, None, None)), Close("S", 1.0, 0, STOP_LOSS)]
  }

  lemma OneStopRuns(exchange: string)
    ensures ProperRun(OneStop(exchange), exchange, 0)
    ensures CacheRun(OneStop(exchange)).stopExpiry == map["S" := STOP_DELAY]
    ensures CacheRun(OneStop(exchange)).closeExpiry == map["S" := CLOSE_DELAY]
  {
    var row := NewRow(exchange, "S", LONG, 1.0, 1.0, 1.0, 0, None, None);
    TwoCalls(Create(row), Close("S", 1.0, 0, STOP_LOSS), exchange);
  }

  /** An elapsed time strictly between, or at the end of, two different lengths. */
  function Witness(delay: int, length: int): int {
    if length > delay then length else delay - 1
  }

  /** The cache answers for 30 minutes, whatever it is asked: for every other length there is a run in which the two
      answers differ away from expiry. */
  lemma OnlyThirtyMinutesOfStops(exchange: string, minutes: int)
    ensures StopsAgreeButAtExpiry(exchange, minutes) <==> minutes == 30
  {
    hide CacheRun, TableRun, ProperRun, StopAnswersDiffer, CloseAnswersDiffer;
    if minutes == 30 {
      forall calls, start, now, symbol
        | ProperRun(calls, exchange, start) && StopAnswersDiffer(calls, exchange, now, minutes, symbol)
        ensures symbol in CacheRun(calls).stopExpiry && now == CacheRun(calls).stopExpiry[symbol]
      {
        CooldownsAgreeButAtExpiry(calls, exchange, start, now, symbol);
      }
    } else {
      OneStopRuns(exchange);
      AnswersDifferExactly(OneStop(exchange), exchange, 0, Witness(STOP_DELAY, minutes * MINUTE), minutes, "S");
    }
  }

  /** And for 60 minutes where it is asked for closes. */
  lemma OnlySixtyMinutesOfCloses(exchange: string, minutes: int)
    ensures ClosesAgreeButAtExpiry(exchange, minutes) <==> minutes == 60
  {
    hide CacheRun, TableRun, ProperRun, StopAnswersDiffer, CloseAnswersDiffer;
    if minutes == 60 {
      forall calls, start, now, symbol
        | ProperRun(calls, exchange, start) && CloseAnswersDiffer(calls, exchange, now, minutes, symbol)
        ensures symbol in CacheRun(calls).closeExpiry && now == CacheRun(calls).closeExpiry[symbol]
      {
        CooldownsAgreeButAtExpiry(calls, exchange, start, now, symbol);
      }
    } else {
      OneStopRuns(exchange);
      AnswersDifferExactly(OneStop(exchange), exchange, 0, Witness(CLOSE_DELAY, minutes * MINUTE), minutes, "S");
    }
  }

  lemma TwoCalls(create: Call, close: Call, exchange: string)
    requires create.Create? && create.row.status.OPEN? && create.row.exchange == exchange
    requires close.Close? && close == Close(create.row.symbol, close.exit, 0, close.reason)
    ensures ProperRun([create, close], exchange, 0)
    ensures TableRun([create, close]) == [ClosedRow(create.row, close.exit, 0, close.reason)]
    ensures CacheRun([create, close]) == FileClose(EMPTY.(open := map[create.row.symbol := create.row]),
                                                   create.row.symbol, 0, close.reason)
  {
    hide ClosedRow;
    var both := [create, close];
    assert both[..1] == [create] && |[create][..0]| == 0;
    assert CacheRun([create]) == EMPTY.(open := map[create.row.symbol := create.row]);
    assert TableRun([create]) == [create.row];
    assert ClockRun([create], 0) == 0 && ProperRun([create], exchange, 0);
    assert OpenRowOf([create.row], create.row.symbol) == Some(0);
  }

  // ---------- profits ----------

  /** Both record the same profit to within a unit, for exits in money, and record none together. */
  lemma ProfitsAgree(p: Position, q: Position, exit: real, at: int, reason: string)
    requires SameTerms(p, q) && IsMoney(exit)
    ensures var db, cached := ClosedRow(p, exit, at, reason).realizedPnl, CachedClose(q, exit, at, reason).realizedPnl;
            -UNIT < db - cached < UNIT && (db == 0.0 <==> cached == 0.0)
  {
    hide Money, Times, Gain;
    MoneyFixed(exit);
    var raw := Gain(p.side, p.entryPrice, exit, p.quantity);
    MoneyError(raw);
    MoneySign(raw);
  }

  /** So along every run: whatever closes, the profit that the cache records and the one that the database records for
      the symbol's open row are less than a unit apart. */
  lemma ProfitsAgreeInEveryRun(calls: seq<Call>, exchange: string, start: int, symbol: string, exit: real, at: int, reason: string)
    requires ProperRun(calls, exchange, start) && symbol in CacheRun(calls).open && IsMoney(exit)
    ensures var c, rows := CacheRun(calls), TableRun(calls);
            var id := OpenRowOf(rows, symbol);
            && id.Some? && id.value < |rows|
            && var rows' := TableCall(rows, Close(symbol, exit, at, reason));
               var db, cached := rows'[id.value].realizedPnl, CachedClose(c.open[symbol], exit, at, reason).realizedPnl;
               -UNIT < db - cached < UNIT && (db == 0.0 <==> cached == 0.0)
  {
    hide CacheRun, TableRun, ProperRun, ExpiresAfter, CountIn, CountStops, ClosedRow, CachedClose;
    RunsMirror(calls, exchange, start);
    var c, rows := CacheRun(calls), TableRun(calls);
    OpenRowFound(rows, symbol);
    ProfitsAgree(rows[OpenRowOf(rows, symbol).value], c.open[symbol], exit, at, reason);
  }

  /** Marked at one price in money, an open position shows the same mark in both, unrealized profits less than a unit
      apart, and the same stop once one in money is set. */
  lemma MarksAgree(p: Position, q: Position, price: real, stop: real)
    requires SameTerms(p, q) && IsMoney(price) && IsMoney(stop)
    ensures var db, cached := MarkedRow(p, price), CachedMark(q, price);
            && db.currentPrice == cached.currentPrice == price
            && -UNIT < db.unrealizedPnl - cached.unrealizedPnl < UNIT
            && (db.unrealizedPnl == 0.0 <==> cached.unrealizedPnl == 0.0)
            && (db.unrealizedPnl != 0.0 ==> -UNIT < db.notional - cached.notional < UNIT)
            && StoppedRow(p, stop).stopLoss == CachedStop(q, stop).stopLoss == Some(stop)
  {
    hide Money, Times, Gain;
    MoneyFixed(price);
    MoneyFixed(stop);
    var raw := Gain(p.side, p.entryPrice, price, p.quantity);
    MoneyError(raw);
    MoneySign(raw);
    MoneyError(Times(p.quantity, price));
  }
}
