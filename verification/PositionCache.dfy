/**
 The in-memory position repository of the backtest, against the position table it replaces:
 dictionaries of open positions and of cooldown expiries, and a list of stop-losses.
 */
module PositionCache {
  import opened Options
  import opened PositionTable
  import opened Rounding

  const STOP_DELAY := 30 * MINUTE
  const CLOSE_DELAY := 60 * MINUTE

  datatype Cache = Cache(
    open: map<string, Position>,
    stopExpiry: map<string, int>,
    closeExpiry: map<string, int>,
    stops: seq<(string, int)>)

  const EMPTY := Cache(map[], map[], map[], [])

  // ---------- what the cache makes of each call ----------

  function CachedMark(p: Position, price: real): Position {
    var raw := Gain(p.side, p.entryPrice, price, p.quantity);
    p.(unrealizedPnl := if -UNIT < raw < UNIT then 0.0 else raw,
       currentPrice := price,
       notional := Times(p.quantity, price))
  }

  function CachedStop(p: Position, stop: real): Position {
    p.(stopLoss := Some(stop))
  }

  function CachedClose(p: Position, exit: real, at: int, reason: string): Position {
    var raw := Gain(p.side, p.entryPrice, exit, p.quantity);
    p.(realizedPnl := if -UNIT < raw < UNIT then 0.0 else raw,
       unrealizedPnl := 0.0,
       currentPrice := exit,
       status := CLOSED(at, reason))
  }

  function FileClose(c: Cache, symbol: string, at: int, reason: string): Cache {
    Cache(c.open - {symbol},
          if reason == STOP_LOSS then c.stopExpiry[symbol := at + STOP_DELAY] else c.stopExpiry,
          c.closeExpiry[symbol := at + CLOSE_DELAY],
          if reason == STOP_LOSS then c.stops + [(symbol, at)] else c.stops)
  }

  // ---------- queries of the cache ----------

  function Unexpired(expiry: map<string, int>, now: int): set<string> {
    set symbol | symbol in expiry && now < expiry[symbol]
  }

  function CountIn(stops: seq<(string, int)>, symbol: string, cutoff: int): nat {
    if |stops| == 0 then 0
    else
      var last := stops[|stops| - 1];
      CountIn(stops[..|stops| - 1], symbol, cutoff) + if last.0 == symbol && last.1 >= cutoff then 1 else 0
  }

  predicate IsWhipsaw(stops: seq<(string, int)>, symbol: string, cutoff: int, minStops: int) {
    CountIn(stops, symbol, cutoff) > 0 && CountIn(stops, symbol, cutoff) >= minStops
  }

  // ---------- the repository object ----------

  class InMemoryPositionRepository {
    var open: map<string, Position>
    var slCooldowns: map<string, int>
    var globalCooldowns: map<string, int>
    var slHistory: seq<(string, int)>

    ghost function View(): Cache
      reads this
    {
      Cache(open, slCooldowns, globalCooldowns, slHistory)
    }

    constructor ()
      ensures View() == EMPTY
    {
      open, slCooldowns, globalCooldowns, slHistory := map[], map[], map[], [];
    }

    method CreateOpenPosition(row: Position)
      modifies this
      ensures View() == old(View()).(open := old(open)[row.symbol := row])
    {
      open := open[row.symbol := row];
    }

    method UpdateMarkPrice(symbol: string, price: real)
      requires symbol in open
      modifies this`open
      ensures open == old(open)[symbol := CachedMark(old(open)[symbol], price)]
    {
      var p := open[symbol];
      var raw := Gain(p.side, p.entryPrice, price, p.quantity);
      p := p.(unrealizedPnl := if raw >= UNIT || raw <= -UNIT then raw else 0.0);
      p := p.(currentPrice := price);
      open := open[symbol := p.(notional := Times(open[symbol].quantity, price))];
    }

    method UpdateStopLoss(symbol: string, stop: real)
      requires symbol in open
      modifies this`open
      ensures open == old(open)[symbol := CachedStop(old(open)[symbol], stop)]
    {
      open := open[symbol := open[symbol].(stopLoss := Some(stop))];
    }

    method ClosePosition(symbol: string, exit: real, closedAt: int, reason: string) returns (closed: Position)
      requires symbol in open
      modifies this
      ensures View() == FileClose(old(View()), symbol, closedAt, reason)
      ensures closed == CachedClose(old(open)[symbol], exit, closedAt, reason)
    {
      var p := open[symbol];
      var raw := Gain(p.side, p.entryPrice, exit, p.quantity);
      p := p.(realizedPnl := if raw >= UNIT || raw <= -UNIT then raw else 0.0);
      p := p.(unrealizedPnl := 0.0, currentPrice := exit);
      closed := p.(status := CLOSED(closedAt, reason));
      open := open - {symbol};
      if reason == STOP_LOSS {
        slCooldowns := slCooldowns[symbol := closedAt + 30 * MINUTE];
        slHistory := slHistory + [(symbol, closedAt)];
      }
      globalCooldowns := globalCooldowns[symbol := closedAt + 60 * MINUTE];
    }

    method GetOpenPositionSymbols() returns (symbols: set<string>)
      ensures symbols == open.Keys
    {
      symbols := open.Keys;
    }

    /** The cooldown length asked for is ignored. */
    method GetRecentStopLossSymbols(now: int, cooldownMinutes: int) returns (symbols: set<string>)
      ensures symbols == Unexpired(slCooldowns, now)
    {
      symbols := set symbol | symbol in slCooldowns && now < slCooldowns[symbol];
    }

    method GetRecentClosedSymbols(now: int, cooldownMinutes: int) returns (symbols: set<string>)
      ensures symbols == Unexpired(globalCooldowns, now)
    {
      symbols := set symbol | symbol in globalCooldowns && now < globalCooldowns[symbol];
    }

    method GetWhipsawCooldownSymbols(now: int, minStops: int, cooldownMinutes: int) returns (symbols: set<string>)
      ensures forall symbol :: symbol in symbols <==>
                IsWhipsaw(slHistory, symbol, now - cooldownMinutes * MINUTE, minStops)
    {
      var cutoff := now - cooldownMinutes * MINUTE;
      var counts: map<string, int> := map[];
      for i := 0 to |slHistory|
        invariant forall symbol :: symbol in counts <==> CountIn(slHistory[..i], symbol, cutoff) > 0
        invariant forall symbol | symbol in counts :: counts[symbol] == CountIn(slHistory[..i], symbol, cutoff)
      {
        assert slHistory[..i + 1][..i] == slHistory[..i];
        var (symbol, at) := slHistory[i];
        if at >= cutoff {
          counts := counts[symbol := (if symbol in counts then counts[symbol] else 0) + 1];
        }
      }
      assert slHistory[..|slHistory|] == slHistory;
      symbols := set symbol | symbol in counts && counts[symbol] >= minStops;
    }
  }

  // ---------- the table it stands for ----------

  /** A row that a closing query of `symbol` finds; stop-losses only, if asked. */
  predicate Filed(p: Position, symbol: string, stopsOnly: bool) {
    p.symbol == symbol && p.status.CLOSED? && (stopsOnly ==> p.status.reason == STOP_LOSS)
  }

  /** Every symbol with a filed row has an expiry, the delay after its latest one. */
  ghost predicate ExpiresAfter(rows: Table, expiry: map<string, int>, delay: int, stopsOnly: bool) {
    && (forall p, symbol | p in rows && Filed(p, symbol, stopsOnly) ::
          symbol in expiry && p.status.closedAt + delay <= expiry[symbol])
    && (forall symbol | symbol in expiry ::
          exists p :: p in rows && Filed(p, symbol, stopsOnly) && p.status.closedAt + delay == expiry[symbol])
  }

  /** The open positions, one per symbol, agree on everything profit depends on. */
  predicate SameTerms(p: Position, q: Position) {
    p.symbol == q.symbol && p.side == q.side && p.quantity == q.quantity && p.entryPrice == q.entryPrice
    && p.openedAt == q.openedAt
  }

  ghost predicate OpenAgree(rows: Table, open: map<string, Position>) {
    && (forall i | 0 <= i < |rows| && rows[i].status.OPEN? ::
          rows[i].symbol in open && SameTerms(rows[i], open[rows[i].symbol]))
    && (forall symbol | symbol in open :: exists i :: 0 <= i < |rows| && rows[i].status.OPEN? && rows[i].symbol == symbol)
    && (forall i, j | 0 <= i < j < |rows| && rows[i].status.OPEN? && rows[j].status.OPEN? :: rows[i].symbol != rows[j].symbol)
  }

  ghost predicate Mirrors(c: Cache, rows: Table, exchange: string, clock: int) {
    && (forall i | 0 <= i < |rows| :: rows[i].exchange == exchange)
    && (forall i | 0 <= i < |rows| && rows[i].status.CLOSED? :: rows[i].status.closedAt <= clock)
    && OpenAgree(rows, c.open)
    && ExpiresAfter(rows, c.stopExpiry, STOP_DELAY, true)
    && ExpiresAfter(rows, c.closeExpiry, CLOSE_DELAY, false)
    && forall symbol, cutoff :: CountIn(c.stops, symbol, cutoff) == CountStops(rows, exchange, symbol, cutoff)
  }

  // ---------- runs of the two side by side ----------

  datatype Call =
    | Create(row: Position)
    | Mark(symbol: string, price: real)
    | MoveStop(symbol: string, stop: real)
    | Close(symbol: string, exit: real, at: int, reason: string)

  function CacheCall(c: Cache, call: Call): Cache {
    match call
    case Create(row) => c.(open := c.open[row.symbol := row])
    case Mark(symbol, price) =>
      if symbol in c.open then c.(open := c.open[symbol := CachedMark(c.open[symbol], price)]) else c
    case MoveStop(symbol, stop) =>
      if symbol in c.open then c.(open := c.open[symbol := CachedStop(c.open[symbol], stop)]) else c
    case Close(symbol, _, at, reason) =>
      if symbol in c.open then FileClose(c, symbol, at, reason) else c
  }

  /** The open row of a symbol; callers hold the position object, so they name this row. */
  function OpenRowOf(rows: Table, symbol: string): Option<nat> {
    if |rows| == 0 then None
    else if rows[|rows| - 1].status.OPEN? && rows[|rows| - 1].symbol == symbol then Some(|rows| - 1)
    else OpenRowOf(rows[..|rows| - 1], symbol)
  }

  lemma {:induction false} OpenRowFound(rows: Table, symbol: string)
    ensures match OpenRowOf(rows, symbol)
            case None => forall i | 0 <= i < |rows| && rows[i].status.OPEN? :: rows[i].symbol != symbol
            case Some(id) => id < |rows| && rows[id].status.OPEN? && rows[id].symbol == symbol
  {
    if |rows| > 0 {
      var init := rows[..|rows| - 1];
      OpenRowFound(init, symbol);
      assert forall i | 0 <= i < |init| :: init[i] == rows[i];
    }
  }

  function TableCall(rows: Table, call: Call): Table {
    if call.Create? then rows + [call.row]
    else
      var id := OpenRowOf(rows, call.symbol);
      OpenRowFound(rows, call.symbol);
      if id.None? then rows
      else match call
        case Mark(_, price) => rows[id.value := MarkedRow(rows[id.value], price)]
        case MoveStop(_, stop) => rows[id.value := StoppedRow(rows[id.value], stop)]
        case Close(_, exit, at, reason) => rows[id.value := ClosedRow(rows[id.value], exit, at, reason)]
  }

  /** What the callers keep to: a symbol is opened only when it is not open, and time moves forward. */
  predicate Proper(c: Cache, call: Call, exchange: string, clock: int) {
    match call
    case Create(row) => row.exchange == exchange && row.status.OPEN? && row.symbol !in c.open
    case Mark(symbol, _) => symbol in c.open
    case MoveStop(symbol, _) => symbol in c.open
    case Close(symbol, _, at, _) => symbol in c.open && clock <= at
  }

  function ClockAfter(call: Call, clock: int): int {
    if call.Close? then call.at else clock
  }

  // ---------- the mirror is kept ----------

  lemma InitiallyMirrors(exchange: string, clock: int)
    ensures Mirrors(EMPTY, [], exchange, clock)
  {
  }

  lemma {:induction false} CountStopsRewrite(rows: Table, exchange: string, symbol: string, cutoff: int, id: nat, row: Position)
    requires id < |rows| && rows[id].status.OPEN?
    ensures CountStops(rows[id := row], exchange, symbol, cutoff)
         == CountStops(rows, exchange, symbol, cutoff)
            + if StoppedSince(row, exchange, cutoff) && row.symbol == symbol then 1 else 0
  {
    var n := |rows| - 1;
    if id < n {
      assert rows[id := row][..n] == rows[..n][id := row];
      CountStopsRewrite(rows[..n], exchange, symbol, cutoff, id, row);
    } else {
      assert rows[id := row][..n] == rows[..n];
    }
  }

  /** Rewriting an open row by another open row files nothing. */
  lemma OpenRewriteKeepsExpiry(rows: Table, id: nat, row: Position, expiry: map<string, int>, delay: int, stopsOnly: bool)
    requires id < |rows| && rows[id].status.OPEN? && row.status.OPEN?
    requires ExpiresAfter(rows, expiry, delay, stopsOnly)
    ensures ExpiresAfter(rows[id := row], expiry, delay, stopsOnly)
  {
    var rows' := rows[id := row];
    forall p, symbol | p in rows' && Filed(p, symbol, stopsOnly)
      ensures symbol in expiry && p.status.closedAt + delay <= expiry[symbol]
    {
      assert p in rows;
    }
    forall symbol | symbol in expiry
      ensures exists p :: p in rows' && Filed(p, symbol, stopsOnly) && p.status.closedAt + delay == expiry[symbol]
    {
      var p :| p in rows && Filed(p, symbol, stopsOnly) && p.status.closedAt + delay == expiry[symbol];
      ClosedRowStays(rows, id, row, p);
    }
  }

  lemma ClosedRowStays(rows: Table, id: nat, row: Position, p: Position)
    requires id < |rows| && rows[id].status.OPEN? && p in rows && p.status.CLOSED?
    ensures p in rows[id := row]
  {
    var i :| 0 <= i < |rows| && rows[i] == p;
    assert rows[id := row][i] == p;
  }

  lemma NewRowKeepsOpenAgree(rows: Table, open: map<string, Position>, row: Position)
    requires OpenAgree(rows, open) && row.status.OPEN? && row.symbol !in open
    ensures OpenAgree(rows + [row], open[row.symbol := row])
  {
    var rows', open' := rows + [row], open[row.symbol := row];
    forall symbol | symbol in open'
      ensures exists i :: 0 <= i < |rows'| && rows'[i].status.OPEN? && rows'[i].symbol == symbol
    {
      if symbol == row.symbol {
        assert rows'[|rows|] == row;
      } else {
        var i :| 0 <= i < |rows| && rows[i].status.OPEN? && rows[i].symbol == symbol;
        assert rows'[i] == rows[i];
      }
    }
  }

  lemma NewRowKeepsExpiry(rows: Table, row: Position, expiry: map<string, int>, delay: int, stopsOnly: bool)
    requires ExpiresAfter(rows, expiry, delay, stopsOnly) && row.status.OPEN?
    ensures ExpiresAfter(rows + [row], expiry, delay, stopsOnly)
  {
    assert forall p :: p in rows + [row] <==> p in rows || p == row;
  }

  lemma CreateKeepsMirror(c: Cache, rows: Table, row: Position, exchange: string, clock: int)
    requires Mirrors(c, rows, exchange, clock) && Proper(c, Create(row), exchange, clock)
    ensures Mirrors(CacheCall(c, Create(row)), rows + [row], exchange, clock)
  {
    hide OpenAgree, ExpiresAfter;
    assert (rows + [row])[..|rows|] == rows;
    NewRowKeepsOpenAgree(rows, c.open, row);
    NewRowKeepsExpiry(rows, row, c.stopExpiry, STOP_DELAY, true);
    NewRowKeepsExpiry(rows, row, c.closeExpiry, CLOSE_DELAY, false);
  }

  lemma RewriteKeepsOpenAgree(rows: Table, open: map<string, Position>, id: nat, row: Position, cached: Position)
    requires id < |rows| && rows[id].status.OPEN? && row.status.OPEN?
    requires OpenAgree(rows, open) && SameTerms(row, cached) && row.symbol == rows[id].symbol
    ensures OpenAgree(rows[id := row], open[row.symbol := cached])
  {
    var rows', open' := rows[id := row], open[row.symbol := cached];
    forall symbol | symbol in open'
      ensures exists i :: 0 <= i < |rows'| && rows'[i].status.OPEN? && rows'[i].symbol == symbol
    {
      var i :| 0 <= i < |rows| && rows[i].status.OPEN? && rows[i].symbol == symbol;
      assert rows'[i].symbol == symbol;
    }
    forall i, j | 0 <= i < j < |rows'| && rows'[i].status.OPEN? && rows'[j].status.OPEN?
      ensures rows'[i].symbol != rows'[j].symbol
    {
      assert rows[i].symbol == rows'[i].symbol && rows[j].symbol == rows'[j].symbol;
    }
  }

  lemma CloseKeepsOpenAgree(rows: Table, open: map<string, Position>, id: nat, row: Position)
    requires id < |rows| && rows[id].status.OPEN? && row.status.CLOSED? && row.symbol == rows[id].symbol
    requires OpenAgree(rows, open)
    ensures OpenAgree(rows[id := row], open - {row.symbol})
  {
    var rows', open' := rows[id := row], open - {row.symbol};
    forall symbol | symbol in open'
      ensures exists i :: 0 <= i < |rows'| && rows'[i].status.OPEN? && rows'[i].symbol == symbol
    {
      var i :| 0 <= i < |rows| && rows[i].status.OPEN? && rows[i].symbol == symbol;
      assert rows'[i] == rows[i];
    }
    forall i | 0 <= i < |rows'| && rows'[i].status.OPEN?
      ensures rows'[i].symbol in open' && SameTerms(rows'[i], open'[rows'[i].symbol])
    {
      assert rows'[i] == rows[i];
      assert i != id;
      assert rows[i].symbol != rows[id].symbol by {
        assert i < id ==> rows[i].symbol != rows[id].symbol;
        assert id < i ==> rows[id].symbol != rows[i].symbol;
      }
    }
  }

  /** Closing at the latest instant so far restarts the symbol's delay. */
  lemma CloseKeepsExpiry(rows: Table, id: nat, row: Position, expiry: map<string, int>, delay: int, stopsOnly: bool)
    requires id < |rows| && rows[id].status.OPEN? && row.status.CLOSED?
    requires forall i | 0 <= i < |rows| && rows[i].status.CLOSED? :: rows[i].status.closedAt <= row.status.closedAt
    requires ExpiresAfter(rows, expiry, delay, stopsOnly)
    ensures ExpiresAfter(rows[id := row],
                         if stopsOnly && row.status.reason != STOP_LOSS then expiry
                         else expiry[row.symbol := row.status.closedAt + delay], delay, stopsOnly)
  {
    var rows' := rows[id := row];
    var filed := Filed(row, row.symbol, stopsOnly);
    var expiry' := if filed then expiry[row.symbol := row.status.closedAt + delay] else expiry;
    assert rows'[id] == row;
    forall p, symbol | p in rows' && Filed(p, symbol, stopsOnly)
      ensures symbol in expiry' && p.status.closedAt + delay <= expiry'[symbol]
    {
      var i :| 0 <= i < |rows'| && rows'[i] == p;
      if i != id { assert rows[i] == p && p in rows; }
    }
    forall symbol | symbol in expiry'
      ensures exists p :: p in rows' && Filed(p, symbol, stopsOnly) && p.status.closedAt + delay == expiry'[symbol]
    {
      if filed && symbol == row.symbol {
        assert row in rows';
      } else {
        var p :| p in rows && Filed(p, symbol, stopsOnly) && p.status.closedAt + delay == expiry[symbol];
        ClosedRowStays(rows, id, row, p);
      }
    }
  }

  lemma CountInAppend(stops: seq<(string, int)>, symbol: string, at: int, s: string, cutoff: int)
    ensures CountIn(stops + [(symbol, at)], s, cutoff)
         == CountIn(stops, s, cutoff) + if symbol == s && at >= cutoff then 1 else 0
  {
    assert (stops + [(symbol, at)])[..|stops|] == stops;
  }

  lemma CloseKeepsMirror(c: Cache, rows: Table, call: Call, exchange: string, clock: int, id: nat)
    requires Mirrors(c, rows, exchange, clock) && Proper(c, call, exchange, clock) && call.Close?
    requires id < |rows| && rows[id].status.OPEN? && rows[id].symbol == call.symbol
    ensures Mirrors(CacheCall(c, call), rows[id := ClosedRow(rows[id], call.exit, call.at, call.reason)], exchange, call.at)
  {
    hide Gain, Money, ZeroIfTiny, Times, OpenAgree, ExpiresAfter;
    var row := ClosedRow(rows[id], call.exit, call.at, call.reason);
    var c' := CacheCall(c, call);
    CloseKeepsOpenAgree(rows, c.open, id, row);
    CloseKeepsExpiry(rows, id, row, c.stopExpiry, STOP_DELAY, true);
    CloseKeepsExpiry(rows, id, row, c.closeExpiry, CLOSE_DELAY, false);
    forall s, cutoff
      ensures CountIn(c'.stops, s, cutoff) == CountStops(rows[id := row], exchange, s, cutoff)
    {
      CountStopsRewrite(rows, exchange, s, cutoff, id, row);
      CountInAppend(c.stops, call.symbol, call.at, s, cutoff);
    }
  }

  lemma RemarkKeepsMirror(c: Cache, rows: Table, exchange: string, clock: int, id: nat, row: Position, cached: Position)
    requires Mirrors(c, rows, exchange, clock)
    requires id < |rows| && rows[id].status.OPEN? && row.status.OPEN? && row.exchange == exchange
    requires row.symbol == rows[id].symbol && SameTerms(row, cached)
    ensures Mirrors(c.(open := c.open[row.symbol := cached]), rows[id := row], exchange, clock)
  {
    hide OpenAgree, ExpiresAfter;
    RewriteKeepsOpenAgree(rows, c.open, id, row, cached);
    OpenRewriteKeepsExpiry(rows, id, row, c.stopExpiry, STOP_DELAY, true);
    OpenRewriteKeepsExpiry(rows, id, row, c.closeExpiry, CLOSE_DELAY, false);
    forall s, cutoff ensures CountIn(c.stops, s, cutoff) == CountStops(rows[id := row], exchange, s, cutoff) {
      CountStopsRewrite(rows, exchange, s, cutoff, id, row);
    }
  }

  /** Every call of a proper run keeps cache and table in step. */
  lemma CallKeepsMirror(c: Cache, rows: Table, call: Call, exchange: string, clock: int)
    requires Mirrors(c, rows, exchange, clock) && Proper(c, call, exchange, clock)
    ensures Mirrors(CacheCall(c, call), TableCall(rows, call), exchange, ClockAfter(call, clock))
  {
    hide Gain, Money, ZeroIfTiny, Times, ExpiresAfter;
    if call.Create? {
      CreateKeepsMirror(c, rows, call.row, exchange, clock);
    } else {
      OpenRowFound(rows, call.symbol);
      var id := OpenRowOf(rows, call.symbol).value;
      match call {
        case Mark(symbol, price) =>
          RemarkKeepsMirror(c, rows, exchange, clock, id, MarkedRow(rows[id], price), CachedMark(c.open[symbol], price));
        case MoveStop(symbol, stop) =>
          RemarkKeepsMirror(c, rows, exchange, clock, id, StoppedRow(rows[id], stop), CachedStop(c.open[symbol], stop));
        case Close(symbol, exit, at, reason) =>
          CloseKeepsMirror(c, rows, call, exchange, clock, id);
      }
    }
  }

  function CacheRun(calls: seq<Call>): Cache {
    if |calls| == 0 then EMPTY else CacheCall(CacheRun(calls[..|calls| - 1]), calls[|calls| - 1])
  }

  function TableRun(calls: seq<Call>): Table {
    if |calls| == 0 then [] else TableCall(TableRun(calls[..|calls| - 1]), calls[|calls| - 1])
  }

  function ClockRun(calls: seq<Call>, start: int): int {
    if |calls| == 0 then start else ClockAfter(calls[|calls| - 1], ClockRun(calls[..|calls| - 1], start))
  }

  predicate ProperRun(calls: seq<Call>, exchange: string, start: int) {
    |calls| > 0 ==>
      var init := calls[..|calls| - 1];
      ProperRun(init, exchange, start)
      && Proper(CacheRun(init), calls[|calls| - 1], exchange, ClockRun(init, start))
  }

  lemma {:induction false} RunsMirror(calls: seq<Call>, exchange: string, start: int)
    requires ProperRun(calls, exchange, start)
    ensures Mirrors(CacheRun(calls), TableRun(calls), exchange, ClockRun(calls, start))
  {
    hide Mirrors, Proper, CacheCall, TableCall;
    if |calls| == 0 {
      InitiallyMirrors(exchange, start);
    } else {
      var init := calls[..|calls| - 1];
      RunsMirror(init, exchange, start);
      CallKeepsMirror(CacheRun(init), TableRun(init), calls[|calls| - 1], exchange, ClockRun(init, start));
    }
  }

  // ---------- what the mirror shows ----------

  lemma SameOpen(c: Cache, rows: Table, exchange: string, symbol: string)
    requires OpenAgree(rows, c.open) && forall i | 0 <= i < |rows| :: rows[i].exchange == exchange
    ensures symbol in c.open <==> symbol in OpenSymbols(rows, exchange)
  {
    if symbol in c.open {
      var i :| 0 <= i < |rows| && rows[i].status.OPEN? && rows[i].symbol == symbol;
      assert rows[i] in rows;
    }
  }

  lemma MirrorsCounts(c: Cache, rows: Table, exchange: string, clock: int, symbol: string, cutoff: int)
    requires Mirrors(c, rows, exchange, clock)
    ensures CountIn(c.stops, symbol, cutoff) == CountStops(rows, exchange, symbol, cutoff)
  {
  }

  lemma SameWhipsaw(stops: seq<(string, int)>, rows: Table, exchange: string, symbol: string, now: int, minStops: int,
                    minutes: int)
    requires CountIn(stops, symbol, now - minutes * MINUTE) == CountStops(rows, exchange, symbol, now - minutes * MINUTE)
    ensures IsWhipsaw(stops, symbol, now - minutes * MINUTE, minStops)
       <==> symbol in WhipsawSymbols(rows, exchange, now, minStops, minutes)
  {
    hide CountIn, CountStops, StoppedSince;
    CountedRowExists(rows, exchange, symbol, now - minutes * MINUTE);
  }

  /** Same open symbols, and the same whipsaw symbols for every window and every count. */
  lemma SameOpenAndWhipsaw(calls: seq<Call>, exchange: string, start: int, now: int, minStops: int, minutes: int)
    requires ProperRun(calls, exchange, start)
    ensures CacheRun(calls).open.Keys == OpenSymbols(TableRun(calls), exchange)
    ensures forall symbol :: IsWhipsaw(CacheRun(calls).stops, symbol, now - minutes * MINUTE, minStops)
              <==> symbol in WhipsawSymbols(TableRun(calls), exchange, now, minStops, minutes)
  {
    RunsMirror(calls, exchange, start);
    var c, rows := CacheRun(calls), TableRun(calls);
    forall symbol ensures symbol in c.open <==> symbol in OpenSymbols(rows, exchange) {
      hide OpenAgree, ExpiresAfter, CacheRun, TableRun, ProperRun;
      SameOpen(c, rows, exchange, symbol);
    }
    hide *;
    forall symbol ensures IsWhipsaw(c.stops, symbol, now - minutes * MINUTE, minStops)
                     <==> symbol in WhipsawSymbols(rows, exchange, now, minStops, minutes) {
      MirrorsCounts(c, rows, exchange, ClockRun(calls, start), symbol, now - minutes * MINUTE);
      SameWhipsaw(c.stops, rows, exchange, symbol, now, minStops, minutes);
    }
  }

  lemma {:induction false} CountedRowExists(rows: Table, exchange: string, symbol: string, cutoff: int)
    ensures CountStops(rows, exchange, symbol, cutoff) > 0
       <==> exists p :: p in rows && StoppedSince(p, exchange, cutoff) && p.symbol == symbol
  {
    if |rows| > 0 {
      var init, last := rows[..|rows| - 1], rows[|rows| - 1];
      CountedRowExists(init, exchange, symbol, cutoff);
      assert forall p :: p in rows <==> p in init || p == last;
    }
  }
}
