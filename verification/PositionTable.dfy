/**
 The position table of one paper account, and the queries the broker asks of it.
 Rows are kept in insertion order, which is `opened_at` order because the clock
 never runs backwards.
 */
module PositionTable {
  import opened Options
  import opened Rounding

  // Time is in microseconds, the resolution of a Python datetime.
  const MINUTE := 60_000_000

  const STOP_LOSS := "STOP_LOSS"
  const TAKE_PROFIT := "TAKE_PROFIT"

  type PositiveReal = r: real | r > 0.0 witness 1.0

  datatype Side = LONG | SHORT

  datatype Status = OPEN | CLOSED(closedAt: int, reason: string)

  datatype Position = Position(
    exchange: string,
    symbol: string,
    side: Side,
    status: Status,
    quantity: real,
    entryPrice: PositiveReal,
    currentPrice: real,
    notional: real,
    unrealizedPnl: real,
    realizedPnl: real,
    stopLoss: Option<real>,
    takeProfit: Option<real>,
    openedAt: int)

  type Table = seq<Position>

  // ---------- what one row becomes ----------

  /** Profit of holding `quantity` while the price goes from `entry` to `now`. */
  function Gain(side: Side, entry: real, now: real, quantity: real): real {
    match side
    case LONG => Times(now - entry, quantity)
    case SHORT => Times(entry - now, quantity)
  }

  function ZeroIfTiny(x: real): real {
    if -UNIT < x < UNIT then 0.0 else Money(x)
  }

  function NewRow(exchange: string, symbol: string, side: Side, quantity: real, entryPrice: PositiveReal,
                  notional: real, openedAt: int, stopLoss: Option<real>, takeProfit: Option<real>): Position {
    Position(exchange, symbol, side, OPEN, quantity, entryPrice, entryPrice, notional, 0.0, 0.0,
             stopLoss, takeProfit, openedAt)
  }

  function MarkedRow(p: Position, price: real): Position {
    var mark := Money(price);
    var pnl := ZeroIfTiny(Gain(p.side, p.entryPrice, mark, p.quantity));
    p.(currentPrice := mark,
       unrealizedPnl := pnl,
       notional := if pnl == 0.0 then Money(p.notional) else Money(Times(p.quantity, mark)))
  }

  function StoppedRow(p: Position, stop: real): Position {
    p.(stopLoss := Some(Money(stop)))
  }

  function ClosedRow(p: Position, exitPrice: real, closedAt: int, reason: string): Position {
    var exit := Money(exitPrice);
    var pnl := ZeroIfTiny(Gain(p.side, p.entryPrice, exit, p.quantity));
    p.(currentPrice := exit,
       realizedPnl := pnl,
       unrealizedPnl := 0.0,
       notional := if pnl == 0.0 then Money(p.notional) else Money(Times(p.quantity, exit)),
       status := CLOSED(closedAt, reason))
  }

  lemma ZeroIfTinyError(x: real)
    ensures -UNIT < ZeroIfTiny(x) - x < UNIT
    ensures IsMoney(ZeroIfTiny(x))
  {
    MoneyError(x);
    ZeroIsMoney();
  }

  // ---------- queries ----------

  predicate OpenFor(p: Position, exchange: string, symbol: string) {
    p.exchange == exchange && p.symbol == symbol && p.status.OPEN?
  }

  predicate HasOpen(rows: Table, exchange: string, symbol: string) {
    exists p | p in rows :: OpenFor(p, exchange, symbol)
  }

  predicate ClosedSince(p: Position, exchange: string, cutoff: int) {
    p.exchange == exchange && p.status.CLOSED? && p.status.closedAt >= cutoff
  }

  predicate StoppedSince(p: Position, exchange: string, cutoff: int) {
    ClosedSince(p, exchange, cutoff) && p.status.reason == STOP_LOSS
  }

  function OpenSymbols(rows: Table, exchange: string): set<string> {
    set p | p in rows && p.exchange == exchange && p.status.OPEN? :: p.symbol
  }

  function RecentStopLossSymbols(rows: Table, exchange: string, now: int, minutes: int): set<string> {
    set p | p in rows && StoppedSince(p, exchange, now - minutes * MINUTE) :: p.symbol
  }

  function RecentClosedSymbols(rows: Table, exchange: string, now: int, minutes: int): set<string> {
    set p | p in rows && ClosedSince(p, exchange, now - minutes * MINUTE) :: p.symbol
  }

  /** How many stop-losses of `symbol` the table holds since `cutoff`. */
  function CountStops(rows: Table, exchange: string, symbol: string, cutoff: int): nat {
    if |rows| == 0 then 0
    else
      var last := rows[|rows| - 1];
      CountStops(rows[..|rows| - 1], exchange, symbol, cutoff)
      + if StoppedSince(last, exchange, cutoff) && last.symbol == symbol then 1 else 0
  }

  function WhipsawSymbols(rows: Table, exchange: string, now: int, minStops: int, minutes: int): set<string> {
    var cutoff := now - minutes * MINUTE;
    set p | p in rows && StoppedSince(p, exchange, cutoff)
            && CountStops(rows, exchange, p.symbol, cutoff) >= minStops :: p.symbol
  }

  lemma {:induction false} CountStopsAtLeastTwo(rows: Table, exchange: string, symbol: string, cutoff: int, i: nat, j: nat)
    requires i < j < |rows|
    requires StoppedSince(rows[i], exchange, cutoff) && rows[i].symbol == symbol
    requires StoppedSince(rows[j], exchange, cutoff) && rows[j].symbol == symbol
    ensures CountStops(rows, exchange, symbol, cutoff) >= 2
  {
    var n := |rows| - 1;
    if j < n {
      CountStopsAtLeastTwo(rows[..n], exchange, symbol, cutoff, i, j);
    } else {
      CountStopsPositive(rows[..n], exchange, symbol, cutoff, i);
    }
  }

  lemma {:induction false} CountStopsPositive(rows: Table, exchange: string, symbol: string, cutoff: int, i: nat)
    requires i < |rows|
    requires StoppedSince(rows[i], exchange, cutoff) && rows[i].symbol == symbol
    ensures CountStops(rows, exchange, symbol, cutoff) >= 1
  {
    var n := |rows| - 1;
    if i < n {
      CountStopsPositive(rows[..n], exchange, symbol, cutoff, i);
    }
  }

  // ---------- sums over the open rows ----------

  function SumOpen(rows: Table, f: Position -> real): real {
    if |rows| == 0 then 0.0
    else
      var last := rows[|rows| - 1];
      SumOpen(rows[..|rows| - 1], f) + if last.status.OPEN? then f(last) else 0.0
  }

  lemma SumOpenAppend(rows: Table, p: Position, f: Position -> real)
    ensures SumOpen(rows + [p], f) == SumOpen(rows, f) + if p.status.OPEN? then f(p) else 0.0
  {
    assert (rows + [p])[..|rows|] == rows;
  }

  lemma {:induction false} SumOpenUpdate(rows: Table, i: nat, p: Position, f: Position -> real)
    requires i < |rows|
    ensures SumOpen(rows[i := p], f) == SumOpen(rows, f)
              - (if rows[i].status.OPEN? then f(rows[i]) else 0.0)
              + (if p.status.OPEN? then f(p) else 0.0)
  {
    var n := |rows| - 1;
    if i < n {
      assert rows[i := p][..n] == rows[..n][i := p];
      SumOpenUpdate(rows[..n], i, p, f);
    } else {
      assert rows[i := p][..n] == rows[..n];
    }
  }

  function CountOpen(rows: Table): nat {
    if |rows| == 0 then 0
    else CountOpen(rows[..|rows| - 1]) + if rows[|rows| - 1].status.OPEN? then 1 else 0
  }

  /** Row functions that differ by at most one unit give sums that differ by at most one unit per open row. */
  lemma {:induction false} SumOpenClose(rows: Table, f: Position -> real, g: Position -> real)
    requires forall p | p in rows && p.status.OPEN? :: -UNIT <= f(p) - g(p) <= UNIT
    ensures -UNIT * CountOpen(rows) as real <= SumOpen(rows, f) - SumOpen(rows, g) <= UNIT * CountOpen(rows) as real
  {
    if |rows| > 0 {
      var init := rows[..|rows| - 1];
      var last := rows[|rows| - 1];
      assert forall p | p in init :: p in rows;
      assert last in rows;
      SumOpenClose(init, f, g);
    }
  }

  // ---------- the repository object ----------

  class PositionRepository {
    var rows: Table

    constructor ()
      ensures rows == []
    {
      rows := [];
    }

    method CreateOpenPosition(row: Position) returns (id: nat)
      requires row.status.OPEN?
      modifies this
      ensures id == |old(rows)|
      ensures rows == old(rows) + [row]
    {
      id := |rows|;
      rows := rows + [row];
    }

    method UpdateMarkPrice(id: nat, price: real)
      requires id < |rows|
      modifies this
      ensures rows == old(rows)[id := MarkedRow(old(rows)[id], price)]
    {
      var row := rows[id];
      var mark := Money(price);
      var pnl := ZeroIfTiny(Gain(row.side, row.entryPrice, mark, row.quantity));
      rows := rows[id := row.(currentPrice := mark, unrealizedPnl := pnl)];
      if pnl == 0.0 {
        rows := rows[id := rows[id].(notional := Money(row.notional))];
      } else {
        rows := rows[id := rows[id].(notional := Money(Times(row.quantity, mark)))];
      }
    }

    method UpdateStopLoss(id: nat, stop: real)
      requires id < |rows|
      modifies this
      ensures rows == old(rows)[id := StoppedRow(old(rows)[id], stop)]
    {
      rows := rows[id := rows[id].(stopLoss := Some(Money(stop)))];
    }

    method ClosePosition(id: nat, exitPrice: real, closedAt: int, reason: string)
      requires id < |rows|
      modifies this
      ensures rows == old(rows)[id := ClosedRow(old(rows)[id], exitPrice, closedAt, reason)]
    {
      var row := rows[id];
      var exit := Money(exitPrice);
      var pnl := ZeroIfTiny(Gain(row.side, row.entryPrice, exit, row.quantity));
      rows := rows[id := row.(currentPrice := exit, realizedPnl := pnl, unrealizedPnl := 0.0)];
      if pnl == 0.0 {
        rows := rows[id := rows[id].(notional := Money(row.notional))];
      } else {
        rows := rows[id := rows[id].(notional := Money(Times(row.quantity, exit)))];
      }
      rows := rows[id := rows[id].(status := CLOSED(closedAt, reason))];
    }
  }
}
