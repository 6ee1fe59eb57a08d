/**
 The single-symbol backtest engine: a balance, the open positions in insertion order, and a trade log.
 Amounts are floats in the program and reals here; nothing is rounded.
 */
module BacktestEngine {
  import opened Bounds
  import opened Options
  import opened Rounding
  import opened PositionTable
  import opened Decisions
  import opened Sums
  import Analytics

  datatype Params = Params(initialBalance: real, feeRate: real, slippage: real)

  datatype Holding = Holding(symbol: string, side: Side, entryPrice: real, quantity: real, openFee: real)

  datatype Fill =
    | Open(time: int, symbol: string, side: Side, price: real, quantity: real, fee: real, reason: string)
    | Close(time: int, symbol: string, side: Side, price: real, quantity: real, fee: real, reason: string, pnl: real)

  /** The engine's whole state. */
  datatype Sim = Sim(balance: real, book: seq<Holding>, trades: seq<Fill>)

  /** One feature snapshot; a missing close is 0. */
  datatype Bar = Bar(time: int, close: real, atr: Option<real>)

  const WINDOW := 5
  const TRADE_SHARE := 0.1

  // ---------- one decision ----------

  predicate HasAtr(bar: Bar) {
    bar.atr.Some? && bar.atr.value > 0.0 && bar.close > 0.0
  }

  function StopPct(bar: Bar): real {
    if HasAtr(bar) then Max(0.005, Min(0.05, bar.atr.value / bar.close * 1.5)) else 0.01
  }

  function ProfitPct(bar: Bar): real {
    if HasAtr(bar) then Max(0.01, Min(0.1, StopPct(bar) * 2.0)) else 0.02
  }

  /** Relative gain of a holding at the given price. */
  function GainPct(h: Holding, price: real): real
    requires h.entryPrice != 0.0
  {
    if h.side == LONG then (price - h.entryPrice) / h.entryPrice else (h.entryPrice - price) / h.entryPrice
  }

  predicate Opposes(action: Action, side: Side) {
    if side == LONG then action == CONSIDER_SHORT else action == CONSIDER_LONG
  }

  function ExitReason(h: Holding, action: Action, bar: Bar): Option<string>
    requires h.entryPrice != 0.0
  {
    if GainPct(h, bar.close) >= ProfitPct(bar) then Some("Take Profit")
    else if GainPct(h, bar.close) <= -StopPct(bar) then Some("Stop Loss")
    else if Opposes(action, h.side) then Some("Strategy Reversal")
    else None
  }

  /** Slippage works against the trader: up when buying, down when selling. */
  function Slipped(p: Params, price: real, buying: bool): real {
    if buying then Times(price, 1.0 + p.slippage) else Times(price, 1.0 - p.slippage)
  }

  function EntrySide(action: Action): Side {
    if action == CONSIDER_LONG then LONG else SHORT
  }

  function EntryPrice(p: Params, action: Action, price: real): real {
    Slipped(p, price, EntrySide(action) == LONG)
  }

  predicate Holds(book: seq<Holding>, symbol: string) {
    exists i | 0 <= i < |book| :: book[i].symbol == symbol
  }

  function IndexOf(book: seq<Holding>, symbol: string): (i: nat)
    requires Holds(book, symbol)
    ensures i < |book| && book[i].symbol == symbol
  {
    var n := |book| - 1;
    if book[n].symbol == symbol then n else IndexOf(book[..n], symbol)
  }

  function Without<T>(s: seq<T>, i: nat): seq<T>
    requires i < |s|
  {
    s[..i] + s[i + 1..]
  }

  predicate Priced(book: seq<Holding>) {
    forall i | 0 <= i < |book| :: book[i].entryPrice != 0.0
  }

  function Opened(p: Params, s: Sim, d: TradingDecision, bar: Bar): (after: Sim)
    requires EntryPrice(p, d.action, bar.close) != 0.0
    ensures Priced(s.book) ==> Priced(after.book)
  {
    var side := EntrySide(d.action);
    var amount := Times(s.balance, TRADE_SHARE);
    var price := EntryPrice(p, d.action, bar.close);
    var quantity := amount / price;
    var fee := Times(amount, p.feeRate);
    Sim(s.balance - (amount + fee),
        s.book + [Holding(d.symbol, side, price, quantity, fee)],
        s.trades + [Open(bar.time, d.symbol, side, price, quantity, fee, d.reason)])
  }

  function ClosingFill(p: Params, h: Holding, bar: Bar, reason: string): Fill {
    var price := Slipped(p, bar.close, h.side == SHORT);
    var entryNotional, exitNotional := Times(h.quantity, h.entryPrice), Times(h.quantity, price);
    var fee := Times(exitNotional, p.feeRate);
    var pnl := if h.side == LONG then exitNotional - fee - entryNotional - h.openFee
               else entryNotional - exitNotional - fee - h.openFee;
    Close(bar.time, h.symbol, h.side, price, h.quantity, fee, reason, pnl)
  }

  function Closed(p: Params, s: Sim, symbol: string, bar: Bar, reason: string): (after: Sim)
    requires Holds(s.book, symbol)
    ensures Priced(s.book) ==> Priced(after.book)
  {
    var i := IndexOf(s.book, symbol);
    var h := s.book[i];
    var fill := ClosingFill(p, h, bar, reason);
    var proceeds := if h.side == LONG then Times(h.quantity, fill.price) - fill.fee
                    else Times(h.quantity, h.entryPrice) + fill.pnl;
    Sim(s.balance + proceeds, Without(s.book, i), s.trades + [fill])
  }

  function AfterExit(p: Params, s: Sim, d: TradingDecision, bar: Bar): (after: Sim)
    requires Priced(s.book)
    ensures Priced(after.book)
  {
    if Holds(s.book, d.symbol) then
      var reason := ExitReason(s.book[IndexOf(s.book, d.symbol)], d.action, bar);
      if reason.Some? then Closed(p, s, d.symbol, bar, reason.value) else s
    else s
  }

  predicate WouldOpen(s: Sim, d: TradingDecision) {
    !Holds(s.book, d.symbol) && IsEntry(d.action)
  }

  /** Opening at an execution price of zero divides by zero. */
  predicate DividesByZero(p: Params, s: Sim, d: TradingDecision, bar: Bar)
    requires Priced(s.book)
  {
    WouldOpen(AfterExit(p, s, d, bar), d) && EntryPrice(p, d.action, bar.close) == 0.0
  }

  function Processed(p: Params, s: Sim, d: TradingDecision, bar: Bar): (after: Sim)
    requires Priced(s.book)
    ensures Priced(after.book)
  {
    var exited := AfterExit(p, s, d, bar);
    if WouldOpen(exited, d) && !DividesByZero(p, s, d, bar) then Opened(p, exited, d, bar) else exited
  }

  // ---------- what the trade log says ----------

  /** The holding that the log leaves open in a symbol. */
  function Outstanding(trades: seq<Fill>, symbol: string): Option<Holding> {
    if |trades| == 0 then None
    else
      var last := trades[|trades| - 1];
      if last.symbol != symbol then Outstanding(trades[..|trades| - 1], symbol) else LeftBy(last)
  }

  function LeftBy(t: Fill): Option<Holding> {
    if t.Open? then Some(Holding(t.symbol, t.side, t.price, t.quantity, t.fee)) else None
  }

  /** The log before a fill admits it: an opening finds nothing open; a closing ends what is open, for the
      profit of the price move less both fees. */
  predicate Fits(open: Option<Holding>, t: Fill) {
    match t
    case Open(_, _, _, _, _, _, _) => open.None?
    case Close(_, _, side, price, quantity, fee, _, pnl) =>
      && open.Some?
      && side == open.value.side && quantity == open.value.quantity
      && pnl == Gain(side, open.value.entryPrice, price, quantity) - open.value.openFee - fee
  }

  predicate Paired(trades: seq<Fill>) {
    |trades| == 0 ||
    (var n := |trades| - 1;
     Paired(trades[..n]) && Fits(Outstanding(trades[..n], trades[n].symbol), trades[n]))
  }

  function Realized(trades: seq<Fill>): real {
    if |trades| == 0 then 0.0
    else
      var last := trades[|trades| - 1];
      Realized(trades[..|trades| - 1]) + if last.Close? then last.pnl else 0.0
  }

  /** Opening fees of the shorts that the log closes. */
  function ShortFees(trades: seq<Fill>): real {
    if |trades| == 0 then 0.0
    else ShortFees(trades[..|trades| - 1]) + ShortFee(trades[..|trades| - 1], trades[|trades| - 1])
  }

  function ShortFee(before: seq<Fill>, t: Fill): real {
    var open := Outstanding(before, t.symbol);
    if t.Close? && t.side == SHORT && open.Some? then open.value.openFee else 0.0
  }

  function Stake(h: Holding): real {
    Times(h.quantity, h.entryPrice) + h.openFee
  }

  function Invested(book: seq<Holding>): real {
    if |book| == 0 then 0.0 else Invested(book[..|book| - 1]) + Stake(book[|book| - 1])
  }

  /** The book is what the log leaves open. */
  ghost predicate BookMatches(book: seq<Holding>, trades: seq<Fill>) {
    && (forall i | 0 <= i < |book| :: Outstanding(trades, book[i].symbol) == Some(book[i]))
    && (forall i, j | 0 <= i < j < |book| :: book[i].symbol != book[j].symbol)
    && (forall symbol :: Outstanding(trades, symbol).Some? ==> Holds(book, symbol))
  }

  /** Money in the balance and in open positions is the initial balance and all realized profit, less the
      opening fees of closed shorts, which the engine charges a second time. */
  ghost predicate Balanced(p: Params, s: Sim) {
    s.balance + Invested(s.book) == p.initialBalance + Realized(s.trades) - ShortFees(s.trades)
  }

  ghost predicate Sound(p: Params, s: Sim) {
    && Priced(s.book)
    && BookMatches(s.book, s.trades)
    && Paired(s.trades)
    && Balanced(p, s)
  }

  // ---------- every step keeps the state sound ----------

  lemma InvestedAppend(book: seq<Holding>, h: Holding)
    ensures Invested(book + [h]) == Invested(book) + Stake(h)
  {
    assert (book + [h])[..|book|] == book;
  }

  lemma {:induction false} InvestedWithout(book: seq<Holding>, i: nat)
    requires i < |book|
    ensures Invested(book) == Invested(Without(book, i)) + Stake(book[i])
  {
    var n := |book| - 1;
    if i == n {
      assert Without(book, i) == book[..n];
    } else {
      InvestedWithout(book[..n], i);
      assert Without(book, i) == Without(book[..n], i) + [book[n]];
      InvestedAppend(Without(book[..n], i), book[n]);
    }
  }

  lemma LogAppend(trades: seq<Fill>, t: Fill)
    ensures forall symbol :: Outstanding(trades + [t], symbol)
                             == if symbol == t.symbol then LeftBy(t) else Outstanding(trades, symbol)
    ensures Paired(trades + [t]) <==> Paired(trades) && Fits(Outstanding(trades, t.symbol), t)
    ensures Realized(trades + [t]) == Realized(trades) + if t.Close? then t.pnl else 0.0
    ensures ShortFees(trades + [t]) == ShortFees(trades) + ShortFee(trades, t)
  {
    assert (trades + [t])[..|trades|] == trades;
  }

  lemma NotHeldMeansNothingOutstanding(book: seq<Holding>, trades: seq<Fill>, symbol: string)
    requires BookMatches(book, trades)
    ensures Holds(book, symbol) <==> Outstanding(trades, symbol).Some?
  {
  }

  lemma BookAfterOpen(book: seq<Holding>, trades: seq<Fill>, t: Fill)
    requires BookMatches(book, trades) && t.Open? && !Holds(book, t.symbol)
    ensures BookMatches(book + [LeftBy(t).value], trades + [t])
  {
    LogAppend(trades, t);
    var h := LeftBy(t).value;
    forall symbol | Outstanding(trades + [t], symbol).Some? ensures Holds(book + [h], symbol) {
      if symbol == t.symbol {
        assert (book + [h])[|book|].symbol == symbol;
      } else {
        var i := IndexOf(book, symbol);
        assert (book + [h])[i].symbol == symbol;
      }
    }
  }

  lemma WithoutAt<T>(s: seq<T>, i: nat, k: nat)
    requires i < |s| && k < |s| - 1
    ensures Without(s, i)[k] == if k < i then s[k] else s[k + 1]
  {
  }

  lemma BookAfterClose(book: seq<Holding>, trades: seq<Fill>, i: nat, t: Fill)
    requires BookMatches(book, trades) && t.Close? && i < |book| && book[i].symbol == t.symbol
    ensures BookMatches(Without(book, i), trades + [t])
  {
    hide Outstanding, Paired, Realized, ShortFees, Fits, ShortFee;
    LogAppend(trades, t);
    var rest := Without(book, i);
    forall k | 0 <= k < |rest| ensures rest[k] == (if k < i then book[k] else book[k + 1]) && rest[k].symbol != t.symbol {
      WithoutAt(book, i, k);
    }
    forall symbol | Outstanding(trades + [t], symbol).Some? ensures Holds(rest, symbol) {
      StillHeld(book, i, symbol);
    }
  }

  lemma StillHeld(book: seq<Holding>, i: nat, symbol: string)
    requires i < |book| && book[i].symbol != symbol && Holds(book, symbol)
    ensures Holds(Without(book, i), symbol)
  {
    var j := IndexOf(book, symbol);
    assert Without(book, i)[if j < i then j else j - 1].symbol == symbol;
  }

  lemma BuyingPower(amount: real, price: real)
    requires price != 0.0
    ensures Times(amount / price, price) == amount
  {
  }

  lemma OpenKeepsSound(p: Params, s: Sim, d: TradingDecision, bar: Bar)
    requires Sound(p, s) && WouldOpen(s, d) && EntryPrice(p, d.action, bar.close) != 0.0
    ensures Sound(p, Opened(p, s, d, bar))
  {
    hide Times, BookMatches, Paired, EntryPrice;
    var after := Opened(p, s, d, bar);
    var t := after.trades[|s.trades|];
    NotHeldMeansNothingOutstanding(s.book, s.trades, d.symbol);
    LogAppend(s.trades, t);
    BookAfterOpen(s.book, s.trades, t);
    InvestedAppend(s.book, LeftBy(t).value);
    BuyingPower(Times(s.balance, TRADE_SHARE), EntryPrice(p, d.action, bar.close));
  }

  lemma GainSplits(side: Side, entry: real, exit: real, quantity: real)
    ensures Gain(side, entry, exit, quantity)
            == if side == LONG then Times(quantity, exit) - Times(quantity, entry)
               else Times(quantity, entry) - Times(quantity, exit)
  {
  }

  lemma CloseKeepsSound(p: Params, s: Sim, symbol: string, bar: Bar, reason: string)
    requires Sound(p, s) && Holds(s.book, symbol)
    ensures Sound(p, Closed(p, s, symbol, bar, reason))
  {
    var i := IndexOf(s.book, symbol);
    var h := s.book[i];
    assert Outstanding(s.trades, symbol) == Some(h);
    hide Times, BookMatches, Paired, Gain, Slipped, IndexOf;
    var t := ClosingFill(p, h, bar, reason);
    LogAppend(s.trades, t);
    BookAfterClose(s.book, s.trades, i, t);
    InvestedWithout(s.book, i);
    GainSplits(h.side, h.entryPrice, t.price, h.quantity);
  }

  lemma ProcessKeepsSound(p: Params, s: Sim, d: TradingDecision, bar: Bar)
    requires Sound(p, s)
    ensures Sound(p, AfterExit(p, s, d, bar)) && Sound(p, Processed(p, s, d, bar))
  {
    hide BookMatches, Paired, Balanced, Opened, Closed, ExitReason;
    if Holds(s.book, d.symbol) {
      var reason := ExitReason(s.book[IndexOf(s.book, d.symbol)], d.action, bar);
      if reason.Some? { CloseKeepsSound(p, s, d.symbol, bar, reason.value); }
    }
    var exited := AfterExit(p, s, d, bar);
    if WouldOpen(exited, d) && !DividesByZero(p, s, d, bar) { OpenKeepsSound(p, exited, d, bar); }
  }

  // ---------- what one decision does ----------

  /** The target is always twice as far as the stop, and the stop between 0.5% and 5%. */
  lemma BracketIsTwoToOne(bar: Bar)
    ensures ProfitPct(bar) == 2.0 * StopPct(bar)
    ensures 0.005 <= StopPct(bar) <= 0.05
  {
  }

  /** An entry signal leaves the symbol held on the side it asks for: an opposite position is always closed
      first, for one reason or another.  Any other signal opens nothing. */
  lemma SignalIsFollowed(p: Params, s: Sim, d: TradingDecision, bar: Bar)
    requires Sound(p, s) && !DividesByZero(p, s, d, bar)
    ensures var held := Outstanding(Processed(p, s, d, bar).trades, d.symbol);
            && (IsEntry(d.action) ==> held.Some? && held.value.side == EntrySide(d.action))
            && (!IsEntry(d.action) ==> held == Outstanding(s.trades, d.symbol) || held.None?)
  {
    ProcessKeepsSound(p, s, d, bar);
    hide Paired, Balanced, ClosingFill, GainPct, ProfitPct, StopPct;
    var exited := AfterExit(p, s, d, bar);
    NotHeldMeansNothingOutstanding(s.book, s.trades, d.symbol);
    NotHeldMeansNothingOutstanding(exited.book, exited.trades, d.symbol);
    if WouldOpen(exited, d) {
      LogAppend(exited.trades, Opened(p, exited, d, bar).trades[|exited.trades|]);
    }
  }

  /** A decision adds at most a closing and an opening, in that order, both of its own symbol. */
  lemma DecisionTradesItsSymbol(p: Params, s: Sim, d: TradingDecision, bar: Bar)
    requires Priced(s.book)
    ensures var after := Processed(p, s, d, bar).trades;
            && |s.trades| <= |after| <= |s.trades| + 2
            && after[..|s.trades|] == s.trades
            && (forall k | |s.trades| <= k < |after| :: after[k].symbol == d.symbol)
            && (|after| == |s.trades| + 2 ==> after[|s.trades|].Close? && after[|s.trades| + 1].Open?)
  {
    hide ExitReason, DividesByZero, Times, Slipped;
  }

  // ---------- reading the log ----------

  predicate Consecutive(trades: seq<Fill>, i: nat, j: nat) {
    i < j < |trades| && trades[i].symbol == trades[j].symbol
    && forall k | i < k < j :: trades[k].symbol != trades[i].symbol
  }

  lemma {:induction false} PairedPrefix(trades: seq<Fill>, n: nat)
    requires Paired(trades) && n <= |trades|
    ensures Paired(trades[..n])
  {
    if n == |trades| {
      assert trades[..n] == trades;
    } else {
      PairedPrefix(trades[..|trades| - 1], n);
      assert trades[..|trades| - 1][..n] == trades[..n];
    }
  }

  lemma {:induction false} OutstandingIsLeftByLast(trades: seq<Fill>, i: nat)
    requires i < |trades| && forall k | i < k < |trades| :: trades[k].symbol != trades[i].symbol
    ensures Outstanding(trades, trades[i].symbol) == LeftBy(trades[i])
  {
    if i < |trades| - 1 { OutstandingIsLeftByLast(trades[..|trades| - 1], i); }
  }

  lemma {:induction false} NothingOutstanding(trades: seq<Fill>, symbol: string)
    requires forall k | 0 <= k < |trades| :: trades[k].symbol != symbol
    ensures Outstanding(trades, symbol).None?
  {
    if |trades| > 0 { NothingOutstanding(trades[..|trades| - 1], symbol); }
  }

  lemma FillFits(trades: seq<Fill>, j: nat)
    requires Paired(trades) && j < |trades|
    ensures Fits(Outstanding(trades[..j], trades[j].symbol), trades[j])
  {
    PairedPrefix(trades, j + 1);
    assert trades[..j + 1][..j] == trades[..j];
  }

  /** In a symbol, openings and closings alternate, beginning with an opening; a closing has the side and
      quantity of the opening before it, and realizes the price move less the two fees. */
  lemma TradesAlternate(trades: seq<Fill>, i: nat, j: nat)
    requires Paired(trades) && Consecutive(trades, i, j)
    ensures trades[i].Open? <==> trades[j].Close?
    ensures trades[j].Close? ==>
              && trades[j].side == trades[i].side && trades[j].quantity == trades[i].quantity
              && trades[j].pnl == Gain(trades[j].side, trades[i].price, trades[j].price, trades[j].quantity)
                                  - trades[i].fee - trades[j].fee
  {
    hide Gain;
    FillFits(trades, j);
    OutstandingIsLeftByLast(trades[..j], i);
  }

  lemma FirstTradeOpens(trades: seq<Fill>, j: nat)
    requires Paired(trades) && j < |trades| && forall k | 0 <= k < j :: trades[k].symbol != trades[j].symbol
    ensures trades[j].Open?
  {
    FillFits(trades, j);
    NothingOutstanding(trades[..j], trades[j].symbol);
  }

  // ---------- a whole run ----------

  type Strategy = seq<Bar> -> Option<TradingDecision>

  function Tail(bars: seq<Bar>): seq<Bar>
    requires |bars| >= WINDOW
  {
    bars[|bars| - WINDOW..]
  }

  /** The state after the strategy has seen all bars; None once an opening has divided by zero. */
  function Replay(p: Params, strategy: Strategy, bars: seq<Bar>, s: Sim): (after: Option<Sim>)
    requires Priced(s.book)
    ensures after.Some? ==> Priced(after.value.book)
  {
    if |bars| == 0 then Some(s)
    else
      var before := Replay(p, strategy, bars[..|bars| - 1], s);
      if before.None? then None else Reacted(p, strategy, bars, before.value)
  }

  /** The strategy sees the last five bars, once there are five. */
  function Reacted(p: Params, strategy: Strategy, bars: seq<Bar>, s: Sim): (after: Option<Sim>)
    requires Priced(s.book) && |bars| > 0
    ensures after.Some? ==> Priced(after.value.book)
  {
    var bar := bars[|bars| - 1];
    if |bars| < WINDOW then Some(s)
    else
      var d := strategy(Tail(bars));
      if d.None? then Some(s)
      else if DividesByZero(p, s, d.value, bar) then None
      else Some(Processed(p, s, d.value, bar))
  }

  function Finished(p: Params, s: Sim, symbol: string, bars: seq<Bar>): Sim {
    if Holds(s.book, symbol) && |bars| > 0 then Closed(p, s, symbol, bars[|bars| - 1], "End of Backtest") else s
  }

  function Ran(p: Params, strategy: Strategy, symbol: string, bars: seq<Bar>, s: Sim): Option<Sim>
    requires Priced(s.book)
  {
    var after := Replay(p, strategy, bars, s);
    if after.None? then None else Some(Finished(p, after.value, symbol, bars))
  }

  lemma {:induction false} ReplayKeepsSound(p: Params, strategy: Strategy, bars: seq<Bar>, s: Sim)
    requires Sound(p, s)
    ensures var after := Replay(p, strategy, bars, s); after.Some? ==> Sound(p, after.value)
  {
    hide BookMatches, Paired, Balanced, Processed, DividesByZero, Tail;
    if |bars| > 0 {
      var before := Replay(p, strategy, bars[..|bars| - 1], s);
      ReplayKeepsSound(p, strategy, bars[..|bars| - 1], s);
      if before.Some? && |bars| >= WINDOW {
        var d := strategy(Tail(bars));
        if d.Some? { ProcessKeepsSound(p, before.value, d.value, bars[|bars| - 1]); }
      }
    }
  }

  /** The balance law, the pairing of trades and the match of book and log hold after every run that starts
      from a sound state, and after every prefix of it. */
  lemma RunKeepsSound(p: Params, strategy: Strategy, symbol: string, bars: seq<Bar>, s: Sim)
    requires Sound(p, s)
    ensures var after := Ran(p, strategy, symbol, bars, s); after.Some? ==> Sound(p, after.value)
  {
    ReplayKeepsSound(p, strategy, bars, s);
    var after := Replay(p, strategy, bars, s);
    if after.Some? && Holds(after.value.book, symbol) && |bars| > 0 {
      CloseKeepsSound(p, after.value, symbol, bars[|bars| - 1], "End of Backtest");
    }
  }

  function Fresh(p: Params): Sim {
    Sim(p.initialBalance, [], [])
  }

  lemma FreshIsSound(p: Params)
    ensures Sound(p, Fresh(p))
  {
  }

  predicate OnlyTrades(trades: seq<Fill>, symbol: string) {
    forall i | 0 <= i < |trades| :: trades[i].symbol == symbol
  }

  predicate OnlyHolds(book: seq<Holding>, symbol: string) {
    forall i | 0 <= i < |book| :: book[i].symbol == symbol
  }

  ghost predicate DecidesFor(strategy: Strategy, symbol: string) {
    forall window :: strategy(window).Some? ==> strategy(window).value.symbol == symbol
  }

  lemma {:induction false} ReplayTradesOne(p: Params, strategy: Strategy, symbol: string, bars: seq<Bar>)
    requires DecidesFor(strategy, symbol)
    ensures var after := Replay(p, strategy, bars, Fresh(p)); after.Some? ==> OnlyTrades(after.value.trades, symbol)
  {
    if |bars| > 0 {
      var before := Replay(p, strategy, bars[..|bars| - 1], Fresh(p));
      ReplayTradesOne(p, strategy, symbol, bars[..|bars| - 1]);
      if before.Some? && |bars| >= WINDOW {
        var d := strategy(Tail(bars));
        if d.Some? { DecisionTradesItsSymbol(p, before.value, d.value, bars[|bars| - 1]); }
      }
    }
  }

  /** After a run of one symbol on a fresh engine nothing stays open, and the balance is the initial one plus
      all realized profit less the opening fees of the shorts. */
  lemma FreshRun(p: Params, strategy: Strategy, symbol: string, bars: seq<Bar>)
    requires DecidesFor(strategy, symbol) && Ran(p, strategy, symbol, bars, Fresh(p)).Some?
    ensures var end := Ran(p, strategy, symbol, bars, Fresh(p)).value;
            && Sound(p, end) && OnlyTrades(end.trades, symbol)
            && end.book == []
            && end.balance == p.initialBalance + Realized(end.trades) - ShortFees(end.trades)
  {
    FreshIsSound(p);
    ReplayKeepsSound(p, strategy, bars, Fresh(p));
    RunKeepsSound(p, strategy, symbol, bars, Fresh(p));
    ReplayTradesOne(p, strategy, symbol, bars);
    var last := Replay(p, strategy, bars, Fresh(p)).value;
    BookHoldsOne(last.book, last.trades, symbol);
  }

  lemma BookHoldsOne(book: seq<Holding>, trades: seq<Fill>, symbol: string)
    requires BookMatches(book, trades) && OnlyTrades(trades, symbol)
    ensures |book| <= 1 && OnlyHolds(book, symbol)
  {
    TwoSymbols(book, symbol);
    forall i | 0 <= i < |book| ensures book[i].symbol == symbol {
      if book[i].symbol != symbol { NothingOutstanding(trades, book[i].symbol); }
    }
  }

  lemma TwoSymbols(book: seq<Holding>, symbol: string)
    requires forall i, j | 0 <= i < j < |book| :: book[i].symbol != book[j].symbol
    ensures |book| > 1 ==> !OnlyHolds(book, symbol)
  {
    if |book| > 1 { assert book[0].symbol != book[1].symbol; }
  }

  // ---------- the report ----------

  datatype Report = Report(finalBalance: real, totalPnl: real, pnlPct: real, totalTrades: nat, winRate: real,
                           maxDrawdownPct: real)

  /** Profits of the closings of one symbol, in order. */
  function Pnls(trades: seq<Fill>, symbol: string): seq<real> {
    if |trades| == 0 then []
    else
      var last := trades[|trades| - 1];
      Pnls(trades[..|trades| - 1], symbol) + if last.Close? && last.symbol == symbol then [last.pnl] else []
  }

  lemma {:induction false} PnlsOfOne(trades: seq<Fill>, symbol: string)
    requires OnlyTrades(trades, symbol)
    ensures Total(Pnls(trades, symbol)) == Realized(trades)
  {
    if |trades| > 0 {
      var init, last := trades[..|trades| - 1], trades[|trades| - 1];
      PnlsOfOne(init, symbol);
      TotalAppend(Pnls(init, symbol), if last.Close? then last.pnl else 0.0);
      assert last.Open? ==> Pnls(trades, symbol) == Pnls(init, symbol);
    }
  }

  function Cycles(pnls: seq<real>): seq<Analytics.Cycle> {
    seq(|pnls|, i requires 0 <= i < |pnls| => Analytics.Cycle(None, Some(pnls[i])))
  }

  /** The initial balance and the equity after every closing. */
  function EquityPath(pnls: seq<real>, initialBalance: real): (path: seq<real>)
    ensures |path| == |pnls| + 1
  {
    Analytics.EquityPath(Cycles(pnls), initialBalance)
  }

  lemma {:induction false} LongOnlyPaysFeesOnce(trades: seq<Fill>)
    requires forall i | 0 <= i < |trades| && trades[i].Close? :: trades[i].side == LONG
    ensures ShortFees(trades) == 0.0
  {
    if |trades| > 0 { LongOnlyPaysFeesOnce(trades[..|trades| - 1]); }
  }

  /** A report says what the closings of the symbol say. */
  ghost predicate ReportsOn(p: Params, r: Report, trades: seq<Fill>, symbol: string) {
    var pnls := Pnls(trades, symbol);
    && r.totalPnl == Total(pnls)
    && r.finalBalance == p.initialBalance + r.totalPnl
    && (p.initialBalance != 0.0 ==> r.pnlPct == Times(r.totalPnl / p.initialBalance, 100.0))
    && r.totalTrades == |pnls|
    && r.winRate == Times(Analytics.WinRate(pnls), 100.0)
    && r.maxDrawdownPct == Times(Analytics.Pass(EquityPath(pnls, p.initialBalance)).1, 100.0)
  }

  class BacktestEngine {
    const p: Params
    var balance: real
    var positions: seq<Holding>
    var trades: seq<Fill>

    constructor (p: Params)
      ensures this.p == p && State() == Fresh(p)
    {
      this.p := p;
      balance := p.initialBalance;
      positions, trades := [], [];
    }

    ghost function State(): Sim
      reads this
    {
      Sim(balance, positions, trades)
    }

    method ClosePosition(symbol: string, bar: Bar, reason: string)
      requires Holds(positions, symbol)
      modifies this
      ensures State() == Closed(p, old(State()), symbol, bar, reason)
    {
      hide Times;
      var i := IndexOf(positions, symbol);
      var pos := positions[i];
      positions := Without(positions, i);
      var executionPrice, fee, pnl;
      if pos.side == LONG {
        executionPrice := Times(bar.close, 1.0 - p.slippage);
        var notional := Times(pos.quantity, executionPrice);
        fee := Times(notional, p.feeRate);
        balance := balance + (notional - fee);
        pnl := notional - fee - Times(pos.quantity, pos.entryPrice) - pos.openFee;
      } else {
        executionPrice := Times(bar.close, 1.0 + p.slippage);
        var entryNotional := Times(pos.quantity, pos.entryPrice);
        var exitNotional := Times(pos.quantity, executionPrice);
        fee := Times(exitNotional, p.feeRate);
        pnl := entryNotional - exitNotional - fee - pos.openFee;
        balance := balance + (entryNotional + pnl);
      }
      trades := trades + [Close(bar.time, symbol, pos.side, executionPrice, pos.quantity, fee, reason, pnl)];
    }

    /** False when the division by the execution price fails; a position may have been closed before that. */
    method ProcessDecision(d: TradingDecision, bar: Bar) returns (ok: bool)
      requires Priced(positions)
      modifies this
      ensures ok == !DividesByZero(p, old(State()), d, bar)
      ensures State() == Processed(p, old(State()), d, bar)
      ensures Priced(positions)
    {
      hide Times, Closed, StopPct, ProfitPct, GainPct, Slipped;
      if Holds(positions, d.symbol) {
        var pos := positions[IndexOf(positions, d.symbol)];
        var reason := ExitReason(pos, d.action, bar);
        if reason.Some? {
          ClosePosition(d.symbol, bar, reason.value);
        }
      }
      assert State() == AfterExit(p, old(State()), d, bar);
      ok := true;
      if !Holds(positions, d.symbol) && IsEntry(d.action) {
        var side := EntrySide(d.action);
        var tradeAmount := Times(balance, TRADE_SHARE);
        var executionPrice := EntryPrice(p, d.action, bar.close);
        if executionPrice == 0.0 {
          return false;
        }
        var quantity := tradeAmount / executionPrice;
        var fee := Times(tradeAmount, p.feeRate);
        balance := balance - (tradeAmount + fee);
        positions := positions + [Holding(d.symbol, side, executionPrice, quantity, fee)];
        trades := trades + [Open(bar.time, d.symbol, side, executionPrice, quantity, fee, d.reason)];
      }
    }

    /** Feeds the bars to the strategy through a rolling window; false once an opening has failed. */
    method Simulate(bars: seq<Bar>, strategy: Strategy) returns (ok: bool)
      requires Priced(positions)
      modifies this
      ensures ok <==> Replay(p, strategy, bars, old(State())).Some?
      ensures ok ==> Replay(p, strategy, bars, old(State())) == Some(State())
    {
      hide Processed, DividesByZero, Closed, Replay, Reacted, Priced, Tail;
      var window: seq<Bar> := [];
      ReplayNone(p, strategy, State());
      for i := 0 to |bars|
        invariant window == if i < WINDOW then bars[..i] else bars[i - WINDOW..i]
        invariant Priced(positions)
        invariant Replay(p, strategy, bars[..i], old(State())) == Some(State())
      {
        ReplayNext(p, strategy, bars, i, old(State()));
        window := window + [bars[i]];
        if |window| > WINDOW {
          window := window[1..];
        }
        SlideIsTail(bars, i);
        ReactedCases(p, strategy, bars, i, State());
        if |window| < WINDOW {
          continue;
        }
        var decision := strategy(window);
        if decision.Some? {
          var done := ProcessDecision(decision.value, bars[i]);
          if !done {
            CrashedStays(p, strategy, bars, i + 1, old(State()));
            return false;
          }
        }
      }
      assert bars[..|bars|] == bars;
      ok := true;
    }

    /** Runs the strategy over the bars, closes what is left open and reports; None stands for the exception. */
    method Run(symbol: string, bars: seq<Bar>, strategy: Strategy) returns (report: Option<Report>)
      requires Priced(positions) && p.initialBalance > 0.0
      modifies this
      ensures report.Some? <==> Ran(p, strategy, symbol, bars, old(State())).Some?
      ensures report.Some? ==> Some(State()) == Ran(p, strategy, symbol, bars, old(State()))
      ensures report.Some? ==> ReportsOn(p, report.value, trades, symbol)
    {
      hide Replay, Closed, ReportsOn;
      var ok := Simulate(bars, strategy);
      if !ok {
        return None;
      }
      if Holds(positions, symbol) && |bars| > 0 {
        ClosePosition(symbol, bars[|bars| - 1], "End of Backtest");
      }
      var r := GenerateReport(symbol);
      report := Some(r);
    }

    method GenerateReport(symbol: string) returns (r: Report)
      requires p.initialBalance > 0.0
      ensures ReportsOn(p, r, trades, symbol)
    {
      var closed := Pnls(trades, symbol);
      var totalPnl := Analytics.TotalPnl(closed);
      Analytics.ExpectancyIsMeanPnl(closed);
      var winRate := Times(Analytics.WinRate(closed), 100.0);
      var maxDd := MaxDrawdown(closed, p.initialBalance);
      r := Report(p.initialBalance + totalPnl, totalPnl, Times(totalPnl / p.initialBalance, 100.0), |closed|,
                  winRate, Times(maxDd, 100.0));
    }
  }

  function Slide(window: seq<Bar>, bar: Bar): seq<Bar> {
    var longer := window + [bar];
    if |longer| > WINDOW then longer[1..] else longer
  }

  lemma SlideIsTail(bars: seq<Bar>, i: nat)
    requires i < |bars|
    ensures Slide(if i < WINDOW then bars[..i] else bars[i - WINDOW..i], bars[i])
            == if i + 1 < WINDOW then bars[..i + 1] else bars[i + 1 - WINDOW..i + 1]
    ensures i + 1 >= WINDOW ==> Tail(bars[..i + 1]) == bars[i + 1 - WINDOW..i + 1]
  {
  }

  lemma ReplayNone(p: Params, strategy: Strategy, s: Sim)
    requires Priced(s.book)
    ensures Replay(p, strategy, [], s) == Some(s)
  {
  }

  lemma ReplayNext(p: Params, strategy: Strategy, bars: seq<Bar>, i: nat, s: Sim)
    requires Priced(s.book) && i < |bars| && Replay(p, strategy, bars[..i], s).Some?
    ensures Replay(p, strategy, bars[..i + 1], s)
            == Reacted(p, strategy, bars[..i + 1], Replay(p, strategy, bars[..i], s).value)
  {
    hide Reacted;
    assert bars[..i + 1][..i] == bars[..i];
  }

  lemma ReactedCases(p: Params, strategy: Strategy, bars: seq<Bar>, i: nat, s: Sim)
    requires Priced(s.book) && i < |bars|
    ensures i + 1 < WINDOW ==> Reacted(p, strategy, bars[..i + 1], s) == Some(s)
    ensures i + 1 >= WINDOW ==>
              var d := strategy(Tail(bars[..i + 1]));
              Reacted(p, strategy, bars[..i + 1], s)
              == if d.None? then Some(s) else if DividesByZero(p, s, d.value, bars[i]) then None
                 else Some(Processed(p, s, d.value, bars[i]))
  {
    hide Processed, DividesByZero, Tail;
  }

  /** Once an opening has failed, the run is over. */
  lemma {:induction false} CrashedStays(p: Params, strategy: Strategy, bars: seq<Bar>, i: nat, s: Sim)
    requires Priced(s.book) && i <= |bars| && Replay(p, strategy, bars[..i], s).None?
    ensures Replay(p, strategy, bars, s).None?
    decreases |bars|
  {
    if i < |bars| {
      assert bars[..|bars| - 1][..i] == bars[..i];
      CrashedStays(p, strategy, bars[..|bars| - 1], i, s);
    } else {
      assert bars[..i] == bars;
    }
  }

  lemma {:induction false} NextOfPath(pnls: seq<real>, initialBalance: real, i: nat)
    requires i < |pnls|
    ensures var before := EquityPath(pnls[..i], initialBalance);
            EquityPath(pnls[..i + 1], initialBalance) == before + [before[i] + pnls[i]]
  {
    assert Cycles(pnls[..i + 1])[..i] == Cycles(pnls[..i]);
  }

  /** The report's drawdown loop. */
  method MaxDrawdown(pnls: seq<real>, initialBalance: real) returns (maxDd: real)
    requires initialBalance > 0.0
    ensures maxDd == Analytics.Pass(EquityPath(pnls, initialBalance)).1
  {
    var peak := initialBalance;
    maxDd := 0.0;
    var currentEquity := initialBalance;
    ghost var path := [initialBalance];
    for i := 0 to |pnls|
      invariant path == EquityPath(pnls[..i], initialBalance)
      invariant currentEquity == path[i] && peak > 0.0
      invariant (peak, maxDd) == Analytics.Pass(path)
    {
      NextOfPath(pnls, initialBalance, i);
      currentEquity := currentEquity + pnls[i];
      Analytics.PassAppend(path, currentEquity);
      path := path + [currentEquity];
      if currentEquity > peak {
        peak := currentEquity;
      }
      var dd := Analytics.Drop(peak, currentEquity);
      if dd > maxDd {
        maxDd := dd;
      }
    }
    assert pnls[..|pnls|] == pnls;
  }

  /** On a fresh engine, the reported final balance exceeds the engine's own balance by exactly the opening
      fees of the shorts, which that balance has paid twice; they agree when only longs were closed. */
  lemma ReportOverstatesByShortFees(p: Params, strategy: Strategy, symbol: string, bars: seq<Bar>, r: Report)
    requires DecidesFor(strategy, symbol) && Ran(p, strategy, symbol, bars, Fresh(p)).Some?
    requires ReportsOn(p, r, Ran(p, strategy, symbol, bars, Fresh(p)).value.trades, symbol)
    ensures var end := Ran(p, strategy, symbol, bars, Fresh(p)).value;
            && r.finalBalance == end.balance + ShortFees(end.trades)
            && ((forall i | 0 <= i < |end.trades| && end.trades[i].Close? :: end.trades[i].side == LONG)
                ==> r.finalBalance == end.balance)
  {
    hide Ran, ShortFees, Realized;
    var end := Ran(p, strategy, symbol, bars, Fresh(p)).value;
    FreshRun(p, strategy, symbol, bars);
    PnlsOfOne(end.trades, symbol);
    if forall i | 0 <= i < |end.trades| && end.trades[i].Close? :: end.trades[i].side == LONG {
      LongOnlyPaysFeesOnce(end.trades);
    }
  }

  /** A reported drawdown is the largest relative drop of the equity path of the closings, as long as that
      path never goes negative, and lies within [0, 100] exactly then. */
  lemma ReportedDrawdown(p: Params, r: Report, trades: seq<Fill>, symbol: string)
    requires p.initialBalance > 0.0 && ReportsOn(p, r, trades, symbol)
    ensures var path := EquityPath(Pnls(trades, symbol), p.initialBalance);
            && (Analytics.NonNegative(path) ==> Analytics.IsMaxDrop(path, r.maxDrawdownPct / 100.0))
            && (0.0 <= r.maxDrawdownPct <= 100.0 <==> Analytics.NonNegative(path))
  {
    hide Analytics.NonNegative, Analytics.IsMaxDrop, Analytics.IsPeak, Pnls;
    Analytics.DrawdownIsLargestDrop(Cycles(Pnls(trades, symbol)), p.initialBalance);
  }
}
