/**
 Whole runs of the broker.  One invariant gathers what the other files say about single
 changes; every step keeps it, so it holds in every state a run can reach.
 */
module BrokerRuns {
  import opened CashSafety
  import opened Conservation
  import opened Ledger
  import opened Options
  import opened PositionTable
  import opened RiskCalculator
  import opened Rounding
  import opened StopSpacing
  import opened Targets
  import opened TrailingBracket

  /** What stays fixed during a run; `positive` says that no quote it marks at vanishes when rounded. */
  datatype Account = Account(c: Calculator, balance: real, positive: bool)

  predicate RowSound(a: Account, p: Position) {
    MarkAgrees(p) && Bracketed(p) && (a.positive && p.status.OPEN? ==> p.currentPrice > 0.0)
  }

  predicate RowsSound(a: Account, rows: Table) {
    forall p | p in rows :: RowSound(a, p)
  }

  /** The invariant of the account at instant `now`. */
  ghost predicate Sound(a: Account, l: Ledger, now: int) {
    && Balanced(l, a.balance)
    && Chronicle(l.rows, now)
    && CashSafe(a.c, l)
    && RowsSound(a, l.rows)
  }

  /** A positive quote does not vanish when it is rounded to a mark. */
  predicate Markable(quotes: Quotes) {
    forall symbol | symbol in quotes ::
      quotes[symbol].close.Some? && quotes[symbol].close.value > 0.0 ==> Money(quotes[symbol].close.value) > 0.0
  }

  /** l' may follow l: rows evolve, trades are only added, and only marking files stop-losses. */
  ghost predicate Follows(l: Ledger, l': Ledger, marking: bool) {
    && Evolves(l.rows, l'.rows)
    && l.trades <= l'.trades
    && (!marking ==> forall i | 0 <= i < |l'.rows| && StoppedOut(l'.rows[i]) :: i < |l.rows| && StoppedOut(l.rows[i]))
  }

  lemma FollowsTransitive(l0: Ledger, l1: Ledger, l2: Ledger, marking: bool)
    requires Follows(l0, l1, marking) && Follows(l1, l2, marking)
    ensures Follows(l0, l2, marking)
  {
    EvolvesTransitive(l0.rows, l1.rows, l2.rows);
  }

  lemma FollowsItself(l: Ledger, marking: bool)
    ensures Follows(l, l, marking)
  {
  }

  // ---------- changes of a single row ----------

  lemma RewriteFollows(l: Ledger, l': Ledger, id: nat, marking: bool)
    requires id < |l.rows| && |l'.rows| == |l.rows| && l'.rows == l.rows[id := l'.rows[id]]
    requires RowEvolves(l.rows[id], l'.rows[id]) && l.trades <= l'.trades
    requires marking || !StoppedOut(l'.rows[id])
    ensures Follows(l, l', marking)
  {
    forall i | 0 <= i < |l.rows| ensures RowEvolves(l.rows[i], l'.rows[i]) {
      assert i != id ==> l'.rows[i] == l.rows[i];
    }
  }

  lemma RewriteKeepsRowsSound(a: Account, rows: Table, id: nat, row: Position)
    requires RowsSound(a, rows) && id < |rows| && RowSound(a, row)
    ensures RowsSound(a, rows[id := row])
  {
    forall p | p in rows[id := row] ensures RowSound(a, p) {
      assert p in rows || p == row;
    }
  }

  lemma SettleKeepsSound(a: Account, l: Ledger, id: nat, price: real, now: int, reason: string, marking: bool)
    requires a.c.Valid() && Sound(a, l, now)
    requires id < |l.rows| && l.rows[id].status.OPEN? && price > 0.0
    requires marking || reason != STOP_LOSS
    ensures var l' := Settle(a.c, l, id, price, now, reason);
            Sound(a, l', now) && Follows(l, l', marking)
  {
    hide Money, Times, Gain, ZeroIfTiny;
    var l' := Settle(a.c, l, id, price, now, reason);
    SettleKeepsBalance(a.c, l, id, price, now, reason, a.balance);
    SettleKeepsCashSafe(a.c, l, id, price, now, reason);
    RewriteKeepsChronicle(l.rows, id, l'.rows[id], now);
    RewriteKeepsRowsSound(a, l.rows, id, l'.rows[id]);
    RewriteFollows(l, l', id, marking);
  }

  lemma RemarkKeepsSound(a: Account, l: Ledger, id: nat, row: Position, now: int)
    requires Sound(a, l, now)
    requires id < |l.rows| && l.rows[id].status.OPEN? && row.status.OPEN?
    requires RowEvolves(l.rows[id], row) && RowSound(a, row)
    ensures var l' := l.(rows := l.rows[id := row]);
            Sound(a, l', now) && Follows(l, l', true)
  {
    RemarkKeepsBalance(l, id, row, a.balance);
    RemarkKeepsCashSafe(a.c, l, id, row);
    RewriteKeepsChronicle(l.rows, id, row, now);
    RewriteKeepsRowsSound(a, l.rows, id, row);
    RewriteFollows(l, l.(rows := l.rows[id := row]), id, true);
  }

  // ---------- the opening step ----------

  lemma NoGainAtEntry(side: Side, price: real, quantity: real)
    ensures Gain(side, price, price, quantity) == 0.0
  {
  }

  /** A new row at the end, still open, and a longer trade log. */
  lemma AppendFollows(l: Ledger, l': Ledger, row: Position)
    requires l'.rows == l.rows + [row] && row.status.OPEN? && l.trades <= l'.trades
    ensures Follows(l, l', false)
  {
    forall i | 0 <= i < |l.rows| ensures RowEvolves(l.rows[i], l'.rows[i]) {
      assert l'.rows[i] == l.rows[i];
    }
  }

  lemma AppendKeepsRowsSound(a: Account, rows: Table, row: Position)
    requires RowsSound(a, rows) && RowSound(a, row)
    ensures RowsSound(a, rows + [row])
  {
    forall p | p in rows + [row] ensures RowSound(a, p) {
      assert p in rows || p == row;
    }
  }

  lemma OpenRowIsSound(a: Account, o: Opening, t: TargetPosition)
    requires a.c.Valid() && AllTradable(a.c, o.quotes)
    requires t.symbol in o.quotes && o.quotes[t.symbol].close.Some? && o.quotes[t.symbol].close.value > 0.0
    ensures RowSound(a, OpenRow(a.c, o, t))
  {
    var row := OpenRow(a.c, o, t);
    hide Money, Times, Bracketed;
    OpenRowBracketed(a.c, o, t);
    NoGainAtEntry(row.side, row.entryPrice, row.quantity);
  }

  lemma OpenKeepsSound(a: Account, o: Opening, l: Ledger, t: TargetPosition)
    requires a.c.Valid() && AllTradable(a.c, o.quotes)
    requires Sound(a, l, o.now) && CooldownsCurrent(o, l.rows)
    requires Screen(a.c, o, l, t) == EXECUTED
    ensures var l' := OpenPosition(a.c, o, l, t);
            Sound(a, l', o.now) && CooldownsCurrent(o, l'.rows) && Follows(l, l', false)
  {
    hide Money, Times, RowSound, Balanced, Chronicle, CashSafe, RowsSound, CooldownsCurrent, Follows;
    var row := OpenRow(a.c, o, t);
    OpenKeepsBalance(a.c, o, l, t, a.balance);
    OpenKeepsCashSafe(a.c, o, l, t);
    OpeningKeepsChronicle(o, l.rows, row);
    OpeningKeepsCooldowns(o, l.rows, row);
    OpenRowIsSound(a, o, t);
    AppendKeepsRowsSound(a, l.rows, row);
    AppendFollows(l, OpenPosition(a.c, o, l, t), row);
  }

  lemma OpenOneKeepsSound(a: Account, o: Opening, pr: Progress, t: TargetPosition)
    requires a.c.Valid() && AllTradable(a.c, o.quotes)
    requires Sound(a, pr.ledger, o.now) && CooldownsCurrent(o, pr.ledger.rows)
    ensures var l' := OpenOne(a.c, o, pr, t).ledger;
            Sound(a, l', o.now) && CooldownsCurrent(o, l'.rows) && Follows(pr.ledger, l', false)
  {
    hide Sound, CooldownsCurrent, Screen, OpenPosition, AllTradable;
    if Screen(a.c, o, pr.ledger, t) == EXECUTED {
      OpenKeepsSound(a, o, pr.ledger, t);
    } else {
      FollowsItself(pr.ledger, false);
    }
  }

  lemma {:induction false} OpenAllKeepsSound(a: Account, o: Opening, l: Ledger, ts: seq<TargetPosition>)
    requires a.c.Valid() && AllTradable(a.c, o.quotes)
    requires Sound(a, l, o.now) && CooldownsCurrent(o, l.rows)
    ensures var l' := OpenAll(a.c, o, Progress(l, [], []), ts).ledger;
            Sound(a, l', o.now) && CooldownsCurrent(o, l'.rows) && Follows(l, l', false)
  {
    hide Sound, Follows, CooldownsCurrent, OpenOne, AllTradable;
    if |ts| == 0 {
      FollowsItself(l, false);
    } else {
      var init := ts[..|ts| - 1];
      OpenAllKeepsSound(a, o, l, init);
      var pr := OpenAll(a.c, o, Progress(l, [], []), init);
      OpenOneKeepsSound(a, o, pr, ts[|ts| - 1]);
      FollowsTransitive(l, pr.ledger, OpenOne(a.c, o, pr, ts[|ts| - 1]).ledger, false);
    }
  }

  // ---------- the closing step ----------

  lemma CloseOneKeepsSound(a: Account, feeText: real -> string, target: PortfolioTarget, quotes: Quotes, now: int,
                           pr: Progress, id: nat)
    requires a.c.Valid() && Sound(a, pr.ledger, now)
    requires id < |pr.ledger.rows| && pr.ledger.rows[id].status.OPEN?
    ensures var l' := CloseOne(a.c, feeText, target, quotes, now, pr, id).ledger;
            Sound(a, l', now) && Follows(pr.ledger, l', false)
  {
    hide Sound, Settle, TargetSide, RebalanceReason, Calculator.Fee, Calculator.ExitPrice, Money, Follows;
    var p := pr.ledger.rows[id];
    var price := RebalancePrice(quotes, p);
    if TargetSide(target.positions, p.symbol) == Some(p.side) || price.None? || price.value <= 0.0 {
      FollowsItself(pr.ledger, false);
    } else {
      var fee := a.c.Fee(Money(Times(p.quantity, a.c.ExitPrice(price.value, p.side))));
      RebalanceIsNoStopLoss(target.closeReasons, p.symbol, feeText(fee));
      SettleKeepsSound(a, pr.ledger, id, price.value, now,
                       RebalanceReason(target.closeReasons, p.symbol, feeText(fee)), false);
    }
  }

  lemma {:induction false} CloseUpToKeepsSound(a: Account, feeText: real -> string, target: PortfolioTarget,
                                               quotes: Quotes, now: int, l: Ledger, n: nat)
    requires a.c.Valid() && Sound(a, l, now) && n <= |l.rows|
    ensures var l' := CloseUpTo(a.c, feeText, target, quotes, now, l, n).ledger;
            Sound(a, l', now) && Follows(l, l', false)
  {
    hide Sound, Follows, CloseOne;
    if n == 0 {
      FollowsItself(l, false);
    } else {
      CloseUpToKeepsSound(a, feeText, target, quotes, now, l, n - 1);
      var pr := CloseUpTo(a.c, feeText, target, quotes, now, l, n - 1);
      TailHead(pr.ledger.rows, l.rows, n - 1);
      if l.rows[n - 1].status.OPEN? {
        CloseOneKeepsSound(a, feeText, target, quotes, now, pr, n - 1);
        FollowsTransitive(l, pr.ledger, CloseOne(a.c, feeText, target, quotes, now, pr, n - 1).ledger, false);
      }
    }
  }

  // ---------- the mark step ----------

  lemma MarkedRowAgrees(p: Position, price: real)
    ensures MarkAgrees(MarkedRow(p, price))
  {
    hide Money, Times;
    ZeroIfTinyError(Gain(p.side, p.entryPrice, Money(price), p.quantity));
  }

  /** Settling depends on a row only through its fixed terms, so settling the marked row and
      settling the row as it stood move the same money. */
  lemma MarkThenSettleKeepsSound(a: Account, l: Ledger, id: nat, row: Position, price: real, now: int, reason: string)
    requires a.c.Valid() && Sound(a, l, now) && price > 0.0
    requires id < |l.rows| && l.rows[id].status.OPEN? && row.status.OPEN? && RowEvolves(l.rows[id], row)
    ensures var l' := Settle(a.c, l.(rows := l.rows[id := row]), id, price, now, reason);
            Sound(a, l', now) && Follows(l, l', true)
  {
    hide Money, Times, Gain, ZeroIfTiny;
    var marked := l.(rows := l.rows[id := row]);
    var l' := Settle(a.c, marked, id, price, now, reason);
    RemarkKeepsBalance(l, id, row, a.balance);
    RemarkKeepsCashSafe(a.c, l, id, row);
    SettleKeepsBalance(a.c, marked, id, price, now, reason, a.balance);
    SettleKeepsCashSafe(a.c, marked, id, price, now, reason);
    assert l'.rows == l.rows[id := l'.rows[id]];
    RewriteKeepsChronicle(l.rows, id, l'.rows[id], now);
    RewriteKeepsRowsSound(a, l.rows, id, l'.rows[id]);
    RewriteFollows(l, l', id, true);
  }

  lemma MarkOneKeepsSound(a: Account, quotes: Quotes, now: int, pr: Progress, id: nat)
    requires a.c.Valid() && Sound(a, pr.ledger, now) && (a.positive ==> Markable(quotes))
    requires id < |pr.ledger.rows| && pr.ledger.rows[id].status.OPEN?
    ensures var l' := MarkOne(a.c, quotes, now, pr, id).ledger;
            Sound(a, l', now) && Follows(pr.ledger, l', true)
  {
    hide Money, Times, TrailPct, ZeroIfTiny, Gain, Balanced, Chronicle, CashSafe;
    var l := pr.ledger;
    var p := l.rows[id];
    var close := ClosePriceOf(quotes, p.symbol);
    if close.None? || close.value <= 0.0 {
      FollowsItself(l, true);
    } else {
      var price := close.value;
      var atr := quotes[p.symbol].atr;
      var row := MarkedAndTrailed(a.c, p, atr, price);
      assert p in l.rows && RowSound(a, p);
      MarkEvolves(a.c, p, atr, price);
      StaysOpenInsideBracket(a.c, p, atr, price);
      MarkedRowAgrees(p, price);
      if Inside(row, price) {
        RemarkKeepsSound(a, l, id, row, now);
      } else {
        var reason := if StopHit(row, price) then STOP_LOSS else TAKE_PROFIT;
        MarkThenSettleKeepsSound(a, l, id, row, price, now, reason);
      }
    }
  }

  lemma {:induction false} MarkUpToKeepsSound(a: Account, quotes: Quotes, now: int, l: Ledger, n: nat)
    requires a.c.Valid() && Sound(a, l, now) && n <= |l.rows| && (a.positive ==> Markable(quotes))
    ensures var l' := MarkUpTo(a.c, quotes, now, l, n).ledger;
            Sound(a, l', now) && Follows(l, l', true)
  {
    hide Sound, Follows, MarkOne, Markable;
    if n == 0 {
      FollowsItself(l, true);
    } else {
      MarkUpToKeepsSound(a, quotes, now, l, n - 1);
      var pr := MarkUpTo(a.c, quotes, now, l, n - 1);
      TailHead(pr.ledger.rows, l.rows, n - 1);
      if l.rows[n - 1].status.OPEN? {
        MarkOneKeepsSound(a, quotes, now, pr, n - 1);
        FollowsTransitive(l, pr.ledger, MarkOne(a.c, quotes, now, pr, n - 1).ledger, true);
      }
    }
  }

  // ---------- every step, every run ----------

  lemma RevaluedIsSound(a: Account, l: Ledger, now: int)
    requires Sound(a, l, now)
    ensures Sound(a, Revalued(l), now)
    ensures Revalued(Revalued(l)) == Revalued(l)
  {
    hide Money, SumOpen, RealizedPnl, TotalSlippage, Chronicle;
  }

  lemma RevaluedFollows(l: Ledger, l': Ledger, marking: bool)
    requires Follows(l, l', marking)
    ensures Follows(l, Revalued(l'), marking)
  {
  }

  lemma BeginOpeningReadsCooldowns(l: Ledger, target: PortfolioTarget, quotes: Quotes, now: int)
    ensures CooldownsCurrent(BeginOpening(l, target, quotes, now), l.rows)
  {
  }

  predicate Admits(a: Account, s: Step) {
    Callable(a.c, s) && (a.positive && s.MarkStep? ==> Markable(s.quotes))
  }

  lemma StepKeepsSound(a: Account, feeText: real -> string, l: Ledger, s: Step, before: int)
    requires a.c.Valid() && Admits(a, s) && Sound(a, l, before) && before <= s.now
    ensures var l' := Apply(a.c, feeText, l, s);
            Sound(a, l', s.now) && Follows(l, l', s.MarkStep?) && l' == Revalued(l')
  {
    hide Revalued, CooldownsCurrent, OpenAll, CloseUpTo, MarkUpTo, Balanced, CashSafe, RowsSound, Follows, Markable;
    LaterIsStillChronicle(l.rows, before, s.now);
    ghost var unvalued: Ledger;
    match s {
      case ExecuteStep(target, quotes, now) =>
        var o := BeginOpening(l, target, quotes, now);
        BeginOpeningReadsCooldowns(l, target, quotes, now);
        OpenAllKeepsSound(a, o, l, target.positions);
        unvalued := OpenAll(a.c, o, Progress(l, [], []), target.positions).ledger;
      case RebalanceStep(target, quotes, now) =>
        CloseUpToKeepsSound(a, feeText, target, quotes, now, l, |l.rows|);
        unvalued := CloseUpTo(a.c, feeText, target, quotes, now, l, |l.rows|).ledger;
      case MarkStep(quotes, now) =>
        MarkUpToKeepsSound(a, quotes, now, l, |l.rows|);
        unvalued := MarkUpTo(a.c, quotes, now, l, |l.rows|).ledger;
    }
    assert Apply(a.c, feeText, l, s) == Revalued(unvalued);
    RevaluedIsSound(a, unvalued, s.now);
    RevaluedFollows(l, unvalued, s.MarkStep?);
  }

  function Clock(steps: seq<Step>, start: int): int {
    if |steps| == 0 then start else steps[|steps| - 1].now
  }

  /** A run of an account: a valid calculator, an opening balance in money, a forward clock and
      quotes it can be called with. */
  ghost predicate Runs(a: Account, steps: seq<Step>, start: int) {
    && a.c.Valid() && IsMoney(a.balance) && a.balance >= 0.0
    && AllCallable(a.c, steps)
    && (forall i | 0 <= i < |steps| :: Admits(a, steps[i]))
    && Timed(steps, start)
  }

  lemma InitiallySound(a: Account, start: int)
    requires IsMoney(a.balance) && a.balance >= 0.0
    ensures Sound(a, Initial(a.balance), start)
    ensures Revalued(Initial(a.balance)) == Initial(a.balance)
  {
    InitiallyBalanced(a.balance);
    ZeroIsMoney();
    MoneyFixed(a.balance);
  }

  /** Every state that a run reaches is sound, with its equity up to date. */
  lemma {:induction false} RunIsSound(a: Account, feeText: real -> string, steps: seq<Step>, start: int)
    requires Runs(a, steps, start)
    ensures var l := After(a.c, feeText, Initial(a.balance), steps);
            Sound(a, l, Clock(steps, start)) && l == Revalued(l)
  {
    hide Sound, Revalued, Apply, Follows, Initial;
    if |steps| == 0 {
      InitiallySound(a, start);
    } else {
      var init := steps[..|steps| - 1];
      RunIsSound(a, feeText, init, start);
      StepKeepsSound(a, feeText, After(a.c, feeText, Initial(a.balance), init), steps[|steps| - 1], Clock(init, start));
    }
  }
}
