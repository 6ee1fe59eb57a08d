/** What the broker's closing step makes of a target that comes straight from the portfolio engine. */
module PortfolioMeetsBroker {
  import opened BrokerRuns
  import opened BrokerTheorems
  import opened Decisions
  import opened Ledger
  import opened Options
  import opened PositionTable
  import opened Targets
  import Portfolio = PortfolioEngine
  import Replacement = PortfolioReplacement

  /** The symbol occurs among the first n positions, all of which are long. */
  lemma {:induction false} LongAmongFirst(ts: seq<TargetPosition>, n: nat, symbol: string)
    requires n <= |ts| && exists i | 0 <= i < n :: ts[i].symbol == symbol
    requires forall i | 0 <= i < n :: ts[i].side == LONG
    ensures TargetSide(ts, symbol) == Some(LONG)
  {
    var i :| 0 <= i < n && ts[i].symbol == symbol;
    if ts[0].symbol != symbol {
      assert ts[1..][i - 1].symbol == symbol;
      LongAmongFirst(ts[1..], n - 1, symbol);
    }
  }

  lemma {:induction false} AbsentHasNoSide(ts: seq<TargetPosition>, symbol: string)
    requires forall i | 0 <= i < |ts| :: ts[i].symbol != symbol
    ensures TargetSide(ts, symbol) == None
  {
    if |ts| > 0 { AbsentHasNoSide(ts[1..], symbol); }
  }

  lemma RetainedSideIsLong(e: Portfolio.Settings, exchange: string, ds: seq<TradingDecision>, open: seq<string>,
                           riskLevel: int, symbol: string)
    requires symbol in Portfolio.Selected(e, ds, open).retained
    ensures TargetSide(Portfolio.Target(e, exchange, ds, open, riskLevel).positions, symbol) == Some(LONG)
  {
    var s, ps := Portfolio.Selected(e, ds, open), Portfolio.Target(e, exchange, ds, open, riskLevel).positions;
    TargetLength(e, exchange, ds, open, riskLevel);
    hide *;
    forall i | 0 <= i < |s.retained| ensures ps[i].symbol == s.retained[i] && ps[i].side == LONG {
      Replacement.TargetSymbols(e, exchange, ds, open, riskLevel, i);
    }
    var i :| 0 <= i < |s.retained| && s.retained[i] == symbol;
    assert ps[i].symbol == symbol;
    LongAmongFirst(ps, |s.retained|, symbol);
  }

  lemma TargetLength(e: Portfolio.Settings, exchange: string, ds: seq<TradingDecision>, open: seq<string>, riskLevel: int)
    ensures var s := Portfolio.Selected(e, ds, open);
            |Portfolio.Target(e, exchange, ds, open, riskLevel).positions| == |s.retained| + |s.picked|
  {
    hide Portfolio.Selected, Portfolio.Positions, Portfolio.Gross, Portfolio.Cash;
  }

  /** After the closing step of any run on such a target, no short in a retained symbol is open any more, since the
      target calls every retained position long, and nothing is open in a replaced symbol; except for a position with
      neither a quote nor a mark above zero, and there is none where no quote's mark rounds to zero. */
  lemma RetainedShortsAndReplacedAreClosed(
      a: Account, feeText: real -> string, steps: seq<Step>, start: int,
      e: Portfolio.Settings, exchange: string, ds: seq<TradingDecision>, open: seq<string>, riskLevel: int,
      quotes: Quotes, now: int)
    requires Runs(a, steps, start) && Replacement.Distinct(open)
    ensures var target := Portfolio.Target(e, exchange, ds, open, riskLevel);
            var rows := CloseNotInTarget(a.c, feeText, Reached(a, feeText, steps), target, quotes, now).ledger.rows;
            var replaced := Replacement.Replaced(e, ds, open);
            && (forall p | p in rows && p.status.OPEN? && (a.positive || !Unpriced(quotes, p))
                           && p.symbol in Portfolio.Selected(e, ds, open).retained :: p.side == LONG)
            && (forall p, k | p in rows && p.status.OPEN? && (a.positive || !Unpriced(quotes, p))
                              && 0 <= k < |replaced| :: p.symbol != replaced[k].symbol)
  {
    hide *;
    RunsAreCallable(a, steps, start);
    var target := Portfolio.Target(e, exchange, ds, open, riskLevel);
    var l := Reached(a, feeText, steps);
    var pr := CloseNotInTarget(a.c, feeText, l, target, quotes, now);
    var replaced := Replacement.Replaced(e, ds, open);
    RebalanceLeavesOnlyTargets(a, feeText, steps, start, target, quotes, now);
    Replacement.ReplacedLeaveTheTarget(e, exchange, ds, open, riskLevel);
    forall p | p in pr.ledger.rows && p.status.OPEN? && (a.positive || !Unpriced(quotes, p))
      ensures TargetSide(target.positions, p.symbol) == Some(p.side)
    {
      WantedWhenPriced(a, target, quotes, l.rows, pr.ledger.rows, p);
    }
    forall p | p in pr.ledger.rows && p.status.OPEN? && (a.positive || !Unpriced(quotes, p))
               && p.symbol in Portfolio.Selected(e, ds, open).retained
      ensures p.side == LONG
    {
      RetainedSideIsLong(e, exchange, ds, open, riskLevel, p.symbol);
    }
    forall p, k | p in pr.ledger.rows && p.status.OPEN? && (a.positive || !Unpriced(quotes, p)) && 0 <= k < |replaced|
      ensures p.symbol != replaced[k].symbol
    {
      AbsentHasNoSide(target.positions, replaced[k].symbol);
    }
  }

  lemma RunsAreCallable(a: Account, steps: seq<Step>, start: int)
    requires Runs(a, steps, start)
    ensures AllCallable(a.c, steps)
  {
  }

  lemma WantedWhenPriced(a: Account, target: PortfolioTarget, quotes: Quotes, before: Table, after: Table, p: Position)
    requires OnlyWanted(target, quotes, before, after) && p in after && p.status.OPEN?
    requires a.positive ==> forall q | q in after && q.status.OPEN? :: WantedBy(target, q)
    requires a.positive || !Unpriced(quotes, p)
    ensures TargetSide(target.positions, p.symbol) == Some(p.side)
  {
    hide TargetSide, Unpriced;
    var i :| 0 <= i < |after| && after[i] == p;
    assert after[i] == before[i];
  }
}
