/**
 Prices, costs and brackets of the paper broker.  Every function is an expression over
 its arguments and the configuration fixed when the calculator is built.
 */
module RiskCalculator {
  import opened Bounds
  import opened Options
  import opened PositionTable
  import opened Rounding

  datatype StrategyMode = SCALPING | SWING | HODL | OTHER_MODE

  const MAX_RISK_PER_TRADE := 1.0

  /** The features of one bar that the broker reads; a missing feature is None. */
  datatype Snapshot = Snapshot(
    close: Option<real>,
    high: Option<real>,
    low: Option<real>,
    volume: Option<real>,
    atr: Option<real>)

  datatype Calculator = Calculator(
    mode: StrategyMode,
    commissionRate: real,
    slippageRate: real,
    dynamicSlippage: bool)
  {
    /** Rates as a percentage of the traded value; the shipped defaults are both 0.0002. */
    predicate Valid() {
      0.0 <= commissionRate <= 1.0 && 0.0 <= slippageRate < 1.0
    }

    function StopPct(): real {
      match mode
      case SCALPING => 0.020
      case SWING => 0.03
      case HODL => 0.05
      case OTHER_MODE => 0.03
    }

    function TargetPct(): real {
      match mode
      case SCALPING => 0.024
      case SWING => 0.06
      case HODL => 0.12
      case OTHER_MODE => 0.06
    }

    function AtrStopMultiple(): real {
      match mode
      case SCALPING => 1.5
      case SWING => 2.0
      case HODL => 3.0
      case OTHER_MODE => 2.0
    }

    function AtrTargetMultiple(): real {
      match mode
      case SCALPING => 3.0
      case SWING => 4.0
      case HODL => 6.0
      case OTHER_MODE => 4.0
    }

    /** Commission and slippage of a whole round trip. */
    function Friction(): real {
      (commissionRate + slippageRate) * 2.0
    }

    function EffectiveSlippage(price: real, atr: Option<real>, highVolatility: bool): real {
      if !dynamicSlippage || price <= 0.0 then slippageRate
      else
        var multiple := if highVolatility then 1.5 else 1.0;
        if atr.Some? && atr.value > 0.0 && atr.value / price > 0.02 then
          var bump := Min(atr.value / price * 0.05, 0.003);
          Money((slippageRate + bump) * multiple)
        else
          Money(slippageRate * multiple)
    }

    /** The slippage of every order the broker sends: it passes no volatility. */
    function Slip(price: real): real {
      EffectiveSlippage(price, None, false)
    }

    function TargetNotional(weight: real, startingEquity: real): real {
      Min(Times(weight, startingEquity), Times(startingEquity, MAX_RISK_PER_TRADE))
    }

    function Fee(notional: real): real {
      Money(Times(notional, commissionRate))
    }

    function ExecutionPrice(price: real, side: Side): real {
      match side
      case LONG => Money(Times(price, 1.0 + Slip(price)))
      case SHORT => Money(Times(price, 1.0 - Slip(price)))
    }

    function ExitPrice(price: real, side: Side): real {
      match side
      case LONG => Money(Times(price, 1.0 - Slip(price)))
      case SHORT => Money(Times(price, 1.0 + Slip(price)))
    }

    function Quantity(notional: real, executionPrice: real): real
      requires executionPrice != 0.0
    {
      Money(notional / executionPrice)
    }

    /** The stop and the target of a new position. */
    function Bracket(price: real, side: Side, atr: Option<real>,
                     overrideStop: Option<real>, overrideTarget: Option<real>): (real, real)
    {
      if atr.Some? && atr.value > 0.0 then
        var stopMultiple := OverrideOr(overrideStop, AtrStopMultiple());
        var targetMultiple := OverrideOr(overrideTarget, AtrTargetMultiple());
        match side
        case LONG => (Money(price - atr.value * stopMultiple), Money(price + atr.value * targetMultiple))
        case SHORT => (Money(price + atr.value * stopMultiple), Money(price - atr.value * targetMultiple))
      else
        var targetPct := TargetPct() + Friction();
        match side
        case LONG => (Money(Times(price, 1.0 - StopPct())), Money(Times(price, 1.0 + targetPct)))
        case SHORT => (Money(Times(price, 1.0 + StopPct())), Money(Times(price, 1.0 - targetPct)))
    }

    /** Every quote this broker can open at: the slipped price must not round to zero,
        or the division that sizes the position fails. */
    predicate Tradable(price: real) {
      price > 0.0 ==> ExecutionPrice(price, LONG) > 0.0 && ExecutionPrice(price, SHORT) > 0.0
    }
  }

  function OverrideOr(override: Option<real>, default: real): real {
    if override.Some? && override.value != 0.0 then override.value else default
  }

  function ClosePriceOf(quotes: map<string, Snapshot>, symbol: string): Option<real> {
    if symbol in quotes then quotes[symbol].close else None
  }

  predicate ThinOrWide(bar: Snapshot) {
    bar.close.Some? && bar.close.value > 0.0 &&
    ( (bar.high.Some? && bar.low.Some? && (bar.high.value - bar.low.value) / bar.close.value > 0.08)
      || (bar.volume.Some? && Times(bar.volume.value, bar.close.value) < 1000.0))
  }

  // ---------- what the prices guarantee ----------

  lemma SlipRange(c: Calculator, price: real)
    requires c.Valid()
    ensures 0.0 <= c.Slip(price) <= 1.0
  {
    ZeroIsMoney();
    assert 1.0 == Tick(100000000, MONEY_SCALE);
    MoneyFixed(1.0);
    MoneyMonotone(0.0, c.slippageRate * 1.0);
    MoneyMonotone(c.slippageRate * 1.0, 1.0);
  }

  /** A long buys above and sells below the quote, a short the other way round; both sides
      of a trade at one quote straddle it. */
  lemma SlippageCosts(c: Calculator, price: real)
    requires c.Valid() && price > 0.0
    ensures c.ExitPrice(price, LONG) <= Money(price) <= c.ExecutionPrice(price, LONG)
    ensures c.ExecutionPrice(price, SHORT) <= Money(price) <= c.ExitPrice(price, SHORT)
    ensures c.ExecutionPrice(price, SHORT) == c.ExitPrice(price, LONG) >= 0.0
    ensures c.ExecutionPrice(price, LONG) == c.ExitPrice(price, SHORT)
  {
    hide Money;
    SlipRange(c, price);
    var slip := c.Slip(price);
    TimesMonotone(price, 0.0, 1.0 - slip);
    TimesMonotone(price, 1.0 - slip, 1.0);
    TimesMonotone(price, 1.0, 1.0 + slip);
    MoneyMonotone(Times(price, 1.0 - slip), price);
    MoneyMonotone(price, Times(price, 1.0 + slip));
    MoneySign(Times(price, 1.0 - slip));
  }

  /** With the percentage bracket, the stop and the target lie on either side of the entry. */
  lemma BracketStraddlesEntry(c: Calculator, price: real, side: Side, stop: Option<real>, target: Option<real>)
    requires c.Valid() && price > 0.0
    ensures var (sl, tp) := c.Bracket(price, side, None, stop, target);
            if side == LONG then sl <= Money(price) <= tp else tp <= Money(price) <= sl
  {
    hide Money;
    var targetPct := c.TargetPct() + c.Friction();
    TimesMonotone(price, 1.0 - c.StopPct(), 1.0);
    TimesMonotone(price, 1.0, 1.0 + c.StopPct());
    TimesMonotone(price, 1.0 - targetPct, 1.0);
    TimesMonotone(price, 1.0, 1.0 + targetPct);
    MoneyMonotone(Times(price, 1.0 - c.StopPct()), price);
    MoneyMonotone(price, Times(price, 1.0 + c.StopPct()));
    MoneyMonotone(Times(price, 1.0 - targetPct), price);
    MoneyMonotone(price, Times(price, 1.0 + targetPct));
  }
}
