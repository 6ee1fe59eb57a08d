/** The integrity gate every page of candles passes before it is stored. */
module Integrity {
  import opened Options
  import opened Sorting

  const MINUTE := 60_000_000

  datatype Timeframe =
    | ONE_MINUTE | FIVE_MINUTES | FIFTEEN_MINUTES | ONE_HOUR | FOUR_HOURS | ONE_DAY | ONE_WEEK | ONE_MONTH

  datatype Candle = Candle(
    exchange: string,
    symbol: string,
    openTime: int,
    closeTime: int,
    open: real,
    high: real,
    low: real,
    close: real,
    volume: real,
    quoteVolume: Option<real>)

  datatype Issue =
    | EMPTY_CANDLE_LIST
    | CANDLES_NOT_SORTED(openTime: int)
    | DUPLICATE_CANDLE(openTime: int)
    | NON_POSITIVE_PRICE(openTime: int)
    | INVALID_HIGH(openTime: int)
    | INVALID_LOW(openTime: int)
    | NEGATIVE_VOLUME(openTime: int)
    | NEGATIVE_QUOTE_VOLUME(openTime: int)
    | INVALID_TIME_BOUNDS(openTime: int)
    | MISSING_OR_IRREGULAR_CANDLE(openTime: int)

  datatype Report = Report(isValid: bool, totalCandles: nat, issues: seq<Issue>)

  /** Weeks and months have no step, and no distance between candles equals none. */
  function TimeframeToDelta(timeframe: Timeframe): Option<int> {
    match timeframe
    case ONE_MINUTE => Some(MINUTE)
    case FIVE_MINUTES => Some(5 * MINUTE)
    case FIFTEEN_MINUTES => Some(15 * MINUTE)
    case ONE_HOUR => Some(60 * MINUTE)
    case FOUR_HOURS => Some(240 * MINUTE)
    case ONE_DAY => Some(1440 * MINUTE)
    case ONE_WEEK => None
    case ONE_MONTH => None
  }

  // ---------- what the gate is for ----------

  predicate PricesSane(c: Candle) {
    && c.open > 0.0 && c.high > 0.0 && c.low > 0.0 && c.close > 0.0
    && c.low <= c.open <= c.high && c.low <= c.close <= c.high
  }

  predicate VolumesSane(c: Candle) {
    c.volume >= 0.0 && (c.quoteVolume.Some? ==> c.quoteVolume.value >= 0.0)
  }

  predicate Sane(c: Candle) {
    PricesSane(c) && VolumesSane(c) && c.openTime < c.closeTime
  }

  predicate EvenlySpaced(candles: seq<Candle>, step: Option<int>) {
    forall i | 0 <= i < |candles| - 1 :: step == Some(candles[i + 1].openTime - candles[i].openTime)
  }

  /** Not empty, every candle sane, and each exactly one step after the one before. */
  predicate Acceptable(candles: seq<Candle>, timeframe: Timeframe) {
    && candles != []
    && (forall i | 0 <= i < |candles| :: Sane(candles[i]))
    && EvenlySpaced(candles, TimeframeToDelta(timeframe))
  }

  // ---------- the checks ----------

  predicate Ordered(candles: seq<Candle>) {
    forall i | 0 <= i < |candles| - 1 :: candles[i].openTime <= candles[i + 1].openTime
  }

  /** The candle after number j opens before it. */
  predicate OutOfOrder(candles: seq<Candle>, j: int, issue: Issue)
    requires 0 <= j < |candles| - 1
  {
    candles[j + 1].openTime < candles[j].openTime && issue == CANDLES_NOT_SORTED(candles[j + 1].openTime)
  }

  predicate SortingIssue(candles: seq<Candle>, issue: Issue) {
    exists j :: 0 <= j < |candles| - 1 && OutOfOrder(candles, j, issue)
  }

  method CheckSorting(candles: seq<Candle>) returns (issues: seq<Issue>)
    ensures issues == [] <==> Ordered(candles)
    ensures forall issue :: issue in issues <==> SortingIssue(candles, issue)
  {
    issues := [];
    var i := 1;
    while i < |candles|
      invariant 1 <= i && (i <= |candles| || i == 1)
      invariant forall issue :: issue in issues <==> exists j :: 0 <= j < i - 1 && OutOfOrder(candles, j, issue)
      invariant issues == [] <==> forall j | 0 <= j < i - 1 :: candles[j].openTime <= candles[j + 1].openTime
    {
      var previous, current := candles[i - 1], candles[i];
      assert OutOfOrder(candles, i - 1, CANDLES_NOT_SORTED(current.openTime)) <==> current.openTime < previous.openTime;
      if current.openTime < previous.openTime {
        issues := issues + [CANDLES_NOT_SORTED(current.openTime)];
      }
      i := i + 1;
    }
  }

  function CandleKey(c: Candle): (string, string, int) {
    (c.exchange, c.symbol, c.openTime)
  }

  predicate Distinct(candles: seq<Candle>) {
    forall i, j | 0 <= i < j < |candles| :: CandleKey(candles[i]) != CandleKey(candles[j])
  }

  predicate DuplicateIssue(candles: seq<Candle>, issue: Issue) {
    exists i, j :: 0 <= i < j < |candles| && CandleKey(candles[i]) == CandleKey(candles[j])
                   && issue == DUPLICATE_CANDLE(candles[j].openTime)
  }

  method CheckDuplicates(candles: seq<Candle>) returns (issues: seq<Issue>)
    ensures issues == [] <==> Distinct(candles)
    ensures forall issue :: issue in issues <==> DuplicateIssue(candles, issue)
  {
    issues := [];
    var seen: set<(string, string, int)> := {};
    for k := 0 to |candles|
      invariant forall key :: key in seen <==> exists i :: 0 <= i < k && CandleKey(candles[i]) == key
      invariant issues == [] <==> forall i, j | 0 <= i < j < k :: CandleKey(candles[i]) != CandleKey(candles[j])
      invariant forall issue :: issue in issues <==>
        exists i, j :: 0 <= i < j < k && CandleKey(candles[i]) == CandleKey(candles[j])
                       && issue == DUPLICATE_CANDLE(candles[j].openTime)
    {
      var key := CandleKey(candles[k]);
      if key in seen {
        issues := issues + [DUPLICATE_CANDLE(candles[k].openTime)];
      }
      seen := seen + {key};
    }
  }

  function Max3(a: real, b: real, c: real): real {
    var m := if a >= b then a else b;
    if m >= c then m else c
  }

  function Min3(a: real, b: real, c: real): real {
    var m := if a <= b then a else b;
    if m <= c then m else c
  }

  predicate AllPositive(c: Candle) {
    c.open > 0.0 && c.high > 0.0 && c.low > 0.0 && c.close > 0.0
  }

  /** The issue is what is wrong with the candle's prices: the first check that fails, or both of the last two. */
  predicate PriceIssue(c: Candle, issue: Issue) {
    || (!AllPositive(c) && issue == NON_POSITIVE_PRICE(c.openTime))
    || (AllPositive(c) && (c.high < c.open || c.high < c.close || c.high < c.low) && issue == INVALID_HIGH(c.openTime))
    || (AllPositive(c) && (c.low > c.open || c.low > c.close || c.low > c.high) && issue == INVALID_LOW(c.openTime))
  }

  predicate VolumeIssue(c: Candle, issue: Issue) {
    || (c.volume < 0.0 && issue == NEGATIVE_VOLUME(c.openTime))
    || (c.quoteVolume.Some? && c.quoteVolume.value < 0.0 && issue == NEGATIVE_QUOTE_VOLUME(c.openTime))
  }

  method CheckOhlc(candles: seq<Candle>) returns (issues: seq<Issue>)
    ensures issues == [] <==> forall i | 0 <= i < |candles| :: PricesSane(candles[i])
    ensures forall issue :: issue in issues <==> exists i :: 0 <= i < |candles| && PriceIssue(candles[i], issue)
  {
    issues := [];
    for i := 0 to |candles|
      invariant forall issue :: issue in issues <==> exists j :: 0 <= j < i && PriceIssue(candles[j], issue)
      invariant issues == [] <==> forall j | 0 <= j < i :: PricesSane(candles[j])
    {
      var c := candles[i];
      if c.open <= 0.0 || c.high <= 0.0 || c.low <= 0.0 || c.close <= 0.0 {
        issues := issues + [NON_POSITIVE_PRICE(c.openTime)];
        continue;
      }
      if c.high < Max3(c.open, c.close, c.low) {
        issues := issues + [INVALID_HIGH(c.openTime)];
      }
      if c.low > Min3(c.open, c.close, c.high) {
        issues := issues + [INVALID_LOW(c.openTime)];
      }
    }
  }

  method CheckVolume(candles: seq<Candle>) returns (issues: seq<Issue>)
    ensures issues == [] <==> forall i | 0 <= i < |candles| :: VolumesSane(candles[i])
    ensures forall issue :: issue in issues <==> exists i :: 0 <= i < |candles| && VolumeIssue(candles[i], issue)
  {
    issues := [];
    for i := 0 to |candles|
      invariant forall issue :: issue in issues <==> exists j :: 0 <= j < i && VolumeIssue(candles[j], issue)
      invariant issues == [] <==> forall j | 0 <= j < i :: VolumesSane(candles[j])
    {
      var c := candles[i];
      if c.volume < 0.0 {
        issues := issues + [NEGATIVE_VOLUME(c.openTime)];
      }
      if c.quoteVolume.Some? && c.quoteVolume.value < 0.0 {
        issues := issues + [NEGATIVE_QUOTE_VOLUME(c.openTime)];
      }
    }
  }

  predicate BoundsIssue(c: Candle, issue: Issue) {
    c.closeTime <= c.openTime && issue == INVALID_TIME_BOUNDS(c.openTime)
  }

  method CheckTimeBounds(candles: seq<Candle>) returns (issues: seq<Issue>)
    ensures issues == [] <==> forall i | 0 <= i < |candles| :: candles[i].openTime < candles[i].closeTime
    ensures forall issue :: issue in issues <==> exists i :: 0 <= i < |candles| && BoundsIssue(candles[i], issue)
  {
    issues := [];
    for i := 0 to |candles|
      invariant forall issue :: issue in issues <==> exists j :: 0 <= j < i && BoundsIssue(candles[j], issue)
      invariant issues == [] <==> forall j | 0 <= j < i :: candles[j].openTime < candles[j].closeTime
    {
      if candles[i].closeTime <= candles[i].openTime {
        issues := issues + [INVALID_TIME_BOUNDS(candles[i].openTime)];
      }
    }
  }

  predicate OpensNoLater(a: Candle, b: Candle) {
    a.openTime <= b.openTime
  }

  /** The candle after number j is not one step later. */
  predicate OffStep(candles: seq<Candle>, j: int, step: Option<int>, issue: Issue)
    requires 0 <= j < |candles| - 1
  {
    && step != Some(candles[j + 1].openTime - candles[j].openTime)
    && issue == MISSING_OR_IRREGULAR_CANDLE(candles[j + 1].openTime)
  }

  predicate StepIssue(candles: seq<Candle>, step: Option<int>, issue: Issue) {
    exists j :: 0 <= j < |candles| - 1 && OffStep(candles, j, step, issue)
  }

  method CheckSteps(sorted: seq<Candle>, expectedStep: Option<int>) returns (issues: seq<Issue>)
    ensures issues == [] <==> EvenlySpaced(sorted, expectedStep)
    ensures forall issue :: issue in issues <==> StepIssue(sorted, expectedStep, issue)
  {
    issues := [];
    var i := 1;
    while i < |sorted|
      invariant 1 <= i && (i <= |sorted| || i == 1)
      invariant forall issue :: issue in issues <==> exists j :: 0 <= j < i - 1 && OffStep(sorted, j, expectedStep, issue)
      invariant issues == [] <==>
        forall j | 0 <= j < i - 1 :: expectedStep == Some(sorted[j + 1].openTime - sorted[j].openTime)
    {
      var previous, current := sorted[i - 1], sorted[i];
      var actualStep := current.openTime - previous.openTime;
      assert OffStep(sorted, i - 1, expectedStep, MISSING_OR_IRREGULAR_CANDLE(current.openTime)) <==> Some(actualStep) != expectedStep;
      if Some(actualStep) != expectedStep {
        issues := issues + [MISSING_OR_IRREGULAR_CANDLE(current.openTime)];
      }
      i := i + 1;
    }
  }

  method CheckMissingCandles(candles: seq<Candle>, timeframe: Timeframe) returns (issues: seq<Issue>)
    ensures issues == [] <==> EvenlySpaced(Sort(candles, OpensNoLater), TimeframeToDelta(timeframe))
    ensures forall issue :: issue in issues <==> StepIssue(Sort(candles, OpensNoLater), TimeframeToDelta(timeframe), issue)
  {
    hide StepIssue, EvenlySpaced, Sort;
    issues := CheckSteps(Sort(candles, OpensNoLater), TimeframeToDelta(timeframe));
  }

  predicate PageIssue(candles: seq<Candle>, timeframe: Timeframe, issue: Issue) {
    if candles == [] then issue == EMPTY_CANDLE_LIST
    else
      || SortingIssue(candles, issue)
      || DuplicateIssue(candles, issue)
      || StepIssue(Sort(candles, OpensNoLater), TimeframeToDelta(timeframe), issue)
      || exists i :: 0 <= i < |candles| && (PriceIssue(candles[i], issue) || VolumeIssue(candles[i], issue) || BoundsIssue(candles[i], issue))
  }

  /** A page is accepted exactly when it is acceptable, and reported for exactly what is wrong with it. */
  method Validate(candles: seq<Candle>, timeframe: Timeframe) returns (report: Report)
    ensures report.isValid <==> Acceptable(candles, timeframe)
    ensures report.isValid <==> report.issues == []
    ensures forall issue :: issue in report.issues <==> PageIssue(candles, timeframe, issue)
    ensures report.totalCandles == |candles|
  {
    hide SortingIssue, DuplicateIssue, StepIssue, PriceIssue, VolumeIssue, BoundsIssue, Sort;
    if candles == [] {
      return Report(false, 0, [EMPTY_CANDLE_LIST]);
    }
    var sorting := CheckSorting(candles);
    var duplicates := CheckDuplicates(candles);
    var ohlc := CheckOhlc(candles);
    var volume := CheckVolume(candles);
    var bounds := CheckTimeBounds(candles);
    var missing := CheckMissingCandles(candles, timeframe);
    var issues := sorting + duplicates + ohlc + volume + bounds + missing;
    report := Report(|issues| == 0, |candles|, issues);
    SpacingDecides(candles, timeframe);
  }

  /** For pages in order, the sort of the spacing check changes nothing; and even spacing by a positive
      step implies both order and the absence of duplicates. */
  lemma SpacingDecides(candles: seq<Candle>, timeframe: Timeframe)
    ensures Ordered(candles) && Distinct(candles)
              && EvenlySpaced(Sort(candles, OpensNoLater), TimeframeToDelta(timeframe))
       <==> EvenlySpaced(candles, TimeframeToDelta(timeframe))
  {
    if EvenlySpaced(candles, TimeframeToDelta(timeframe)) {
      SpacedRises(candles, timeframe);
    }
    if Ordered(candles) {
      NeighboursOrderAll(candles);
      SortFixesSorted(candles, OpensNoLater);
    }
  }

  lemma SpacedRises(candles: seq<Candle>, timeframe: Timeframe)
    requires EvenlySpaced(candles, TimeframeToDelta(timeframe))
    ensures Ordered(candles) && Distinct(candles)
  {
    forall i | 0 <= i < |candles| - 1 ensures candles[i].openTime < candles[i + 1].openTime {
      assert TimeframeToDelta(timeframe) == Some(candles[i + 1].openTime - candles[i].openTime);
    }
    RisingNeighboursAreDistinct(candles);
  }

  lemma {:induction false} NeighboursOrderAll(candles: seq<Candle>)
    requires Ordered(candles)
    ensures SortedBy(candles, OpensNoLater)
  {
    if |candles| > 1 {
      var n := |candles| - 1;
      NeighboursOrderAll(candles[..n]);
      forall i | 0 <= i < n ensures candles[i].openTime <= candles[n].openTime {
        assert OpensNoLater(candles[..n][i], candles[..n][n - 1]) || i == n - 1;
        assert candles[n - 1].openTime <= candles[n - 1 + 1].openTime;
      }
    }
  }

  lemma {:induction false} RisingNeighboursAreDistinct(candles: seq<Candle>)
    requires forall i | 0 <= i < |candles| - 1 :: candles[i].openTime < candles[i + 1].openTime
    ensures forall i, j | 0 <= i < j < |candles| :: candles[i].openTime < candles[j].openTime
  {
    if |candles| > 1 {
      var n := |candles| - 1;
      RisingNeighboursAreDistinct(candles[..n]);
      forall i | 0 <= i < n ensures candles[i].openTime < candles[n].openTime {
        assert i < n - 1 ==> candles[..n][i].openTime < candles[..n][n - 1].openTime;
        assert candles[n - 1].openTime < candles[n - 1 + 1].openTime;
      }
    }
  }

  /** The distance between candles that a page must have, in seconds: none will do for weeks and months. */
  lemma StepInSeconds(timeframe: Timeframe, apart: int)
    ensures TimeframeToDelta(timeframe) == Some(apart * 1_000_000) <==>
            apart == match timeframe
                     case ONE_MINUTE => 60
                     case FIVE_MINUTES => 300
                     case FIFTEEN_MINUTES => 900
                     case ONE_HOUR => 3600
                     case FOUR_HOURS => 14400
                     case ONE_DAY => 86400
                     case ONE_WEEK => apart + 1
                     case ONE_MONTH => apart + 1
  {
  }

  /** Weekly and monthly pages of two or more candles are never accepted. */
  lemma NoStepNoPage(candles: seq<Candle>, timeframe: Timeframe)
    requires timeframe.ONE_WEEK? || timeframe.ONE_MONTH?
    ensures Acceptable(candles, timeframe) <==> |candles| == 1 && Sane(candles[0])
  {
    if |candles| > 1 {
      var gap := Some(candles[0 + 1].openTime - candles[0].openTime);
      assert EvenlySpaced(candles, None) ==> None == gap;
    }
  }
}
