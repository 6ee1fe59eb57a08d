/**
 The resumable backfill: pages of candles are fetched from where the store ends, pass the
 integrity gate, and are stored; any run may break off, and a later one picks up.
 */
module Backfill {
  import opened Bisect
  import opened Integrity
  import opened Options

  const MILLISECOND := 1000

  /** What a run is asked for, and the true history of the market behind the provider. */
  datatype Job = Job(history: seq<Candle>, timeframe: Timeframe, start: int, end: int, limit: nat)

  /** Candles in order, each more than a millisecond after the one before. */
  predicate Apart(history: seq<Candle>) {
    forall i, j | 0 <= i < j < |history| :: history[i].openTime + MILLISECOND < history[j].openTime
  }

  function Times(history: seq<Candle>): seq<int> {
    seq(|history|, i requires 0 <= i < |history| => history[i].openTime)
  }

  /** Candles of one series by open time, as the database keeps them. */
  type Store = map<int, Candle>

  // ---------- the provider ----------

  /** The first `limit` candles of the history that open within [from, end]. */
  function Page(job: Job, from: int): seq<Candle>
    requires StrictlySorted(Times(job.history))
  {
    var lo := BisectLeft(Times(job.history), from);
    var hi := BisectRight(Times(job.history), job.end);
    if hi <= lo then []
    else if hi - lo <= job.limit then job.history[lo..hi]
    else job.history[lo..lo + job.limit]
  }

  // ---------- one run ----------

  datatype Outcome =
    | PROVIDER_FAILED
    | NOTHING_MORE
    | PAGE_REJECTED
    | SHORT_PAGE
    | RANGE_DONE

  datatype Run = Run(store: Store, lastFetched: Option<int>, fetched: nat, outcome: Outcome)

  function Stored(store: Store, page: seq<Candle>): Store {
    if |page| == 0 then store
    else Stored(store, page[..|page| - 1])[page[|page| - 1].openTime := page[|page| - 1]]
  }

  ghost function TimesIn(store: Store, start: int, end: int): set<int> {
    set time | time in store && start <= time <= end
  }

  /** Where a run begins: a millisecond after the last stored candle of the range. */
  ghost function ResumeAt(store: Store, job: Job): int {
    var times := Ascending(TimesIn(store, job.start, job.end));
    if times == [] then job.start else times[|times| - 1] + MILLISECOND
  }

  /** The paging loop from `from` on; `outages` tells at which requests the provider fails. */
  function Paging(job: Job, outages: nat -> bool, r: Run, from: int, request: nat): Run
    requires StrictlySorted(Times(job.history))
    decreases job.end - from
  {
    if from >= job.end then r.(outcome := RANGE_DONE)
    else if outages(request) then r.(outcome := PROVIDER_FAILED)
    else
      var page := Page(job, from);
      if page == [] then r.(outcome := NOTHING_MORE)
      else if !Acceptable(page, job.timeframe) then r.(outcome := PAGE_REJECTED)
      else
        var last := page[|page| - 1].openTime;
        var r' := Run(Stored(r.store, page), Some(last), r.fetched + |page|, RANGE_DONE);
        PageOpensFrom(job, from);
        if |page| < job.limit then r'.(outcome := SHORT_PAGE)
        else Paging(job, outages, r', last + MILLISECOND, request + 1)
  }

  ghost function RunOnce(job: Job, outages: nat -> bool, store: Store, lastFetched: Option<int>): Run
    requires StrictlySorted(Times(job.history))
  {
    Paging(job, outages, Run(store, lastFetched, 0, RANGE_DONE), ResumeAt(store, job), 0)
  }

  lemma PageOpensFrom(job: Job, from: int)
    requires StrictlySorted(Times(job.history))
    ensures forall i | 0 <= i < |Page(job, from)| :: from <= Page(job, from)[i].openTime <= job.end
  {
    var lo := BisectLeft(Times(job.history), from);
    forall i | 0 <= i < |Page(job, from)| ensures from <= Page(job, from)[i].openTime <= job.end {
      assert Page(job, from)[i] == job.history[lo + i];
      assert Times(job.history)[lo + i] == job.history[lo + i].openTime;
    }
  }

  // ---------- the service ----------

  class HistoricalFetcherService {
    var candles: Store
    var lastFetchedAt: Option<int>

    constructor ()
      ensures candles == map[] && lastFetchedAt == None
    {
      candles, lastFetchedAt := map[], None;
    }

    /** The store's query for the latest candle of the range. */
    method LatestIn(start: int, end: int) returns (latest: Option<int>)
      ensures var times := Ascending(TimesIn(candles, start, end));
              latest == if times == [] then None else Some(times[|times| - 1])
    {
      var rest := set time | time in candles && start <= time <= end;
      latest := None;
      while rest != {}
        invariant rest <= TimesIn(candles, start, end)
        invariant latest.Some? ==> latest.value in TimesIn(candles, start, end)
        invariant forall time | time in TimesIn(candles, start, end) ::
                    time in rest || (latest.Some? && time <= latest.value)
        decreases rest
      {
        HasMember(rest);
        var time :| time in rest;
        if latest.None? || time > latest.value {
          latest := Some(time);
        }
        rest := rest - {time};
      }
      if latest.Some? {
        GreatestIsLast(TimesIn(candles, start, end), latest.value);
      } else {
        assert TimesIn(candles, start, end) == {};
      }
    }

    method BulkUpsert(page: seq<Candle>) returns (rows: nat)
      modifies this`candles
      ensures candles == Stored(old(candles), page) && rows == |page|
    {
      for i := 0 to |page|
        invariant candles == Stored(old(candles), page[..i])
      {
        assert page[..i + 1][..i] == page[..i];
        candles := candles[page[i].openTime := page[i]];
      }
      assert page[..|page|] == page;
      rows := |page|;
    }

    method FetchAndStoreRange(job: Job, outages: nat -> bool) returns (fetched: nat, outcome: Outcome)
      requires StrictlySorted(Times(job.history))
      modifies this
      ensures Run(candles, lastFetchedAt, fetched, outcome) == RunOnce(job, outages, old(candles), old(lastFetchedAt))
    {
      hide Acceptable, Page, StrictlySorted, Times, Ascending;
      var latest := LatestIn(job.start, job.end);
      var currentStart := if latest.Some? then latest.value + MILLISECOND else job.start;
      fetched := 0;
      outcome := RANGE_DONE;
      var request: nat := 0;
      ghost var whole := RunOnce(job, outages, candles, lastFetchedAt);
      while currentStart < job.end
        invariant outcome == RANGE_DONE
        invariant Paging(job, outages, Run(candles, lastFetchedAt, fetched, outcome), currentStart, request) == whole
        decreases job.end - currentStart
      {
        if outages(request) {
          return fetched, PROVIDER_FAILED;
        }
        var page := Page(job, currentStart);
        if page == [] {
          return fetched, NOTHING_MORE;
        }
        var checker := Validate(page, job.timeframe);
        if !checker.isValid {
          return fetched, PAGE_REJECTED;
        }
        var processed := BulkUpsert(page);
        fetched := fetched + |page|;
        var lastCandleTime := page[|page| - 1].openTime;
        PageOpensFrom(job, currentStart);
        lastFetchedAt := Some(lastCandleTime);
        if |page| < job.limit {
          return fetched, SHORT_PAGE;
        }
        currentStart := lastCandleTime + MILLISECOND;
        request := request + 1;
      }
    }
  }
}
