/**
 The integrity gate looks at one page at a time.  Which histories a paged and resumed backfill stores in full: those
 whose gaps all fall between two pages.
 */
module BackfillGaps {
  import opened Backfill
  import opened BackfillResume
  import opened Bisect
  import opened Integrity
  import opened Options

  /** The end of the page that begins with candle lo. */
  function PageEnd(job: Job, lo: nat, beyond: nat): nat {
    if lo + job.limit <= beyond then lo + job.limit else beyond
  }

  /** Every page from candle lo on passes the gate. */
  ghost predicate PagesPass(job: Job, lo: nat, beyond: nat)
    requires lo <= beyond <= |job.history| && job.limit > 0
    decreases beyond - lo
  {
    lo == beyond ||
    (var hi := PageEnd(job, lo, beyond);
     Acceptable(job.history[lo..hi], job.timeframe) && PagesPass(job, hi, beyond))
  }

  /** The verdict, a page at a time. */
  lemma FirstPage(job: Job, lo: nat, m: nat, beyond: nat)
    requires lo + m <= beyond <= |job.history| && job.limit > 0
    requires m == if beyond - lo <= job.limit then beyond - lo else job.limit
    ensures m == 0 ==> PagesPass(job, lo, beyond)
    ensures m > 0 ==> (PagesPass(job, lo, beyond)
                       <==> Acceptable(job.history[lo..lo + m], job.timeframe) && PagesPass(job, lo + m, beyond))
    ensures m < job.limit ==> lo + m == beyond && PagesPass(job, lo + m, beyond)
  {
    hide Acceptable;
  }

  /** The run reports how many candles it added and when the last of them opens. */
  predicate Counted(job: Job, r: Run, r': Run, k: nat, k': nat)
    requires StrictlySorted(Times(job.history))
  {
    && k <= k' && First(job) + k' <= |job.history|
    && r'.fetched == r.fetched + (k' - k)
    && r'.lastFetched == if k' > k then Some(job.history[First(job) + k' - 1].openTime) else r.lastFetched
  }

  /** The verdict on all pages to come is the same before and after any part of a run, with outages or without; and a
      run without one reaches the end of the range exactly when they all pass. */
  lemma {:induction false} PagingKeepsVerdict(job: Job, outages: nat -> bool, r: Run, from: int, request: nat, k: nat)
      returns (k': nat)
    requires Proper(job) && job.limit > 0 && HoldsPrefix(job, r.store, k) && NextIs(job, from, First(job) + k)
    ensures First(job) + k <= First(job) + k' <= Beyond(job) <= |job.history|
    ensures HoldsPrefix(job, Paging(job, outages, r, from, request).store, k')
    ensures PagesPass(job, First(job) + k, Beyond(job)) <==> PagesPass(job, First(job) + k', Beyond(job))
    ensures (forall q :: !outages(q)) ==>
              (PagesPass(job, First(job) + k, Beyond(job)) <==> First(job) + k' == Beyond(job))
    ensures Counted(job, r, Paging(job, outages, r, from, request), k, k')
    decreases job.end - from
  {
    hide Acceptable, Stored, Page, StrictlySorted, HoldsPrefix, NextIs, First, Beyond, Apart, Times, PagesPass;
    k' := k;
    PrefixInRange(job, r.store, k);
    if from >= job.end {
      NothingLeftAtEnd(job, from, k);
      FirstPage(job, First(job) + k, 0, Beyond(job));
    } else if !outages(request) {
      PageIsNextStretch(job, from, k);
      var page := Page(job, from);
      FirstPage(job, First(job) + k, |page|, Beyond(job));
      if page != [] && Acceptable(page, job.timeframe) {
        var m := |page|;
        StoringExtendsPrefix(job, r.store, k, m);
        var last := page[m - 1].openTime;
        AfterCandle(job, First(job) + k + m);
        PageOpensFrom(job, from);
        k' := k + m;
        if m >= job.limit {
          var r1 := Run(Stored(r.store, page), Some(last), r.fetched + m, RANGE_DONE);
          k' := PagingKeepsVerdict(job, outages, r1, last + MILLISECOND, request + 1, k + m);
        }
      }
    }
  }

  /** One whole run; it reports the candles it added. */
  lemma RunKeepsVerdict(job: Job, outages: nat -> bool, store: Store, lastFetched: Option<int>, k: nat) returns (k': nat)
    requires Proper(job) && job.limit > 0 && HoldsPrefix(job, store, k)
    ensures First(job) + k <= First(job) + k' <= Beyond(job) <= |job.history|
    ensures HoldsPrefix(job, RunOnce(job, outages, store, lastFetched).store, k')
    ensures PagesPass(job, First(job) + k, Beyond(job)) <==> PagesPass(job, First(job) + k', Beyond(job))
    ensures (forall q :: !outages(q)) ==>
              (PagesPass(job, First(job) + k, Beyond(job)) <==> First(job) + k' == Beyond(job))
    ensures Counted(job, Run(store, lastFetched, 0, RANGE_DONE), RunOnce(job, outages, store, lastFetched), k, k')
  {
    hide HoldsPrefix, NextIs, StrictlySorted, PagesPass, Counted;
    PrefixInRange(job, store, k);
    ResumesAfterPrefix(job, store, k);
    k' := PagingKeepsVerdict(job, outages, Run(store, lastFetched, 0, RANGE_DONE), ResumeAt(store, job), 0, k);
  }

  lemma {:induction false} RunsKeepVerdict(job: Job, runs: seq<nat -> bool>, store: Store, lastFetched: Option<int>, k: nat)
      returns (k': nat)
    requires Proper(job) && job.limit > 0 && HoldsPrefix(job, store, k)
    ensures First(job) + k <= First(job) + k' <= Beyond(job) <= |job.history|
    ensures HoldsPrefix(job, AfterRuns(job, runs, store, lastFetched).store, k')
    ensures PagesPass(job, First(job) + k, Beyond(job)) <==> PagesPass(job, First(job) + k', Beyond(job))
  {
    hide HoldsPrefix, StrictlySorted, RunOnce, PagesPass, First, Beyond, Apart, Times;
    PrefixInRange(job, store, k);
    if |runs| == 0 {
      k' := k;
    } else {
      var init := runs[..|runs| - 1];
      var k1 := RunsKeepVerdict(job, init, store, lastFetched, k);
      var before := AfterRuns(job, init, store, lastFetched);
      k' := RunKeepsVerdict(job, runs[|runs| - 1], before.store, before.lastFetched, k1);
    }
  }

  lemma ShortPrefixIsNotWhole(job: Job, store: Store, k: nat)
    requires Proper(job) && HoldsPrefix(job, store, k) && First(job) + k < Beyond(job)
    ensures First(job) <= Beyond(job) <= |job.history|
    ensures !SameInRange(job, store, Unpaged(job))
  {
    hide StrictlySorted, First, Beyond, Unpaged;
    RangeIsStretch(job);
    UnpagedIsWholePrefix(job);
    var t := job.history[First(job) + k].openTime;
    assert t in Unpaged(job) && job.start <= t <= job.end;
    forall i | First(job) <= i < First(job) + k ensures job.history[i].openTime < t {
      assert job.history[i].openTime + MILLISECOND < job.history[First(job) + k].openTime;
    }
  }

  /** Any number of runs, each broken off anywhere, and then one without an outage store the whole range if and only if
      every page from the prefix on passes the gate: where a run resumes does not move the pages. */
  lemma ResumedIsWholeIff(job: Job, runs: seq<nat -> bool>, clean: nat -> bool, store: Store, lastFetched: Option<int>, k: nat)
    requires Proper(job) && job.limit > 0 && HoldsPrefix(job, store, k) && forall q :: !clean(q)
    ensures First(job) + k <= Beyond(job) <= |job.history|
    ensures SameInRange(job, AfterRuns(job, runs + [clean], store, lastFetched).store, Unpaged(job))
       <==> PagesPass(job, First(job) + k, Beyond(job))
  {
    hide HoldsPrefix, SameInRange, StrictlySorted, RunOnce, Unpaged, PagesPass, First, Beyond, Apart, Times;
    PrefixInRange(job, store, k);
    var all := runs + [clean];
    assert all[..|all| - 1] == runs;
    var k1 := RunsKeepVerdict(job, runs, store, lastFetched, k);
    var before := AfterRuns(job, runs, store, lastFetched);
    var k2 := RunKeepsVerdict(job, clean, before.store, before.lastFetched, k1);
    var r := RunOnce(job, clean, before.store, before.lastFetched);
    assert AfterRuns(job, all, store, lastFetched) == r;
    if First(job) + k2 == Beyond(job) {
      WholePrefixIsUnpaged(job, r.store, k2);
    } else {
      ShortPrefixIsNotWhole(job, r.store, k2);
    }
  }

  // ---------- where the gaps may be ----------

  /** The next candle is not exactly one step of the timeframe later. */
  predicate GapAfter(job: Job, i: nat)
    requires i + 1 < |job.history|
  {
    TimeframeToDelta(job.timeframe) != Some(job.history[i + 1].openTime - job.history[i].openTime)
  }

  predicate AllSane(job: Job, lo: nat, hi: nat)
    requires hi <= |job.history|
  {
    forall i | lo <= i < hi :: Sane(job.history[i])
  }

  /** n candles fill whole pages. */
  predicate WholePages(n: int, limit: nat)
    requires limit > 0
  {
    n % limit == 0
  }

  /** Gaps only after every limit-th candle, counted from lo. */
  predicate GapsBetweenPages(job: Job, lo: nat, beyond: nat)
    requires beyond <= |job.history| && job.limit > 0
  {
    forall i | lo <= i && i + 1 < beyond && GapAfter(job, i) :: WholePages(i + 1 - lo, job.limit)
  }

  lemma PageAcceptedIff(job: Job, lo: nat, hi: nat)
    requires lo < hi <= |job.history|
    ensures Acceptable(job.history[lo..hi], job.timeframe)
       <==> AllSane(job, lo, hi) && forall i | lo <= i && i + 1 < hi :: !GapAfter(job, i)
  {
    hide Sane, TimeframeToDelta;
    var page := job.history[lo..hi];
    assert forall i | lo <= i < hi :: page[i - lo] == job.history[i];
    if Acceptable(page, job.timeframe) {
      forall i | lo <= i && i + 1 < hi ensures !GapAfter(job, i) {
        assert TimeframeToDelta(job.timeframe) == Some(page[i - lo + 1].openTime - page[i - lo].openTime);
      }
      forall i | lo <= i < hi ensures Sane(job.history[i]) { assert Sane(page[i - lo]); }
    }
    if AllSane(job, lo, hi) && forall i | lo <= i && i + 1 < hi :: !GapAfter(job, i) {
      forall j | 0 <= j < |page| - 1
        ensures TimeframeToDelta(job.timeframe) == Some(page[j + 1].openTime - page[j].openTime)
      {
        assert !GapAfter(job, lo + j);
      }
    }
  }

  lemma OnePageMore(n: int, limit: nat)
    requires limit > 0
    ensures WholePages(n + limit, limit) <==> WholePages(n, limit)
    ensures 0 < n < limit ==> !WholePages(n, limit)
    ensures WholePages(limit, limit)
  {
    var q, m := n / limit, n % limit;
    assert n + limit == (q + 1) * limit + m;
    QuotientOf(n + limit, limit, q + 1, m);
  }

  lemma QuotientOf(n: int, d: nat, q: int, m: nat)
    requires d > 0 && n == q * d + m && m < d
    ensures n % d == m
  {
    var q', m' := n / d, n % d;
    assert n == q' * d + m';
    assert (q - q') * d == q * d - q' * d;
    Multiple(q - q', d);
  }

  lemma Multiple(k: int, d: nat)
    requires d > 0
    ensures k > 0 ==> k * d >= d
    ensures k < 0 ==> k * d + d <= 0
  {
  }

  /** Where candle i lies, counted from the first page and from the second. */
  lemma PagesCounted(limit: nat, lo: nat, hi: nat, i: nat)
    requires limit > 0 && lo <= i && hi <= lo + limit
    ensures i + 1 < hi ==> !WholePages(i + 1 - lo, limit)
    ensures hi == lo + limit ==>
              && (i + 1 == hi ==> WholePages(i + 1 - lo, limit))
              && (WholePages(i + 1 - lo, limit) <==> WholePages(i + 1 - hi, limit))
  {
    hide WholePages;
    OnePageMore(i + 1 - lo, limit);
    OnePageMore(i + 1 - hi, limit);
  }

  /** Gaps between pages from lo on: none within the first page, and between pages from its end on. */
  lemma GapsSplit(job: Job, lo: nat, beyond: nat)
    requires lo < beyond <= |job.history| && job.limit > 0
    ensures var hi := PageEnd(job, lo, beyond);
            GapsBetweenPages(job, lo, beyond)
            <==> (forall i | lo <= i && i + 1 < hi :: !GapAfter(job, i)) && GapsBetweenPages(job, hi, beyond)
  {
    hide GapAfter, WholePages;
    var hi := PageEnd(job, lo, beyond);
    if GapsBetweenPages(job, lo, beyond) {
      forall i | lo <= i && i + 1 < hi ensures !GapAfter(job, i) {
        PagesCounted(job.limit, lo, hi, i);
      }
      forall i | hi <= i && i + 1 < beyond && GapAfter(job, i) ensures WholePages(i + 1 - hi, job.limit) {
        PagesCounted(job.limit, lo, hi, i);
      }
    }
    if (forall i | lo <= i && i + 1 < hi :: !GapAfter(job, i)) && GapsBetweenPages(job, hi, beyond) {
      forall i | lo <= i && i + 1 < beyond && GapAfter(job, i) ensures WholePages(i + 1 - lo, job.limit) {
        PagesCounted(job.limit, lo, hi, i);
      }
    }
  }

  lemma SaneSplit(job: Job, lo: nat, hi: nat, beyond: nat)
    requires lo <= hi <= beyond <= |job.history|
    ensures AllSane(job, lo, beyond) <==> AllSane(job, lo, hi) && AllSane(job, hi, beyond)
  {
    hide Sane;
  }

  /** Every page passes if and only if every candle is sane and every gap falls between two pages. */
  lemma {:induction false} PagesPassIff(job: Job, lo: nat, beyond: nat)
    requires lo <= beyond <= |job.history| && job.limit > 0
    ensures PagesPass(job, lo, beyond) <==> AllSane(job, lo, beyond) && GapsBetweenPages(job, lo, beyond)
    decreases beyond - lo
  {
    hide Acceptable, AllSane, GapsBetweenPages, GapAfter;
    if lo == beyond {
      NothingToPass(job, lo);
    } else {
      var hi := PageEnd(job, lo, beyond);
      PagesPassIff(job, hi, beyond);
      PageAcceptedIff(job, lo, hi);
      GapsSplit(job, lo, beyond);
      SaneSplit(job, lo, hi, beyond);
    }
  }

  lemma NothingToPass(job: Job, lo: nat)
    requires lo <= |job.history| && job.limit > 0
    ensures AllSane(job, lo, lo) && GapsBetweenPages(job, lo, lo)
  {
  }

  /** What a single unpaged request would pass. */
  lemma UnpagedPassesIff(job: Job)
    requires Proper(job)
    ensures First(job) <= Beyond(job) <= |job.history|
    ensures First(job) < Beyond(job) ==>
              (Acceptable(job.history[First(job)..Beyond(job)], job.timeframe)
               <==> AllSane(job, First(job), Beyond(job))
                    && forall i | First(job) <= i && i + 1 < Beyond(job) :: !GapAfter(job, i))
  {
    hide Acceptable, StrictlySorted, First, Beyond;
    RangeIsStretch(job);
    if First(job) < Beyond(job) { PageAcceptedIff(job, First(job), Beyond(job)); }
  }

  /** The gate is meant to keep histories with gaps out.  From an empty range, a backfill stores one all the same if and
      only if every candle is sane and its gaps fall between two pages: no matter at which requests it was broken off
      and resumed. */
  lemma GapsSlipThroughIff(job: Job, runs: seq<nat -> bool>, clean: nat -> bool, store: Store, lastFetched: Option<int>)
    requires Proper(job) && job.limit > 0 && HoldsPrefix(job, store, 0) && forall q :: !clean(q)
    ensures First(job) <= Beyond(job) <= |job.history|
    ensures First(job) < Beyond(job) ==>
              (SameInRange(job, AfterRuns(job, runs + [clean], store, lastFetched).store, Unpaged(job))
               && !Acceptable(job.history[First(job)..Beyond(job)], job.timeframe)
               <==> AllSane(job, First(job), Beyond(job)) && GapsBetweenPages(job, First(job), Beyond(job))
                    && exists i :: First(job) <= i && i + 1 < Beyond(job) && GapAfter(job, i))
  {
    hide Acceptable, StrictlySorted, First, Beyond, HoldsPrefix, SameInRange, AfterRuns, PagesPass, Unpaged, AllSane,
         GapsBetweenPages, GapAfter;
    ResumedIsWholeIff(job, runs, clean, store, lastFetched, 0);
    PagesPassIff(job, First(job), Beyond(job));
    UnpagedPassesIff(job);
  }

  // ---------- a missing minute ----------

  function MinuteCandle(minute: int): Candle {
    Candle("X", "S", minute * MINUTE, minute * MINUTE + MINUTE, 1.0, 1.0, 1.0, 1.0, 0.0, None)
  }

  /** Minute 2 is missing, between the first page of two candles and the second. */
  const GAPPED := Job([MinuteCandle(0), MinuteCandle(1), MinuteCandle(3), MinuteCandle(4)], ONE_MINUTE, 0, 5 * MINUTE, 2)

  lemma GappedIsWholeRange()
    ensures Proper(GAPPED) && First(GAPPED) == 0 && Beyond(GAPPED) == 4 && |GAPPED.history| == 4
  {
    hide First, Beyond;
    assert Apart(GAPPED.history);
    assert Proper(GAPPED);
    RangeIsStretch(GAPPED);
    assert GAPPED.start <= GAPPED.history[0].openTime <= GAPPED.end;
    assert GAPPED.start <= GAPPED.history[3].openTime <= GAPPED.end;
  }

  /** For instance: two pages of two candles are stored, though the candle between them is missing. */
  lemma MissingMinuteSlipsThrough(clean: nat -> bool)
    requires forall q :: !clean(q)
    ensures Proper(GAPPED) && First(GAPPED) == 0 && Beyond(GAPPED) == 4 && |GAPPED.history| == 4
    ensures SameInRange(GAPPED, AfterRuns(GAPPED, [clean], map[], None).store, Unpaged(GAPPED))
    ensures !Acceptable(GAPPED.history, ONE_MINUTE)
  {
    hide First, Beyond, Acceptable, SameInRange, AfterRuns, Unpaged, WholePages, StrictlySorted;
    GappedIsWholeRange();
    assert HoldsPrefix(GAPPED, map[], 0);
    assert [] + [clean] == [clean];
    GapsSlipThroughIff(GAPPED, [], clean, map[], None);
    assert GapAfter(GAPPED, 1) && !GapAfter(GAPPED, 0) && !GapAfter(GAPPED, 2);
    OnePageMore(0, 2);
    assert GapsBetweenPages(GAPPED, 0, 4);
    assert AllSane(GAPPED, 0, 4);
    assert GAPPED.history[0..4] == GAPPED.history;
  }
}
