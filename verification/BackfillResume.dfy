/**
 What resuming amounts to: against a gap-free history, the stored part of the range stays a
 prefix of it however a run ends, and a run that is not cut short completes it.
 */
module BackfillResume {
  import opened Backfill
  import opened Bisect
  import opened Integrity
  import opened Options

  lemma ApartIsSorted(history: seq<Candle>)
    requires Apart(history)
    ensures StrictlySorted(Times(history))
  {
  }

  /** A job with a range that is not empty, over a history whose candles are apart. */
  ghost predicate Proper(job: Job): (proper: bool)
    ensures proper ==> StrictlySorted(Times(job.history))
  {
    job.start < job.end && Apart(job.history) && (ApartIsSorted(job.history); true)
  }

  /** The range as a stretch of the history. */
  function First(job: Job): nat
    requires StrictlySorted(Times(job.history))
  {
    BisectLeft(Times(job.history), job.start)
  }

  function Beyond(job: Job): nat
    requires StrictlySorted(Times(job.history))
  {
    BisectRight(Times(job.history), job.end)
  }

  lemma RangeIsStretch(job: Job)
    requires Proper(job)
    ensures First(job) <= Beyond(job) <= |job.history|
    ensures forall i | 0 <= i < |job.history| :: First(job) <= i < Beyond(job) <==> job.start <= job.history[i].openTime <= job.end
  {
    var ts := Times(job.history);
    forall i | 0 <= i < |ts|
      ensures First(job) <= i < Beyond(job) <==> job.start <= job.history[i].openTime <= job.end
    {
      assert ts[i] == job.history[i].openTime;
    }
    assert Beyond(job) < |ts| ==> ts[Beyond(job)] > job.end;
  }

  /** Of the range, the store holds exactly the first k candles. */
  ghost predicate HoldsPrefix(job: Job, store: Store, k: nat)
    requires StrictlySorted(Times(job.history))
  {
    && First(job) + k <= Beyond(job) <= |job.history|
    && (forall i | First(job) <= i < First(job) + k ::
          job.history[i].openTime in store && store[job.history[i].openTime] == job.history[i])
    && (forall time | time in store && job.start <= time <= job.end ::
          exists i :: First(job) <= i < First(job) + k && job.history[i].openTime == time)
  }

  ghost predicate SameOutside(job: Job, s: Store, s': Store) {
    forall time | !(job.start <= time <= job.end) :: (time in s <==> time in s') && (time in s ==> s[time] == s'[time])
  }

  // ---------- where a run resumes ----------

  /** The next candle to fetch is number n of the history. */
  ghost predicate NextIs(job: Job, from: int, n: nat)
    requires StrictlySorted(Times(job.history))
  {
    && BisectLeft(Times(job.history), from) == n
    && (from < job.end || (0 < n <= |job.history| && from == job.history[n - 1].openTime + MILLISECOND))
  }

  /** What bisecting for `from` finds, in terms of the candles. */
  lemma BisectSplits(job: Job, from: int, n: nat)
    requires StrictlySorted(Times(job.history))
    requires n <= |job.history|
    requires forall i | 0 <= i < n :: job.history[i].openTime < from
    requires forall i | n <= i < |job.history| :: from <= job.history[i].openTime
    ensures BisectLeft(Times(job.history), from) == n
  {
    var ts := Times(job.history);
    var r := BisectLeft(ts, from);
    forall i | 0 <= i < |ts| ensures ts[i] < from <==> i < n {
      assert ts[i] == job.history[i].openTime;
    }
    var atR, atN := if r < |ts| then ts[r] else 0, if n < |ts| then ts[n] else 0;
  }

  lemma AfterCandle(job: Job, n: nat)
    requires Proper(job) && 0 < n <= |job.history|
    ensures NextIs(job, job.history[n - 1].openTime + MILLISECOND, n)
  {
    BisectSplits(job, job.history[n - 1].openTime + MILLISECOND, n);
  }

  lemma StartIsNext(job: Job)
    requires Proper(job)
    ensures NextIs(job, job.start, First(job))
  {
  }

  lemma LatestOfPrefix(job: Job, store: Store, k: nat)
    requires Proper(job) && HoldsPrefix(job, store, k) && k > 0
    ensures ResumeAt(store, job) == job.history[First(job) + k - 1].openTime + MILLISECOND
  {
    hide StrictlySorted, First, Beyond, Ascending;
    var times := TimesIn(store, job.start, job.end);
    RangeIsStretch(job);
    var t := job.history[First(job) + k - 1].openTime;
    assert t in times;
    forall y | y in times ensures y <= t {
      var i :| First(job) <= i < First(job) + k && job.history[i].openTime == y;
    }
    GreatestIsLast(times, t);
  }

  lemma ResumesAfterPrefix(job: Job, store: Store, k: nat)
    requires Proper(job) && HoldsPrefix(job, store, k)
    ensures NextIs(job, ResumeAt(store, job), First(job) + k)
  {
    hide StrictlySorted, First, Beyond, NextIs;
    RangeIsStretch(job);
    if k == 0 {
      StartIsNext(job);
      assert TimesIn(store, job.start, job.end) == {};
    } else {
      LatestOfPrefix(job, store, k);
      AfterCandle(job, First(job) + k);
    }
  }

  // ---------- storing a page ----------

  /** `time` opens one of the page's candles. */
  predicate Opens(page: seq<Candle>, time: int) {
    exists i :: 0 <= i < |page| && page[i].openTime == time
  }

  lemma {:induction false} StoredKeys(store: Store, page: seq<Candle>, time: int)
    ensures time in Stored(store, page) <==> Opens(page, time) || time in store
    ensures !Opens(page, time) && time in store ==> Stored(store, page)[time] == store[time]
  {
    if |page| > 0 {
      var init, last := page[..|page| - 1], page[|page| - 1];
      StoredKeys(store, init, time);
      assert Opens(page, time) <==> Opens(init, time) || last.openTime == time by {
        if Opens(init, time) {
          var i :| 0 <= i < |init| && init[i].openTime == time;
          assert page[i].openTime == time;
        }
        if last.openTime == time { assert page[|page| - 1].openTime == time; }
      }
    }
  }

  lemma {:induction false} StoredCandle(store: Store, page: seq<Candle>, i: nat)
    requires i < |page| && forall j | i < j < |page| :: page[j].openTime != page[i].openTime
    ensures page[i].openTime in Stored(store, page) && Stored(store, page)[page[i].openTime] == page[i]
  {
    if i < |page| - 1 {
      StoredCandle(store, page[..|page| - 1], i);
      assert page[|page| - 1].openTime != page[i].openTime;
    }
  }

  lemma StretchStored(job: Job, store: Store, lo: nat, m: nat)
    requires Proper(job) && lo + m <= |job.history|
    ensures var store' := Stored(store, job.history[lo..lo + m]);
            && (forall i | lo <= i < lo + m ::
                  job.history[i].openTime in store' && store'[job.history[i].openTime] == job.history[i])
            && (forall time | time in store :: time in store')
            && (forall time | time in store' ::
                  (exists i :: lo <= i < lo + m && job.history[i].openTime == time)
                  || (time in store && store'[time] == store[time]))
  {
    hide StrictlySorted, Stored;
    var page := job.history[lo..lo + m];
    var store' := Stored(store, page);
    forall i | lo <= i < lo + m
      ensures job.history[i].openTime in store' && store'[job.history[i].openTime] == job.history[i]
    {
      assert page[i - lo] == job.history[i];
      StoredCandle(store, page, i - lo);
    }
    forall time
      ensures time in store ==> time in store'
      ensures time in store' ==>
                (exists i :: lo <= i < lo + m && job.history[i].openTime == time)
                || (time in store && store'[time] == store[time])
    {
      StoredKeys(store, page, time);
      if Opens(page, time) {
        var j :| 0 <= j < |page| && page[j].openTime == time;
        assert job.history[lo + j].openTime == time;
      }
    }
  }

  lemma PrefixGrows(job: Job, store: Store, store': Store, k: nat, m: nat)
    requires Proper(job) && HoldsPrefix(job, store, k) && First(job) + k + m <= Beyond(job)
    requires forall i | First(job) + k <= i < First(job) + k + m ::
               job.history[i].openTime in store' && store'[job.history[i].openTime] == job.history[i]
    requires forall time | time in store :: time in store'
    requires forall time | time in store' ::
               (exists i :: First(job) + k <= i < First(job) + k + m && job.history[i].openTime == time)
               || (time in store && store'[time] == store[time])
    ensures HoldsPrefix(job, store', k + m)
  {
    hide StrictlySorted, First, Beyond;
    var lo := First(job) + k;
    forall i | First(job) <= i < lo
      ensures job.history[i].openTime in store' && store'[job.history[i].openTime] == job.history[i]
    {
      assert forall j | lo <= j < lo + m :: job.history[i].openTime < job.history[j].openTime;
    }
    forall time | time in store' && job.start <= time <= job.end
      ensures exists i :: First(job) <= i < lo + m && job.history[i].openTime == time
    {
      if !exists i :: lo <= i < lo + m && job.history[i].openTime == time {
        var i :| First(job) <= i < First(job) + k && job.history[i].openTime == time;
      }
    }
  }

  /** A stretch of the history that continues the prefix extends it. */
  lemma StoringExtendsPrefix(job: Job, store: Store, k: nat, m: nat)
    requires Proper(job) && HoldsPrefix(job, store, k) && First(job) + k + m <= Beyond(job)
    ensures var store' := Stored(store, job.history[First(job) + k..First(job) + k + m]);
            HoldsPrefix(job, store', k + m) && SameOutside(job, store, store')
  {
    hide StrictlySorted, Stored, First, Beyond, SameOutside, HoldsPrefix, Apart, Times;
    RangeIsStretch(job);
    var lo := First(job) + k;
    StretchStored(job, store, lo, m);
    var store' := Stored(store, job.history[lo..lo + m]);
    PrefixGrows(job, store, store', k, m);
    OutsideUntouched(job, store, store', lo, m);
  }

  lemma OutsideUntouched(job: Job, store: Store, store': Store, lo: nat, m: nat)
    requires Proper(job) && First(job) <= lo && lo + m <= Beyond(job) <= |job.history|
    requires forall time | time in store :: time in store'
    requires forall time | time in store' ::
               (exists i :: lo <= i < lo + m && job.history[i].openTime == time)
               || (time in store && store'[time] == store[time])
    ensures SameOutside(job, store, store')
  {
    hide StrictlySorted, First, Beyond;
    RangeIsStretch(job);
  }

  // ---------- one run ----------

  predicate Completes(outcome: Outcome) {
    outcome.NOTHING_MORE? || outcome.SHORT_PAGE? || outcome.RANGE_DONE?
  }

  /** The range holds nothing to reject, and its timeframe has the history's step. */
  ghost predicate Wholesome(job: Job)
    requires StrictlySorted(Times(job.history))
  {
    && EvenlySpaced(job.history, TimeframeToDelta(job.timeframe))
    && forall i | First(job) <= i < Beyond(job) && i < |job.history| :: Sane(job.history[i])
  }

  /** The page fetched after a prefix is the next stretch of the range, `limit` long if that much is left. */
  lemma PageIsNextStretch(job: Job, from: int, k: nat)
    requires Proper(job) && NextIs(job, from, First(job) + k) && First(job) + k <= Beyond(job)
    ensures var left := Beyond(job) - (First(job) + k);
            var m := if left <= job.limit then left else job.limit;
            Beyond(job) <= |job.history| && Page(job, from) == job.history[First(job) + k..First(job) + k + m]
  {
    RangeIsStretch(job);
  }

  lemma StretchIsAcceptable(history: seq<Candle>, lo: nat, m: nat, timeframe: Timeframe)
    requires lo + m <= |history| && m > 0
    requires EvenlySpaced(history, TimeframeToDelta(timeframe))
    requires forall i | lo <= i < lo + m :: Sane(history[i])
    ensures Acceptable(history[lo..lo + m], timeframe)
  {
    hide Sane, TimeframeToDelta;
    var page := history[lo..lo + m];
    assert forall i | 0 <= i < m :: page[i] == history[lo + i];
    forall i | 0 <= i < |page| - 1
      ensures TimeframeToDelta(timeframe) == Some(page[i + 1].openTime - page[i].openTime)
    {
      assert page[i + 1] == history[(lo + i) + 1];
    }
  }

  lemma WholesomePageAccepted(job: Job, lo: nat, m: nat)
    requires Proper(job) && Wholesome(job) && First(job) <= lo && lo + m <= Beyond(job) <= |job.history| && m > 0
    ensures Acceptable(job.history[lo..lo + m], job.timeframe)
  {
    hide Sane, EvenlySpaced, Acceptable, StrictlySorted, First, Beyond, TimeframeToDelta, Times, Apart;
    StretchIsAcceptable(job.history, lo, m, job.timeframe);
  }

  /** What holds when the paging loop ends with run r', having begun on a prefix of k candles. */
  ghost predicate Ended(job: Job, outages: nat -> bool, before: Store, r': Run, k: nat, k': nat)
    requires StrictlySorted(Times(job.history))
  {
    && k <= k' && HoldsPrefix(job, r'.store, k') && SameOutside(job, before, r'.store)
    && (Completes(r'.outcome) && job.limit > 0 ==> First(job) + k' == Beyond(job))
    && (Wholesome(job) && (forall q :: !outages(q)) ==> Completes(r'.outcome))
  }

  /** However the loop ends, the store holds a prefix at least as long as before and nothing else has
      changed; an end that completes leaves the whole range; and only an outage or a rejected page
      ends it otherwise. */
  lemma {:induction false} PagingKeepsPrefix(job: Job, outages: nat -> bool, r: Run, from: int, request: nat, k: nat)
      returns (k': nat)
    requires Proper(job) && HoldsPrefix(job, r.store, k) && NextIs(job, from, First(job) + k)
    ensures Ended(job, outages, r.store, Paging(job, outages, r, from, request), k, k')
    decreases job.end - from
  {
    hide Acceptable, Stored, Page, StrictlySorted, HoldsPrefix, SameOutside, NextIs, Wholesome, First, Beyond, Apart, Times;
    k' := k;
    PrefixInRange(job, r.store, k);
    if from >= job.end {
      NothingLeftAtEnd(job, from, k);
    } else if !outages(request) {
      PageIsNextStretch(job, from, k);
      var page := Page(job, from);
      if page != [] && Acceptable(page, job.timeframe) {
        var m := |page|;
        StoringExtendsPrefix(job, r.store, k, m);
        var last := page[m - 1].openTime;
        AfterCandle(job, First(job) + k + m);
        PageOpensFrom(job, from);
        k' := k + m;
        if m >= job.limit {
          var r1 := Run(Stored(r.store, page), Some(last), r.fetched + m, RANGE_DONE);
          k' := PagingKeepsPrefix(job, outages, r1, last + MILLISECOND, request + 1, k + m);
          SameOutsideChains(job, r.store, r1.store, Paging(job, outages, r1, last + MILLISECOND, request + 1).store);
        }
      } else if page != [] {
        RejectedIsUnwholesome(job, First(job) + k, |page|);
      }
    }
  }

  lemma PrefixInRange(job: Job, store: Store, k: nat)
    requires Proper(job) && HoldsPrefix(job, store, k)
    ensures First(job) + k <= Beyond(job) <= |job.history|
    ensures SameOutside(job, store, store)
  {
  }

  lemma SameOutsideChains(job: Job, a: Store, b: Store, c: Store)
    requires SameOutside(job, a, b) && SameOutside(job, b, c)
    ensures SameOutside(job, a, c)
  {
  }

  lemma RejectedIsUnwholesome(job: Job, lo: nat, m: nat)
    requires Proper(job) && First(job) <= lo && lo + m <= Beyond(job) <= |job.history| && m > 0
    requires !Acceptable(job.history[lo..lo + m], job.timeframe)
    ensures !Wholesome(job)
  {
    hide Acceptable;
    if Wholesome(job) { WholesomePageAccepted(job, lo, m); }
  }

  lemma NothingLeftAtEnd(job: Job, from: int, k: nat)
    requires Proper(job) && NextIs(job, from, First(job) + k) && from >= job.end && First(job) + k <= Beyond(job)
    ensures First(job) + k == Beyond(job)
  {
    hide BisectLeft, BisectRight;
    RangeIsStretch(job);
    var n := First(job) + k;
    var last := job.history[n - 1].openTime;
    var next := if n < |job.history| then job.history[n].openTime else job.end;
    assert n < Beyond(job) ==> last + MILLISECOND < next <= job.end;
  }

  /** One whole run, resuming after what is stored. */
  lemma RunKeepsPrefix(job: Job, outages: nat -> bool, store: Store, lastFetched: Option<int>, k: nat) returns (k': nat)
    requires Proper(job) && HoldsPrefix(job, store, k)
    ensures Ended(job, outages, store, RunOnce(job, outages, store, lastFetched), k, k')
  {
    hide HoldsPrefix, NextIs, StrictlySorted;
    ResumesAfterPrefix(job, store, k);
    k' := PagingKeepsPrefix(job, outages, Run(store, lastFetched, 0, RANGE_DONE), ResumeAt(store, job), 0, k);
  }

  // ---------- any number of runs ----------

  /** The store after runs with the given outages, one after the other. */
  ghost function AfterRuns(job: Job, runs: seq<nat -> bool>, store: Store, lastFetched: Option<int>): Run
    requires StrictlySorted(Times(job.history))
  {
    if |runs| == 0 then Run(store, lastFetched, 0, RANGE_DONE)
    else
      var before := AfterRuns(job, runs[..|runs| - 1], store, lastFetched);
      RunOnce(job, runs[|runs| - 1], before.store, before.lastFetched)
  }

  lemma {:induction false} RunsKeepPrefix(job: Job, runs: seq<nat -> bool>, store: Store, lastFetched: Option<int>, k: nat)
      returns (k': nat)
    requires Proper(job) && HoldsPrefix(job, store, k)
    ensures k <= k' && HoldsPrefix(job, AfterRuns(job, runs, store, lastFetched).store, k')
    ensures SameOutside(job, store, AfterRuns(job, runs, store, lastFetched).store)
  {
    hide HoldsPrefix, SameOutside, StrictlySorted, RunOnce, Wholesome;
    if |runs| == 0 {
      k' := k;
      PrefixInRange(job, store, k);
    } else {
      var init := runs[..|runs| - 1];
      var k1 := RunsKeepPrefix(job, init, store, lastFetched, k);
      var before := AfterRuns(job, init, store, lastFetched);
      k' := RunKeepsPrefix(job, runs[|runs| - 1], before.store, before.lastFetched, k1);
      SameOutsideChains(job, store, before.store, AfterRuns(job, runs, store, lastFetched).store);
    }
  }

  /** What a single unpaged request would store of the range. */
  function Unpaged(job: Job): Store
    requires Proper(job) && First(job) <= Beyond(job) <= |job.history|
  {
    Stored(map[], job.history[First(job)..Beyond(job)])
  }

  ghost predicate SameInRange(job: Job, s: Store, s': Store) {
    forall time | job.start <= time <= job.end :: (time in s <==> time in s') && (time in s ==> s[time] == s'[time])
  }

  lemma UnpagedIsWholePrefix(job: Job)
    requires Proper(job)
    ensures First(job) <= Beyond(job) <= |job.history|
    ensures HoldsPrefix(job, Unpaged(job), Beyond(job) - First(job))
  {
    hide StrictlySorted, Stored, First, Beyond;
    RangeIsStretch(job);
    StoringExtendsPrefix(job, map[], 0, Beyond(job) - First(job));
  }

  lemma EqualPrefixesAgree(job: Job, s: Store, s': Store, k: nat)
    requires Proper(job) && HoldsPrefix(job, s, k) && HoldsPrefix(job, s', k)
    ensures SameInRange(job, s, s')
  {
    hide StrictlySorted, First, Beyond;
    forall time | job.start <= time <= job.end
      ensures (time in s <==> time in s') && (time in s ==> s[time] == s'[time])
    {
      if time in s {
        var i :| First(job) <= i < First(job) + k && job.history[i].openTime == time;
      }
      if time in s' {
        var i :| First(job) <= i < First(job) + k && job.history[i].openTime == time;
      }
    }
  }

  lemma WholePrefixIsUnpaged(job: Job, store: Store, k: nat)
    requires Proper(job) && HoldsPrefix(job, store, k) && First(job) + k == Beyond(job)
    ensures First(job) <= Beyond(job) <= |job.history|
    ensures SameInRange(job, store, Unpaged(job))
  {
    hide StrictlySorted, HoldsPrefix, SameInRange, First, Beyond, Unpaged;
    UnpagedIsWholePrefix(job);
    EqualPrefixesAgree(job, store, Unpaged(job), k);
  }

  /** Any number of runs, each broken off anywhere, and then one without an outage store of the range
      exactly what one unpaged request would, and touch nothing outside it. */
  lemma ResumedEqualsUnpaged(job: Job, runs: seq<nat -> bool>, clean: nat -> bool,
                             store: Store, lastFetched: Option<int>, k: nat)
    requires Proper(job) && Wholesome(job) && job.limit > 0
    requires HoldsPrefix(job, store, k) && forall q :: !clean(q)
    ensures First(job) <= Beyond(job) <= |job.history|
    ensures var r := AfterRuns(job, runs + [clean], store, lastFetched);
            SameInRange(job, r.store, Unpaged(job)) && SameOutside(job, store, r.store) && Completes(r.outcome)
  {
    hide HoldsPrefix, SameOutside, SameInRange, StrictlySorted, RunOnce, Wholesome, Unpaged;
    RangeIsStretch(job);
    var all := runs + [clean];
    assert all[..|all| - 1] == runs;
    var k1 := RunsKeepPrefix(job, runs, store, lastFetched, k);
    var before := AfterRuns(job, runs, store, lastFetched);
    var k2 := RunKeepsPrefix(job, clean, before.store, before.lastFetched, k1);
    var r := RunOnce(job, clean, before.store, before.lastFetched);
    assert AfterRuns(job, all, store, lastFetched) == r;
    WholePrefixIsUnpaged(job, r.store, k2);
    SameOutsideChains(job, store, before.store, r.store);
  }

  // ---------- only a prefix can be completed ----------

  /** All that is stored of the range comes from the history. */
  ghost predicate Faithful(job: Job, store: Store)
    requires StrictlySorted(Times(job.history))
  {
    forall time | time in store && job.start <= time <= job.end ::
      exists i :: First(job) <= i < Beyond(job) && i < |job.history|
                  && job.history[i].openTime == time && store[time] == job.history[i]
  }

  /** The loop stores nothing that opens before it resumes. */
  lemma {:induction false} PagingAddsFrom(job: Job, outages: nat -> bool, r: Run, from: int, request: nat, time: int)
    requires StrictlySorted(Times(job.history)) && time < from && time !in r.store
    ensures time !in Paging(job, outages, r, from, request).store
    decreases job.end - from
  {
    hide Acceptable, Page, StrictlySorted, Times;
    if from < job.end && !outages(request) {
      var page := Page(job, from);
      if page != [] && Acceptable(page, job.timeframe) {
        PageOpensFrom(job, from);
        NotStored(r.store, page, from, time);
        var last := page[|page| - 1].openTime;
        if |page| >= job.limit {
          var r1 := Run(Stored(r.store, page), Some(last), r.fetched + |page|, RANGE_DONE);
          PagingAddsFrom(job, outages, r1, last + MILLISECOND, request + 1, time);
        }
      }
    }
  }

  lemma {:induction false} NotStored(store: Store, page: seq<Candle>, from: int, time: int)
    requires time < from && time !in store && forall i | 0 <= i < |page| :: from <= page[i].openTime
    ensures time !in Stored(store, page)
  {
    if |page| > 0 {
      NotStored(store, page[..|page| - 1], from, time);
    }
  }

  /** A candle missing before a stored one stays missing: the run resumes behind the latest. */
  lemma HoleStays(job: Job, outages: nat -> bool, store: Store, lastFetched: Option<int>, hole: nat, later: nat)
    requires Proper(job) && First(job) <= hole < later < Beyond(job) && later < |job.history|
    requires job.history[hole].openTime !in store && job.history[later].openTime in store
    ensures job.history[hole].openTime !in RunOnce(job, outages, store, lastFetched).store
  {
    hide StrictlySorted, BisectLeft, BisectRight;
    RangeIsStretch(job);
    var times := TimesIn(store, job.start, job.end);
    var t := job.history[later].openTime;
    assert t in times && t in Ascending(times);
    LastIsGreatest(Ascending(times));
    PagingAddsFrom(job, outages, Run(store, lastFetched, 0, RANGE_DONE), ResumeAt(store, job), 0,
                   job.history[hole].openTime);
  }

  ghost predicate IsPrefix(job: Job, store: Store)
    requires StrictlySorted(Times(job.history))
  {
    forall hole, later | First(job) <= hole < later < Beyond(job) && later < |job.history| ::
      job.history[later].openTime in store ==> job.history[hole].openTime in store
  }

  lemma FaithfulAt(job: Job, store: Store, i: nat)
    requires Proper(job) && Faithful(job, store) && First(job) <= i < Beyond(job) && i < |job.history|
    requires job.history[i].openTime in store
    ensures store[job.history[i].openTime] == job.history[i]
  {
    hide StrictlySorted, First, Beyond;
    RangeIsStretch(job);
    var t := job.history[i].openTime;
    var j :| First(job) <= j < Beyond(job) && j < |job.history| && job.history[j].openTime == t && store[t] == job.history[j];
    var u := job.history[j].openTime;
    assert i < j ==> t < u;
    assert j < i ==> u < t;
  }

  /** Of a store without a hole, nothing lies behind a missing candle. */
  lemma NothingBehind(job: Job, store: Store, n: nat, time: int)
    requires Proper(job) && Faithful(job, store) && IsPrefix(job, store)
    requires First(job) + n <= Beyond(job) <= |job.history|
    requires First(job) + n < Beyond(job) ==> job.history[First(job) + n].openTime !in store
    requires time in store && job.start <= time <= job.end
    ensures exists i :: First(job) <= i < First(job) + n && job.history[i].openTime == time
  {
    hide Proper, First, Beyond;
    var next := First(job) + n;
    var nextTime := if next < Beyond(job) then job.history[next].openTime else 0;
    var j :| First(job) <= j < Beyond(job) && j < |job.history| && job.history[j].openTime == time && store[time] == job.history[j];
    assert next < j ==> nextTime in store;
  }

  /** If candle n of the range is missing and the store has no hole, the store holds the first n. */
  lemma PrefixStops(job: Job, store: Store, n: nat)
    requires Proper(job) && Faithful(job, store) && IsPrefix(job, store)
    requires First(job) + n <= Beyond(job) <= |job.history|
    requires forall i | First(job) <= i < First(job) + n :: job.history[i].openTime in store
    requires First(job) + n < Beyond(job) ==> job.history[First(job) + n].openTime !in store
    ensures HoldsPrefix(job, store, n)
  {
    hide Proper, First, Beyond, Faithful, IsPrefix;
    forall i | First(job) <= i < First(job) + n
      ensures store[job.history[i].openTime] == job.history[i]
    {
      FaithfulAt(job, store, i);
    }
    forall time | time in store && job.start <= time <= job.end
      ensures exists i :: First(job) <= i < First(job) + n && job.history[i].openTime == time
    {
      NothingBehind(job, store, n, time);
    }
  }

  /** How many candles of the range are stored from its beginning without a hole. */
  lemma {:induction false} PrefixLength(job: Job, store: Store, n: nat) returns (k: nat)
    requires Proper(job) && Faithful(job, store) && IsPrefix(job, store)
    requires First(job) + n <= Beyond(job) <= |job.history|
    requires forall i | First(job) <= i < First(job) + n :: job.history[i].openTime in store
    ensures HoldsPrefix(job, store, k)
    decreases Beyond(job) - n
  {
    hide StrictlySorted, First, Beyond, HoldsPrefix, Faithful, IsPrefix;
    var next := First(job) + n;
    if next < Beyond(job) && job.history[next].openTime in store {
      k := PrefixLength(job, store, n + 1);
    } else {
      k := n;
      PrefixStops(job, store, n);
    }
  }

  lemma HoleIsNotWhole(job: Job, outages: nat -> bool, store: Store, lastFetched: Option<int>)
    requires Proper(job) && !IsPrefix(job, store)
    ensures First(job) <= Beyond(job) <= |job.history|
    ensures !SameInRange(job, RunOnce(job, outages, store, lastFetched).store, Unpaged(job))
  {
    hide StrictlySorted, RunOnce, First, Beyond, Unpaged;
    RangeIsStretch(job);
    UnpagedIsWholePrefix(job);
    var hole, later :| First(job) <= hole < later < Beyond(job) && later < |job.history|
                       && job.history[later].openTime in store && job.history[hole].openTime !in store;
    HoleStays(job, outages, store, lastFetched, hole, later);
    var t := job.history[hole].openTime;
    assert t in Unpaged(job) && job.start <= t <= job.end;
  }

  /** A clean run fills the range if and only if what was stored of it was a prefix. */
  lemma CompletesIffPrefix(job: Job, clean: nat -> bool, store: Store, lastFetched: Option<int>)
    requires Proper(job) && Wholesome(job) && job.limit > 0 && Faithful(job, store) && forall q :: !clean(q)
    ensures First(job) <= Beyond(job) <= |job.history|
    ensures SameInRange(job, RunOnce(job, clean, store, lastFetched).store, Unpaged(job)) <==> IsPrefix(job, store)
  {
    hide StrictlySorted, RunOnce, Wholesome, HoldsPrefix, First, Beyond, Unpaged, SameInRange, IsPrefix, Faithful;
    RangeIsStretch(job);
    if IsPrefix(job, store) {
      var k := PrefixLength(job, store, 0);
      var k' := RunKeepsPrefix(job, clean, store, lastFetched, k);
      WholePrefixIsUnpaged(job, RunOnce(job, clean, store, lastFetched).store, k');
    } else {
      HoleIsNotWhole(job, clean, store, lastFetched);
    }
  }
}
