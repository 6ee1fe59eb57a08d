/**
 The in-memory feature repository of the backtest: two parallel sorted lists per key, searched by
 bisection, in place of the filter / order / limit queries of the database.
 */
module FeatureCache {
  import opened Bisect
  import opened Options

  datatype FeatureSnapshot = FeatureSnapshot(
    exchange: string,
    symbol: string,
    timeframe: string,
    timestamp: int,
    availableAt: int,
    features: map<string, real>)

  datatype Series = Series(exchange: string, symbol: string, timeframe: string)

  function SeriesOf(s: FeatureSnapshot): Series {
    Series(s.exchange, s.symbol, s.timeframe)
  }

  /** One series as the database holds it: at most one snapshot per timestamp. */
  type Table = map<int, FeatureSnapshot>

  // ---------- the queries being replaced ----------

  ghost function TimesWithin(t: Table, start: Option<int>, end: Option<int>): set<int> {
    set time | time in t && (start.Some? ==> start.value <= time) && (end.Some? ==> time <= end.value)
  }

  ghost function Rows(t: Table, times: seq<int>): seq<FeatureSnapshot>
    requires forall i | 0 <= i < |times| :: times[i] in t
  {
    seq(|times|, i requires 0 <= i < |times| => t[times[i]])
  }

  function LastOf<T>(s: seq<T>, limit: Option<nat>): seq<T> {
    if limit.Some? && limit.value < |s| then s[|s| - limit.value..] else s
  }

  /** WHERE the time is in range, ORDER BY time, the latest `limit` of them. */
  ghost function SelectRange(t: Table, start: Option<int>, end: Option<int>, limit: Option<nat>): seq<FeatureSnapshot> {
    var times := Ascending(TimesWithin(t, start, end));
    Rows(t, LastOf(times, limit))
  }

  /** WHERE time <= end, ORDER BY time DESC, LIMIT 1. */
  ghost function SelectLatest(t: Table, end: Option<int>): Option<FeatureSnapshot> {
    var times := Ascending(TimesWithin(t, None, end));
    if times == [] then None else Some(t[times[|times| - 1]])
  }

  /** INSERT ... ON CONFLICT DO UPDATE, row after row: the last writer of a timestamp wins. */
  function Upserted(t: Table, batch: seq<FeatureSnapshot>): Table {
    if |batch| == 0 then t
    else Upserted(t, batch[..|batch| - 1])[batch[|batch| - 1].timestamp := batch[|batch| - 1]]
  }

  // ---------- keys ----------

  function KeyOf(exchange: string, symbol: string, timeframe: string): string {
    exchange + "_" + symbol + "_" + timeframe
  }

  function SeriesKey(s: Series): string {
    KeyOf(s.exchange, s.symbol, s.timeframe)
  }

  predicate PlainNames(s: Series) {
    '_' !in s.exchange && '_' !in s.timeframe
  }

  lemma FirstUnderscore(a: string, x: string, b: string, y: string)
    requires '_' !in a && '_' !in b && a + "_" + x == b + "_" + y
    ensures a == b && x == y
  {
    var k := a + "_" + x;
    assert k[|a|] == '_' && k[|b|] == '_';
    assert forall i | 0 <= i < |a| :: k[i] == a[i] && a[i] in a;
    assert forall i | 0 <= i < |b| :: k[i] == b[i] && b[i] in b;
    assert |a| == |b|;
    assert a == k[..|a|] && b == k[..|b|];
    assert x == k[|a| + 1..] && y == k[|b| + 1..];
  }

  lemma LastUnderscore(x: string, a: string, y: string, b: string)
    requires '_' !in a && '_' !in b && x + "_" + a == y + "_" + b
    ensures a == b && x == y
  {
    var k := x + "_" + a;
    NoLaterUnderscore(x, a);
    NoLaterUnderscore(y, b);
    assert k[|x|] == '_' && k[|y|] == '_';
    assert x == k[..|x|] && y == k[..|y|];
    assert a == k[|x| + 1..] && b == k[|y| + 1..];
  }

  lemma NoLaterUnderscore(x: string, a: string)
    requires '_' !in a
    ensures forall i | |x| < i < |x + "_" + a| :: (x + "_" + a)[i] != '_'
  {
    forall i | |x| < i < |x + "_" + a| ensures (x + "_" + a)[i] != '_' {
      assert (x + "_" + a)[i] == a[i - |x| - 1];
    }
  }

  /** Composite keys of series with plain names do not collide. */
  lemma KeysDoNotCollide(s: Series, t: Series)
    requires PlainNames(s) && PlainNames(t) && SeriesKey(s) == SeriesKey(t)
    ensures s == t
  {
    var sRest, tRest := s.symbol + "_" + s.timeframe, t.symbol + "_" + t.timeframe;
    assert SeriesKey(s) == s.exchange + "_" + sRest;
    assert SeriesKey(t) == t.exchange + "_" + tRest;
    FirstUnderscore(s.exchange, sRest, t.exchange, tRest);
    LastUnderscore(s.symbol, s.timeframe, t.symbol, t.timeframe);
  }

  /** An underscore in the exchange can just as well belong to the symbol. */
  lemma ExchangeUnderscoreCollides(a: string, b: string, symbol: string, timeframe: string)
    ensures SeriesKey(Series(a + "_" + b, symbol, timeframe)) == SeriesKey(Series(a, b + "_" + symbol, timeframe))
    ensures Series(a + "_" + b, symbol, timeframe) != Series(a, b + "_" + symbol, timeframe)
  {
    assert (a + "_" + b) + "_" + symbol + "_" + timeframe == a + "_" + (b + "_" + symbol) + "_" + timeframe;
    assert |a + "_" + b| > |a|;
  }

  /** And so can one in the timeframe. */
  lemma TimeframeUnderscoreCollides(exchange: string, symbol: string, a: string, b: string)
    ensures SeriesKey(Series(exchange, symbol, a + "_" + b)) == SeriesKey(Series(exchange, symbol + "_" + a, b))
    ensures Series(exchange, symbol, a + "_" + b) != Series(exchange, symbol + "_" + a, b)
  {
    assert exchange + "_" + symbol + "_" + (a + "_" + b) == exchange + "_" + (symbol + "_" + a) + "_" + b;
    assert |a + "_" + b| > |b|;
  }

  lemma {:induction false} SplitAtFirst(x: string) returns (a: string, b: string)
    requires '_' in x
    ensures x == a + "_" + b && '_' !in a
  {
    if x[0] == '_' {
      a, b := "", x[1..];
    } else {
      var rest;
      rest, b := SplitAtFirst(x[1..]);
      a := [x[0]] + rest;
    }
  }

  lemma {:induction false} SplitAtLast(x: string) returns (a: string, b: string)
    requires '_' in x
    ensures x == a + "_" + b && '_' !in b
  {
    var n := |x| - 1;
    if x[n] == '_' {
      a, b := x[..n], "";
    } else {
      var rest;
      a, rest := SplitAtLast(x[..n]);
      b := rest + [x[n]];
      assert x == x[..n] + [x[n]];
    }
  }

  /** Every series shares its key with one of plain names: underscores at either end move to the symbol. */
  lemma PlainTwin(s: Series) returns (t: Series)
    ensures PlainNames(t) && SeriesKey(t) == SeriesKey(s)
  {
    t := s;
    if '_' in s.exchange {
      var a, b := SplitAtFirst(s.exchange);
      ExchangeUnderscoreCollides(a, b, s.symbol, s.timeframe);
      t := Series(a, b + "_" + s.symbol, s.timeframe);
    }
    if '_' in t.timeframe {
      var a, b := SplitAtLast(t.timeframe);
      TimeframeUnderscoreCollides(t.exchange, t.symbol, a, b);
      t := Series(t.exchange, t.symbol + "_" + a, b);
    }
  }

  /** Plain names are exactly what keeps a series apart: a series shares its key with another one of plain names if
      and only if its exchange or its timeframe contains an underscore. */
  lemma CollidesIffUnderscore(s: Series)
    ensures (exists t: Series :: PlainNames(t) && t != s && SeriesKey(t) == SeriesKey(s)) <==> !PlainNames(s)
  {
    if PlainNames(s) {
      forall t: Series | PlainNames(t) && SeriesKey(t) == SeriesKey(s) ensures t == s {
        KeysDoNotCollide(t, s);
      }
    } else {
      var t := PlainTwin(s);
      assert t != s;
    }
  }

  // ---------- two parallel lists as a table ----------

  /** The lists agree entry by entry and are strictly sorted by time. */
  predicate Parallel(times: seq<int>, snaps: seq<FeatureSnapshot>) {
    && |times| == |snaps|
    && StrictlySorted(times)
    && forall i | 0 <= i < |times| :: snaps[i].timestamp == times[i]
  }

  ghost predicate Represents(times: seq<int>, snaps: seq<FeatureSnapshot>, t: Table) {
    && Parallel(times, snaps)
    && (forall x :: x in times <==> x in t)
    && forall i | 0 <= i < |times| :: times[i] in t && t[times[i]] == snaps[i]
  }

  /** Python's slice s[from:to] for 0 <= from and to within the list. */
  function Slice<T>(s: seq<T>, from: nat, to: nat): seq<T>
    requires to <= |s|
  {
    if from <= to then s[from..to] else []
  }

  function EndIndex(times: seq<int>, end: Option<int>): (r: nat)
    requires StrictlySorted(times)
    ensures r <= |times|
  {
    if end.Some? then BisectRight(times, end.value) else |times|
  }

  function StartIndex(times: seq<int>, start: Option<int>): (r: nat)
    requires StrictlySorted(times)
    ensures r <= |times|
  {
    if start.Some? then BisectLeft(times, start.value) else 0
  }

  /** The start of the slice, moved up so that at most `limit` entries remain. */
  function FromIndex(times: seq<int>, start: Option<int>, end: Option<int>, limit: Option<nat>): nat
    requires StrictlySorted(times)
  {
    var lo, hi := StartIndex(times, start), EndIndex(times, end);
    if limit.Some? && hi - limit.value > lo then hi - limit.value else lo
  }

  predicate InRange(x: int, start: Option<int>, end: Option<int>) {
    (start.Some? ==> start.value <= x) && (end.Some? ==> x <= end.value)
  }

  lemma InRangeByIndex(times: seq<int>, start: Option<int>, end: Option<int>, i: nat)
    requires StrictlySorted(times) && i < |times|
    ensures InRange(times[i], start, end) <==> StartIndex(times, start) <= i < EndIndex(times, end)
  {
    hide LeftIn, RightIn;
  }

  /** The slice between the two bisections holds exactly the times in range. */
  lemma SliceHolds(times: seq<int>, start: Option<int>, end: Option<int>, x: int)
    requires StrictlySorted(times)
    ensures x in Slice(times, StartIndex(times, start), EndIndex(times, end))
       <==> x in times && InRange(x, start, end)
  {
    hide BisectLeft, BisectRight, StrictlySorted, InRange;
    var lo, hi := StartIndex(times, start), EndIndex(times, end);
    var within := Slice(times, lo, hi);
    if x in times && InRange(x, start, end) {
      var i :| 0 <= i < |times| && times[i] == x;
      InRangeByIndex(times, start, end, i);
      assert within[i - lo] == x;
    }
    if x in within {
      var i :| 0 <= i < |within| && within[i] == x;
      assert times[lo + i] == x;
      InRangeByIndex(times, start, end, lo + i);
    }
  }

  lemma RangeIsSlice(times: seq<int>, snaps: seq<FeatureSnapshot>, t: Table, start: Option<int>, end: Option<int>)
    requires Represents(times, snaps, t)
    ensures Slice(times, StartIndex(times, start), EndIndex(times, end)) == Ascending(TimesWithin(t, start, end))
  {
    var within := Slice(times, StartIndex(times, start), EndIndex(times, end));
    forall x ensures x in within <==> x in TimesWithin(t, start, end) {
      SliceHolds(times, start, end, x);
    }
    SortedIsAscending(within, TimesWithin(t, start, end));
  }

  lemma SliceLast<T>(s: seq<T>, lo: nat, hi: nat, limit: Option<nat>)
    requires hi <= |s|
    ensures var from := if limit.Some? && hi - limit.value > lo then hi - limit.value else lo;
            Slice(s, from, hi) == LastOf(Slice(s, lo, hi), limit)
  {
  }

  lemma SliceOfSnaps(times: seq<int>, snaps: seq<FeatureSnapshot>, t: Table, from: nat, to: nat)
    requires Represents(times, snaps, t) && to <= |times|
    ensures forall i | 0 <= i < |Slice(times, from, to)| :: Slice(times, from, to)[i] in t
    ensures Slice(snaps, from, to) == Rows(t, Slice(times, from, to))
  {
  }

  /** The list query: bisect both ends, move the left end up to respect the limit, slice. */
  lemma SliceIsQuery(times: seq<int>, snaps: seq<FeatureSnapshot>, t: Table,
                     start: Option<int>, end: Option<int>, limit: Option<nat>)
    requires Represents(times, snaps, t)
    ensures Slice(snaps, FromIndex(times, start, end, limit), EndIndex(times, end)) == SelectRange(t, start, end, limit)
  {
    hide Represents, Slice, LastOf, BisectLeft, BisectRight, Rows;
    RangeIsSlice(times, snaps, t, start, end);
    SortedWhenRepresented(times, snaps, t);
    var hi, from := EndIndex(times, end), FromIndex(times, start, end, limit);
    SliceLast(times, StartIndex(times, start), hi, limit);
    SliceOfSnaps(times, snaps, t, from, hi);
  }

  lemma SortedWhenRepresented(times: seq<int>, snaps: seq<FeatureSnapshot>, t: Table)
    requires Represents(times, snaps, t)
    ensures StrictlySorted(times) && |snaps| == |times|
  {
  }

  lemma BisectIsLatest(times: seq<int>, snaps: seq<FeatureSnapshot>, t: Table, end: Option<int>)
    requires Represents(times, snaps, t)
    ensures var hi := EndIndex(times, end);
            SelectLatest(t, end) == if hi == 0 then None else Some(snaps[hi - 1])
  {
    hide Represents, Ascending, TimesWithin, BisectLeft, BisectRight, StrictlySorted, EndIndex;
    SortedWhenRepresented(times, snaps, t);
    RangeIsSlice(times, snaps, t, None, end);
    var hi := EndIndex(times, end);
    RepresentsAt(times, snaps, t, hi);
    assert Slice(times, 0, hi) == times[..hi];
  }

  lemma RepresentsAt(times: seq<int>, snaps: seq<FeatureSnapshot>, t: Table, n: nat)
    requires Represents(times, snaps, t) && n <= |times|
    ensures n > 0 ==> times[n - 1] in t && t[times[n - 1]] == snaps[n - 1]
  {
  }

  // ---------- no look-ahead ----------

  /** Both tables tell the same story up to `end`. */
  predicate AgreeUpTo(t: Table, u: Table, end: int) {
    && (forall time | time in t && time <= end :: time in u && u[time] == t[time])
    && (forall time | time in u && time <= end :: time in t)
  }

  /** All times are in the table, and none is later than `end`. */
  predicate KnownUpTo(t: Table, times: seq<int>, end: int) {
    forall i | 0 <= i < |times| :: times[i] in t && times[i] <= end
  }

  lemma RowsAgree(t: Table, u: Table, times: seq<int>, end: int)
    requires AgreeUpTo(t, u, end) && KnownUpTo(t, times, end)
    ensures forall i | 0 <= i < |times| :: times[i] in u && u[times[i]] == t[times[i]]
    ensures Rows(t, times) == Rows(u, times)
  {
  }

  lemma SameTimesWithin(t: Table, u: Table, start: Option<int>, end: int)
    requires AgreeUpTo(t, u, end)
    ensures TimesWithin(t, start, Some(end)) == TimesWithin(u, start, Some(end))
  {
  }

  lemma TimesInRange(t: Table, start: Option<int>, end: int, limit: Option<nat>)
    ensures KnownUpTo(t, LastOf(Ascending(TimesWithin(t, start, Some(end))), limit), end)
  {
    var all := Ascending(TimesWithin(t, start, Some(end)));
    assert forall i | 0 <= i < |all| :: all[i] in all && all[i] in TimesWithin(t, start, Some(end));
  }

  /** A query that ends at `end` does not depend on anything later. */
  lemma QueriesDoNotLookAhead(t: Table, u: Table, start: Option<int>, end: int, limit: Option<nat>)
    requires AgreeUpTo(t, u, end)
    ensures SelectRange(t, start, Some(end), limit) == SelectRange(u, start, Some(end), limit)
    ensures SelectLatest(t, Some(end)) == SelectLatest(u, Some(end))
  {
    hide AgreeUpTo, TimesWithin, Ascending, Rows;
    SameTimesWithin(t, u, start, end);
    SameTimesWithin(t, u, None, end);
    TimesInRange(t, start, end, limit);
    TimesInRange(t, None, end, None);
    RowsAgree(t, u, LastOf(Ascending(TimesWithin(t, start, Some(end))), limit), end);
    RowsAgree(t, u, Ascending(TimesWithin(t, None, Some(end))), end);
  }

  // ---------- the repository object ----------

  /** Replacing at an existing timestamp is an upsert. */
  lemma ReplacementIsUpsert(times: seq<int>, snaps: seq<FeatureSnapshot>, t: Table, i: nat, snap: FeatureSnapshot)
    requires Represents(times, snaps, t) && i < |times| && times[i] == snap.timestamp
    ensures Represents(times, snaps[i := snap], t[snap.timestamp := snap])
  {
    var t' := t[snap.timestamp := snap];
    forall x ensures x in times <==> x in t' {
      assert times[i] in times;
    }
  }

  lemma InsertedAt<T>(s: seq<T>, x: T, i: nat, j: nat)
    requires i <= |s| && j <= |s|
    ensures (s[..i] + [x] + s[i..])[j] == if j < i then s[j] else if j == i then x else s[j - 1]
  {
  }

  lemma InsertedMembers(times: seq<int>, ts: int, i: nat)
    requires i <= |times|
    ensures forall x :: x in times[..i] + [ts] + times[i..] <==> x in times || x == ts
  {
    assert times == times[..i] + times[i..];
  }

  lemma InsertedSorted(times: seq<int>, ts: int, i: nat)
    requires StrictlySorted(times) && i <= |times|
    requires (forall j | 0 <= j < i :: times[j] < ts) && (forall j | i <= j < |times| :: ts < times[j])
    ensures StrictlySorted(times[..i] + [ts] + times[i..])
  {
  }

  lemma BisectLeftSplits(times: seq<int>, ts: int)
    requires StrictlySorted(times)
    ensures var i := BisectLeft(times, ts);
            (i < |times| && times[i] == ts)
            || ((forall j | 0 <= j < i :: times[j] < ts) && (forall j | i <= j < |times| :: ts < times[j]))
  {
    hide LeftIn;
  }

  /** Inserting at the bisection point of a new timestamp is an upsert. */
  lemma InsertionIsUpsert(times: seq<int>, snaps: seq<FeatureSnapshot>, t: Table, i: nat, snap: FeatureSnapshot)
    requires Represents(times, snaps, t) && i <= |times|
    requires forall j | 0 <= j < i :: times[j] < snap.timestamp
    requires forall j | i <= j < |times| :: snap.timestamp < times[j]
    ensures Represents(times[..i] + [snap.timestamp] + times[i..], snaps[..i] + [snap] + snaps[i..],
                       t[snap.timestamp := snap])
  {
    var ts, t' := snap.timestamp, t[snap.timestamp := snap];
    var times', snaps' := times[..i] + [ts] + times[i..], snaps[..i] + [snap] + snaps[i..];
    InsertedSorted(times, ts, i);
    InsertedMembers(times, ts, i);
    hide StrictlySorted;
    forall j | 0 <= j < |times'|
      ensures times'[j] in t' && t'[times'[j]] == snaps'[j] && snaps'[j].timestamp == times'[j]
    {
      InsertedAt(times, ts, i, j);
      InsertedAt(snaps, snap, i, j);
    }
  }

  /** What one batch makes of the cache: everything goes under the key of its first row. */
  function CacheUpserted(cache: map<string, Table>, batch: seq<FeatureSnapshot>): map<string, Table> {
    if |batch| == 0 then cache
    else
      var key := SeriesKey(SeriesOf(batch[0]));
      cache[key := Upserted(if key in cache then cache[key] else map[], batch)]
  }

  lemma UpsertedNone(t: Table, batch: seq<FeatureSnapshot>)
    ensures Upserted(t, batch[..0]) == t
  {
  }

  /** Every key has its two parallel lists and its table. */
  ghost predicate MapsIndexed(snaps: map<string, seq<FeatureSnapshot>>, times: map<string, seq<int>>,
                              tables: map<string, Table>) {
    && snaps.Keys == times.Keys == tables.Keys
    && forall k | k in snaps :: Represents(times[k], snaps[k], tables[k])
  }

  lemma IndexedAt(snaps: map<string, seq<FeatureSnapshot>>, times: map<string, seq<int>>, tables: map<string, Table>,
                  key: string)
    requires MapsIndexed(snaps, times, tables)
    ensures key in snaps <==> key in tables
    ensures key in snaps ==> key in times && Represents(times[key], snaps[key], tables[key])
    ensures key in snaps ==> StrictlySorted(times[key]) && |snaps[key]| == |times[key]|
  {
    assert key in snaps.Keys <==> key in tables.Keys;
    assert key in snaps.Keys <==> key in times.Keys;
    hide StrictlySorted;
  }

  lemma IndexedUpdate(snaps: map<string, seq<FeatureSnapshot>>, times: map<string, seq<int>>, tables: map<string, Table>,
                      key: string, list: seq<FeatureSnapshot>, index: seq<int>, table: Table)
    requires MapsIndexed(snaps, times, tables) && Represents(index, list, table)
    ensures MapsIndexed(snaps[key := list], times[key := index], tables[key := table])
  {
    hide Represents;
  }

  lemma SameTimes<T>(m: map<string, T>, key: string)
    requires key in m
    ensures m[key := m[key]] == m
  {
  }

  lemma OthersKept<T>(before: map<string, T>, after: map<string, T>, key: string, k: string)
    requires before - {key} == after - {key} && k != key
    ensures k in before <==> k in after
    ensures k in before ==> before[k] == after[k]
  {
    assert k in before <==> k in before - {key};
    assert k in after <==> k in after - {key};
  }

  class InMemoryFeatureSnapshotRepository {
    var snaps: map<string, seq<FeatureSnapshot>>
    var times: map<string, seq<int>>

    /** The cached series as tables, by composite key. */
    ghost var tables: map<string, Table>

    ghost predicate Indexed()
      reads this
    {
      MapsIndexed(snaps, times, tables)
    }

    ghost predicate Valid()
      reads this
    {
      Indexed() && forall k | k in snaps :: snaps[k] != []
    }

    constructor ()
      ensures Valid() && tables == map[]
    {
      snaps, times, tables := map[], map[], map[];
    }

    method InsertSorted(key: string, snap: FeatureSnapshot)
      requires Indexed() && key in snaps
      modifies this
      ensures Indexed() && key in snaps && snaps[key] != []
      ensures snaps - {key} == old(snaps) - {key}
      ensures key in old(tables) && tables == old(tables)[key := old(tables)[key][snap.timestamp := snap]]
    {
      hide MapsIndexed, Represents, StrictlySorted, LeftIn;
      IndexedAt(snaps, times, tables, key);
      var list, index := snaps[key], times[key];
      ghost var table := tables[key][snap.timestamp := snap];
      var i := BisectLeft(index, snap.timestamp);
      if i < |index| && index[i] == snap.timestamp {
        ReplacementIsUpsert(index, list, tables[key], i, snap);
        IndexedUpdate(snaps, times, tables, key, list[i := snap], index, table);
        SameTimes(times, key);
        snaps := snaps[key := list[i := snap]];
      } else {
        BisectLeftSplits(index, snap.timestamp);
        InsertionIsUpsert(index, list, tables[key], i, snap);
        IndexedUpdate(snaps, times, tables, key, list[..i] + [snap] + list[i..],
                      index[..i] + [snap.timestamp] + index[i..], table);
        snaps := snaps[key := list[..i] + [snap] + list[i..]];
        times := times[key := index[..i] + [snap.timestamp] + index[i..]];
      }
      tables := tables[key := table];
    }

    method BulkUpsert(batch: seq<FeatureSnapshot>) returns (added: nat)
      requires Valid()
      modifies this
      ensures Valid() && added == |batch|
      ensures tables == CacheUpserted(old(tables), batch)
    {
      hide MapsIndexed, Upserted, SeriesKey;
      if |batch| == 0 {
        return 0;
      }
      var key := SeriesKey(SeriesOf(batch[0]));
      EnsureKey(key);
      ghost var before := snaps;
      added := InsertAll(key, batch);
      forall k | k in snaps ensures snaps[k] != [] {
        if k != key { OthersKept(before, snaps, key, k); }
      }
    }

    method EnsureKey(key: string)
      requires Valid()
      modifies this
      ensures Indexed() && key in snaps && key in tables
      ensures forall k | k in snaps && k != key :: snaps[k] != []
      ensures tables == old(tables)[key := if key in old(tables) then old(tables)[key] else map[]]
    {
      hide MapsIndexed, Represents;
      IndexedAt(snaps, times, tables, key);
      if key !in snaps {
        EmptyListsAreEmptyTable();
        IndexedUpdate(snaps, times, tables, key, [], [], map[]);
        snaps := snaps[key := []];
        times := times[key := []];
        tables := tables[key := map[]];
      }
    }

    /** The loop of BulkUpsert: every row goes under the one key. */
    method InsertAll(key: string, batch: seq<FeatureSnapshot>) returns (added: nat)
      requires Indexed() && key in snaps && key in tables
      modifies this
      ensures Indexed() && key in snaps && added == |batch|
      ensures snaps - {key} == old(snaps) - {key}
      ensures batch != [] ==> snaps[key] != []
      ensures tables == old(tables)[key := Upserted(old(tables)[key], batch)]
    {
      hide MapsIndexed, Upserted;
      added := 0;
      ghost var base := tables;
      UpsertedNone(base[key], batch);
      SameTimes(base, key);
      for i := 0 to |batch|
        invariant Indexed() && key in snaps && added == i
        invariant snaps - {key} == old(snaps) - {key}
        invariant i > 0 ==> snaps[key] != []
        invariant tables == base[key := Upserted(base[key], batch[..i])]
      {
        UpsertedOneMore(base[key], batch, i);
        InsertSorted(key, batch[i]);
        added := added + 1;
      }
      assert batch[..|batch|] == batch;
    }

    /** The answer, when the cache has it; when `cached` is false the database is asked instead. */
    method GetLatest(exchange: string, symbol: string, timeframe: string, end: Option<int>)
        returns (cached: bool, latest: Option<FeatureSnapshot>)
      requires Valid()
      ensures cached <==> KeyOf(exchange, symbol, timeframe) in tables
      ensures cached ==> latest == SelectLatest(tables[KeyOf(exchange, symbol, timeframe)], end)
    {
      hide MapsIndexed, Represents, StrictlySorted, KeyOf, SelectLatest;
      var key := KeyOf(exchange, symbol, timeframe);
      IndexedAt(snaps, times, tables, key);
      if key !in snaps || snaps[key] == [] {
        return false, None;
      }
      var list, index := snaps[key], times[key];
      BisectIsLatest(index, list, tables[key], end);
      if end.None? {
        return true, Some(list[|list| - 1]);
      }
      var i := BisectRight(index, end.value);
      if i == 0 {
        return true, None;
      }
      return true, Some(list[i - 1]);
    }

    method ListBySymbol(exchange: string, symbol: string, timeframe: string,
                        start: Option<int>, end: Option<int>, limit: Option<nat>)
        returns (cached: bool, found: seq<FeatureSnapshot>)
      requires Valid()
      ensures cached <==> KeyOf(exchange, symbol, timeframe) in tables
      ensures cached ==> found == SelectRange(tables[KeyOf(exchange, symbol, timeframe)], start, end, limit)
    {
      hide MapsIndexed, Represents, StrictlySorted, KeyOf, SelectRange, Slice;
      var key := KeyOf(exchange, symbol, timeframe);
      IndexedAt(snaps, times, tables, key);
      if key !in snaps {
        return false, [];
      }
      var list, index := snaps[key], times[key];
      SliceIsQuery(index, list, tables[key], start, end, limit);
      var endIndex := if end.Some? then BisectRight(index, end.value) else |list|;
      var startIndex := if start.Some? then BisectLeft(index, start.value) else 0;
      if limit.Some? && endIndex - limit.value > startIndex {
        startIndex := endIndex - limit.value;
      }
      found := Slice(list, startIndex, endIndex);
      cached := true;
    }
  }

  lemma UpsertedOneMore(t: Table, batch: seq<FeatureSnapshot>, i: nat)
    requires i < |batch|
    ensures Upserted(t, batch[..i + 1]) == Upserted(t, batch[..i])[batch[i].timestamp := batch[i]]
  {
    assert batch[..i + 1][..i] == batch[..i];
  }

  lemma EmptyListsAreEmptyTable()
    ensures Represents([], [], map[])
  {
  }

  // ---------- whole histories of writes ----------

  /** The database files every row under its own series. */
  function DatabaseUpserted(db: map<Series, Table>, batch: seq<FeatureSnapshot>): map<Series, Table> {
    if |batch| == 0 then db
    else
      var before := DatabaseUpserted(db, batch[..|batch| - 1]);
      var row := batch[|batch| - 1];
      var s := SeriesOf(row);
      before[s := (if s in before then before[s] else map[])[row.timestamp := row]]
  }

  function CacheAfter(batches: seq<seq<FeatureSnapshot>>): map<string, Table> {
    if |batches| == 0 then map[]
    else CacheUpserted(CacheAfter(batches[..|batches| - 1]), batches[|batches| - 1])
  }

  function DatabaseAfter(batches: seq<seq<FeatureSnapshot>>): map<Series, Table> {
    if |batches| == 0 then map[]
    else DatabaseUpserted(DatabaseAfter(batches[..|batches| - 1]), batches[|batches| - 1])
  }

  /** All rows of the batch belong to one series with plain names. */
  predicate OneSeries(batch: seq<FeatureSnapshot>) {
    forall i | 0 <= i < |batch| :: SeriesOf(batch[i]) == SeriesOf(batch[0]) && PlainNames(SeriesOf(batch[i]))
  }

  /** Cache and database hold the same tables, under composite keys and under series. */
  ghost predicate SameTables(cache: map<string, Table>, db: map<Series, Table>) {
    && (forall s | s in db :: PlainNames(s) && SeriesKey(s) in cache && cache[SeriesKey(s)] == db[s])
    && (forall s | PlainNames(s) && SeriesKey(s) in cache :: s in db)
  }

  lemma {:induction false} OneSeriesUpsert(db: map<Series, Table>, batch: seq<FeatureSnapshot>)
    requires |batch| > 0 && OneSeries(batch)
    ensures var s := SeriesOf(batch[0]);
            DatabaseUpserted(db, batch) == db[s := Upserted(if s in db then db[s] else map[], batch)]
  {
    var s := SeriesOf(batch[0]);
    var init := batch[..|batch| - 1];
    if |init| > 0 {
      OneSeriesUpsert(db, init);
    } else {
      assert init == [];
    }
    assert SeriesOf(batch[|batch| - 1]) == s;
  }

  lemma UpsertKeepsSameTables(cache: map<string, Table>, db: map<Series, Table>, batch: seq<FeatureSnapshot>)
    requires SameTables(cache, db) && OneSeries(batch)
    ensures SameTables(CacheUpserted(cache, batch), DatabaseUpserted(db, batch))
  {
    if |batch| > 0 {
      OneSeriesUpsert(db, batch);
      var s0 := SeriesOf(batch[0]);
      assert PlainNames(s0);
      var cache', db' := CacheUpserted(cache, batch), DatabaseUpserted(db, batch);
      forall s | PlainNames(s) ensures SeriesKey(s) == SeriesKey(s0) ==> s == s0 {
        if SeriesKey(s) == SeriesKey(s0) { KeysDoNotCollide(s, s0); }
      }
      assert s0 in db <==> SeriesKey(s0) in cache;
    }
  }

  /** After any history of one-series batches the cache holds what the database would. */
  lemma {:induction false} CacheMirrorsDatabase(batches: seq<seq<FeatureSnapshot>>)
    requires forall i | 0 <= i < |batches| :: OneSeries(batches[i])
    ensures SameTables(CacheAfter(batches), DatabaseAfter(batches))
  {
    if |batches| > 0 {
      CacheMirrorsDatabase(batches[..|batches| - 1]);
      UpsertKeepsSameTables(CacheAfter(batches[..|batches| - 1]), DatabaseAfter(batches[..|batches| - 1]),
                            batches[|batches| - 1]);
    }
  }

  lemma {:induction false} DatabaseHasEverySeries(db: map<Series, Table>, batch: seq<FeatureSnapshot>, s: Series)
    ensures s in DatabaseUpserted(db, batch) <==> s in db || exists i :: 0 <= i < |batch| && SeriesOf(batch[i]) == s
  {
    if |batch| > 0 {
      var n := |batch| - 1;
      DatabaseHasEverySeries(db, batch[..n], s);
      assert forall i | 0 <= i < n :: batch[..n][i] == batch[i];
    }
  }

  /** No series of the batch but its first one is known yet. */
  predicate OthersAreNew(db: map<Series, Table>, batch: seq<FeatureSnapshot>) {
    forall i | 0 <= i < |batch| :: SeriesOf(batch[i]) == SeriesOf(batch[0]) || SeriesOf(batch[i]) !in db
  }

  /** The cache files a whole batch under its first row's key.  So where cache and database agreed before, and the
      batch brings no second series that is known already, they agree afterwards if and only if it has one series. */
  lemma MirrorsIffOneSeries(cache: map<string, Table>, db: map<Series, Table>, batch: seq<FeatureSnapshot>)
    requires SameTables(cache, db) && OthersAreNew(db, batch)
    requires forall i | 0 <= i < |batch| :: PlainNames(SeriesOf(batch[i]))
    ensures SameTables(CacheUpserted(cache, batch), DatabaseUpserted(db, batch)) <==> OneSeries(batch)
  {
    if OneSeries(batch) {
      UpsertKeepsSameTables(cache, db, batch);
    } else {
      hide SeriesKey, Upserted, DatabaseUpserted;
      var i :| 0 <= i < |batch| && SeriesOf(batch[i]) != SeriesOf(batch[0]);
      var first, other := SeriesOf(batch[0]), SeriesOf(batch[i]);
      DatabaseHasEverySeries(db, batch, other);
      if SeriesKey(other) == SeriesKey(first) { KeysDoNotCollide(other, first); }
      assert SeriesKey(other) !in cache;
    }
  }

  /** In particular on an empty cache. */
  lemma FirstBatchMirrorsIffOneSeries(batch: seq<FeatureSnapshot>)
    requires forall i | 0 <= i < |batch| :: PlainNames(SeriesOf(batch[i]))
    ensures SameTables(CacheAfter([batch]), DatabaseAfter([batch])) <==> OneSeries(batch)
  {
    assert SameTables(map[], map[]);
    hide SameTables, OneSeries, CacheUpserted, DatabaseUpserted;
    assert |[batch][..0]| == 0;
    MirrorsIffOneSeries(map[], map[], batch);
  }
}
