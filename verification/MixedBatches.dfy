/**
 Batches of several series: the cache files every row under the first row's key, the database each under its own.
 When the two still agree afterwards, exactly.
 */
module MixedBatches {
  import opened FeatureCache
  import opened Options

  // ---------- which row decides ----------

  /** The last row written at an instant, if any. */
  function LastAt(rows: seq<FeatureSnapshot>, time: int): (last: Option<FeatureSnapshot>)
    ensures last.Some? ==> last.value.timestamp == time && last.value in rows
  {
    if |rows| == 0 then None
    else if rows[|rows| - 1].timestamp == time then Some(rows[|rows| - 1])
    else LastAt(rows[..|rows| - 1], time)
  }

  /** The rows of one series, in order. */
  function Of(batch: seq<FeatureSnapshot>, s: Series): seq<FeatureSnapshot> {
    if |batch| == 0 then []
    else
      var init, last := Of(batch[..|batch| - 1], s), batch[|batch| - 1];
      if SeriesOf(last) == s then init + [last] else init
  }

  lemma {:induction false} UpsertedAt(t: Table, rows: seq<FeatureSnapshot>, time: int)
    ensures time in Upserted(t, rows) <==> time in t || LastAt(rows, time).Some?
    ensures LastAt(rows, time).Some? ==> Upserted(t, rows)[time] == LastAt(rows, time).value
    ensures LastAt(rows, time).None? && time in t ==> Upserted(t, rows)[time] == t[time]
  {
    if |rows| > 0 { UpsertedAt(t, rows[..|rows| - 1], time); }
  }

  function TableOf(db: map<Series, Table>, s: Series): Table {
    if s in db then db[s] else map[]
  }

  /** The database treats each series as if the batch had no other. */
  lemma {:induction false} DatabaseFilesBySeries(db: map<Series, Table>, batch: seq<FeatureSnapshot>, s: Series)
    ensures TableOf(DatabaseUpserted(db, batch), s) == Upserted(TableOf(db, s), Of(batch, s))
    ensures s in DatabaseUpserted(db, batch) <==> s in db || Of(batch, s) != []
  {
    if |batch| > 0 {
      var init, last := batch[..|batch| - 1], batch[|batch| - 1];
      DatabaseFilesBySeries(db, init, s);
      if SeriesOf(last) == s { UpsertedAppend(TableOf(db, s), Of(init, s), last); }
    }
  }

  lemma UpsertedAppend(t: Table, rows: seq<FeatureSnapshot>, row: FeatureSnapshot)
    ensures Upserted(t, rows + [row]) == Upserted(t, rows)[row.timestamp := row]
  {
    assert (rows + [row])[..|rows|] == rows;
  }

  // ---------- the condition ----------

  /** A later row of the series has the same instant as row i. */
  predicate Superseded(batch: seq<FeatureSnapshot>, i: nat, s: Series)
    requires i < |batch|
  {
    exists j :: i < j < |batch| && batch[j].timestamp == batch[i].timestamp && SeriesOf(batch[j]) == s
  }

  predicate Held(db: map<Series, Table>, row: FeatureSnapshot) {
    var s := SeriesOf(row);
    s in db && row.timestamp in db[s] && db[s][row.timestamp] == row
  }

  /** Every row that is not of the first row's series is overwritten in the batch by a row of that series, and is
      either overwritten by one of its own too or stored already. */
  predicate Absorbed(db: map<Series, Table>, batch: seq<FeatureSnapshot>) {
    forall i | 0 <= i < |batch| && SeriesOf(batch[i]) != SeriesOf(batch[0]) ::
      && Superseded(batch, i, SeriesOf(batch[0]))
      && (Superseded(batch, i, SeriesOf(batch[i])) || Held(db, batch[i]))
  }

  /** The database holds every row under its own series and instant. */
  predicate WellFiled(db: map<Series, Table>) {
    forall s, time | s in db && time in db[s] :: SeriesOf(db[s][time]) == s && db[s][time].timestamp == time
  }

  // ---------- last rows by index ----------

  lemma {:induction false} LastIndex(rows: seq<FeatureSnapshot>, time: int) returns (i: nat)
    requires LastAt(rows, time).Some?
    ensures i < |rows| && rows[i] == LastAt(rows, time).value
    ensures forall j | i < j < |rows| :: rows[j].timestamp != time
  {
    var n := |rows| - 1;
    if rows[n].timestamp == time { i := n; } else { i := LastIndex(rows[..n], time); }
  }

  lemma {:induction false} WrittenIsLast(rows: seq<FeatureSnapshot>, i: nat)
    requires i < |rows|
    ensures LastAt(rows, rows[i].timestamp).Some?
  {
    if i < |rows| - 1 { WrittenIsLast(rows[..|rows| - 1], i); }
  }

  lemma {:induction false} OfMembers(batch: seq<FeatureSnapshot>, s: Series)
    ensures forall i | 0 <= i < |Of(batch, s)| :: SeriesOf(Of(batch, s)[i]) == s
  {
    if |batch| > 0 { OfMembers(batch[..|batch| - 1], s); }
  }

  lemma SupersededInit(batch: seq<FeatureSnapshot>, i: nat, s: Series)
    requires i < |batch| - 1
    ensures var last := batch[|batch| - 1];
            Superseded(batch, i, s)
            <==> Superseded(batch[..|batch| - 1], i, s) || (last.timestamp == batch[i].timestamp && SeriesOf(last) == s)
  {
    var n := |batch| - 1;
    var init := batch[..n];
    if Superseded(batch, i, s) {
      var j :| i < j < |batch| && batch[j].timestamp == batch[i].timestamp && SeriesOf(batch[j]) == s;
      assert j < n ==> init[j] == batch[j];
    }
    if Superseded(init, i, s) {
      var j :| i < j < n && init[j].timestamp == init[i].timestamp && SeriesOf(init[j]) == s;
      assert batch[j] == init[j];
    }
  }

  /** Row i decides its instant for its series unless a later one supersedes it. */
  lemma {:induction false} OfLastAt(batch: seq<FeatureSnapshot>, s: Series, i: nat)
    requires i < |batch| && SeriesOf(batch[i]) == s
    ensures var last := LastAt(Of(batch, s), batch[i].timestamp);
            last.Some? && (!Superseded(batch, i, s) ==> last.value == batch[i])
  {
    var n := |batch| - 1;
    if i < n {
      hide Superseded;
      OfLastAt(batch[..n], s, i);
      SupersededInit(batch, i, s);
      if SeriesOf(batch[n]) == s { LastAtAppend(Of(batch[..n], s), batch[n], batch[i].timestamp); }
    } else {
      LastAtAppend(Of(batch[..n], s), batch[n], batch[n].timestamp);
    }
  }

  lemma LastAtAppend(rows: seq<FeatureSnapshot>, row: FeatureSnapshot, time: int)
    ensures LastAt(rows + [row], time) == if row.timestamp == time then Some(row) else LastAt(rows, time)
  {
    assert (rows + [row])[..|rows|] == rows;
  }

  /** And what decides is some such row. */
  lemma {:induction false} OfLastIndex(batch: seq<FeatureSnapshot>, s: Series, time: int) returns (i: nat)
    requires LastAt(Of(batch, s), time).Some?
    ensures i < |batch| && batch[i] == LastAt(Of(batch, s), time).value
    ensures SeriesOf(batch[i]) == s && batch[i].timestamp == time && !Superseded(batch, i, s)
  {
    var n := |batch| - 1;
    if SeriesOf(batch[n]) == s { LastAtAppend(Of(batch[..n], s), batch[n], time); }
    if SeriesOf(batch[n]) == s && batch[n].timestamp == time {
      i := n;
    } else {
      i := OfLastIndex(batch[..n], s, time);
      SupersededInit(batch, i, s);
    }
  }

  // ---------- one table ----------

  /** Every row of another series is overwritten by one of series s. */
  predicate Overwritten(batch: seq<FeatureSnapshot>, s: Series) {
    forall i | 0 <= i < |batch| && SeriesOf(batch[i]) != s :: Superseded(batch, i, s)
  }

  /** Of series s the batch brings nothing new. */
  predicate NothingNew(db: map<Series, Table>, batch: seq<FeatureSnapshot>, s: Series) {
    forall i | 0 <= i < |batch| && SeriesOf(batch[i]) == s :: Superseded(batch, i, s) || Held(db, batch[i])
  }

  lemma LastIsOf(batch: seq<FeatureSnapshot>, s: Series, time: int)
    requires LastAt(batch, time).Some? && SeriesOf(LastAt(batch, time).value) == s
    ensures LastAt(Of(batch, s), time) == LastAt(batch, time)
  {
    var i := LastIndex(batch, time);
    OfLastAt(batch, s, i);
  }

  lemma OfIsWithin(batch: seq<FeatureSnapshot>, s: Series, time: int)
    requires LastAt(Of(batch, s), time).Some?
    ensures LastAt(batch, time).Some?
  {
    var i := OfLastIndex(batch, s, time);
    WrittenIsLast(batch, i);
  }

  /** Filing the whole batch under series s amounts to filing its own rows there if and only if the others are
      overwritten. */
  lemma FiledAsOneIff(t: Table, batch: seq<FeatureSnapshot>, s: Series)
    requires forall time | time in t :: SeriesOf(t[time]) == s
    ensures Upserted(t, batch) == Upserted(t, Of(batch, s)) <==> Overwritten(batch, s)
  {
    hide Superseded, Upserted, Of, LastAt;
    if Overwritten(batch, s) {
      forall time ensures LastAt(batch, time) == LastAt(Of(batch, s), time) {
        LastDecidedBy(batch, s, time);
      }
      SameUpsert(t, batch, Of(batch, s));
    } else {
      var i :| 0 <= i < |batch| && SeriesOf(batch[i]) != s && !Superseded(batch, i, s);
      var time := batch[i].timestamp;
      WrittenIsLast(batch, i);
      UpsertedAt(t, batch, time);
      UpsertedAt(t, Of(batch, s), time);
      OfMembers(batch, s);
      LastIsForeign(batch, i, s);
    }
  }

  lemma LastDecidedBy(batch: seq<FeatureSnapshot>, s: Series, time: int)
    requires Overwritten(batch, s)
    ensures LastAt(batch, time) == LastAt(Of(batch, s), time)
  {
    hide Of, LastAt;
    if LastAt(batch, time).Some? {
      var i := LastIndex(batch, time);
      assert SeriesOf(batch[i]) == s;
      LastIsOf(batch, s, time);
    } else if LastAt(Of(batch, s), time).Some? {
      OfIsWithin(batch, s, time);
    }
  }

  lemma SameUpsert(t: Table, rows: seq<FeatureSnapshot>, rows': seq<FeatureSnapshot>)
    requires forall time :: LastAt(rows, time) == LastAt(rows', time)
    ensures Upserted(t, rows) == Upserted(t, rows')
  {
    hide Upserted, LastAt;
    var u, u' := Upserted(t, rows), Upserted(t, rows');
    forall time ensures (time in u <==> time in u') && (time in u ==> u[time] == u'[time]) {
      UpsertedAt(t, rows, time);
      UpsertedAt(t, rows', time);
    }
  }

  /** A row that no later one of series s supersedes: what decides its instant is of another series. */
  lemma LastIsForeign(batch: seq<FeatureSnapshot>, i: nat, s: Series)
    requires i < |batch| && SeriesOf(batch[i]) != s && !Superseded(batch, i, s)
    ensures LastAt(batch, batch[i].timestamp).Some? && SeriesOf(LastAt(batch, batch[i].timestamp).value) != s
  {
    WrittenIsLast(batch, i);
    var j := LastIndex(batch, batch[i].timestamp);
  }

  /** The database's table of series s stays as it was if and only if the batch brings nothing new of it. */
  lemma KeptIff(db: map<Series, Table>, batch: seq<FeatureSnapshot>, s: Series)
    ensures (s in DatabaseUpserted(db, batch) ==> s in db && DatabaseUpserted(db, batch)[s] == db[s])
            <==> NothingNew(db, batch, s)
  {
    hide Superseded, Upserted, Of, LastAt, DatabaseUpserted;
    DatabaseFilesBySeries(db, batch, s);
    var rows, t := Of(batch, s), TableOf(db, s);
    if NothingNew(db, batch, s) {
      forall time ensures LastAt(rows, time).Some? ==> s in db && time in t && t[time] == LastAt(rows, time).value {
        if LastAt(rows, time).Some? { var i := OfLastIndex(batch, s, time); }
      }
      if rows != [] { WrittenIsLast(rows, 0); }
      ChangesNothing(t, rows);
    } else {
      var i :| 0 <= i < |batch| && SeriesOf(batch[i]) == s && !Superseded(batch, i, s) && !Held(db, batch[i]);
      OfLastAt(batch, s, i);
      UpsertedAt(t, rows, batch[i].timestamp);
    }
  }

  lemma ChangesNothing(t: Table, rows: seq<FeatureSnapshot>)
    requires forall time :: LastAt(rows, time).Some? ==> time in t && t[time] == LastAt(rows, time).value
    ensures Upserted(t, rows) == t
  {
    hide Upserted, LastAt;
    var u := Upserted(t, rows);
    forall time ensures (time in u <==> time in t) && (time in u ==> u[time] == t[time]) {
      UpsertedAt(t, rows, time);
    }
  }

  // ---------- the whole cache ----------

  lemma AbsorbedBySeries(db: map<Series, Table>, batch: seq<FeatureSnapshot>, first: Series)
    requires |batch| > 0 && first == SeriesOf(batch[0])
    ensures Absorbed(db, batch) <==> Overwritten(batch, first) && forall s | s != first :: NothingNew(db, batch, s)
  {
    hide Superseded, Held;
    if forall s | s != first :: NothingNew(db, batch, s) {
      forall i | 0 <= i < |batch| && SeriesOf(batch[i]) != first
        ensures Superseded(batch, i, SeriesOf(batch[i])) || Held(db, batch[i])
      {
        assert NothingNew(db, batch, SeriesOf(batch[i]));
      }
    }
  }

  predicate KeepsOthers(db: map<Series, Table>, db': map<Series, Table>, first: Series) {
    forall s | s in db' && s != first :: s in db && db'[s] == db[s]
  }

  predicate OwnKeys(db': map<Series, Table>, first: Series) {
    forall s | s in db' :: PlainNames(s) && (SeriesKey(s) == SeriesKey(first) ==> s == first)
  }

  /** Replacing the table of one series keeps cache and database in agreement if and only if the database holds the
      same table for it and keeps all others. */
  lemma AgreeIff(cache: map<string, Table>, db: map<Series, Table>, filed: Table, db': map<Series, Table>, first: Series)
    requires SameTables(cache, db) && PlainNames(first) && first in db' && OwnKeys(db', first)
    requires forall s | s in db :: s in db'
    ensures SameTables(cache[SeriesKey(first) := filed], db') <==> filed == db'[first] && KeepsOthers(db, db', first)
  {
    hide SeriesKey, PlainNames;
    var key := SeriesKey(first);
    var cache' := cache[key := filed];
    if SameTables(cache', db') {
      assert cache'[SeriesKey(first)] == db'[first];
      forall s | s in db' && s != first ensures s in db && db'[s] == db[s] {
        assert SeriesKey(s) in cache && cache[SeriesKey(s)] == db'[s];
      }
    }
    if filed == db'[first] && KeepsOthers(db, db', first) {
      forall s | s in db' ensures SeriesKey(s) in cache' && cache'[SeriesKey(s)] == db'[s] {
        assert s != first ==> SeriesKey(s) != key && cache[SeriesKey(s)] == db[s];
      }
      forall s | PlainNames(s) && SeriesKey(s) in cache' ensures s in db' {
        if SeriesKey(s) == key { KeysDoNotCollide(s, first); }
      }
    }
  }

  lemma BatchKeys(db: map<Series, Table>, batch: seq<FeatureSnapshot>)
    requires |batch| > 0 && forall i | 0 <= i < |batch| :: PlainNames(SeriesOf(batch[i]))
    requires forall s | s in db :: PlainNames(s)
    ensures var db' := DatabaseUpserted(db, batch);
            SeriesOf(batch[0]) in db' && OwnKeys(db', SeriesOf(batch[0])) && forall s | s in db :: s in db'
  {
    hide DatabaseUpserted, PlainNames, SeriesKey;
    var first := SeriesOf(batch[0]);
    forall s ensures s in db ==> s in DatabaseUpserted(db, batch) {
      DatabaseHasEverySeries(db, batch, s);
    }
    DatabaseHasEverySeries(db, batch, first);
    forall s | s in DatabaseUpserted(db, batch) ensures PlainNames(s) && (SeriesKey(s) == SeriesKey(first) ==> s == first) {
      DatabaseHasEverySeries(db, batch, s);
      if SeriesKey(s) == SeriesKey(first) { KeysDoNotCollide(s, first); }
    }
  }

  lemma KeepsOthersIff(db: map<Series, Table>, batch: seq<FeatureSnapshot>, first: Series)
    ensures KeepsOthers(db, DatabaseUpserted(db, batch), first) <==> forall s | s != first :: NothingNew(db, batch, s)
  {
    hide DatabaseUpserted, NothingNew;
    forall s ensures (s in DatabaseUpserted(db, batch) ==> s in db && DatabaseUpserted(db, batch)[s] == db[s])
                     <==> NothingNew(db, batch, s)
    {
      KeptIff(db, batch, s);
    }
  }

  lemma CacheTableOf(cache: map<string, Table>, db: map<Series, Table>, batch: seq<FeatureSnapshot>)
    requires SameTables(cache, db) && |batch| > 0 && PlainNames(SeriesOf(batch[0]))
    ensures var first := SeriesOf(batch[0]);
            CacheUpserted(cache, batch) == cache[SeriesKey(first) := Upserted(TableOf(db, first), batch)]
  {
    hide Upserted, SeriesKey, PlainNames;
    assert SeriesOf(batch[0]) in db <==> SeriesKey(SeriesOf(batch[0])) in cache;
  }

  /** Where cache and database agree, and the database holds every row where it belongs, they agree after a further
      batch of plain names if and only if its rows of other series are absorbed. */
  lemma MirrorsIff(cache: map<string, Table>, db: map<Series, Table>, batch: seq<FeatureSnapshot>)
    requires SameTables(cache, db) && WellFiled(db)
    requires forall i | 0 <= i < |batch| :: PlainNames(SeriesOf(batch[i]))
    ensures SameTables(CacheUpserted(cache, batch), DatabaseUpserted(db, batch)) <==> Absorbed(db, batch)
  {
    hide *;
    if |batch| == 0 {
      NothingFiled(cache, db, batch);
    } else {
      var first := SeriesOf(batch[0]);
      PlainInDatabase(cache, db);
      BatchKeys(db, batch);
      CacheTableOf(cache, db, batch);
      AgreeIff(cache, db, Upserted(TableOf(db, first), batch), DatabaseUpserted(db, batch), first);
      RowsOfTable(db, first);
      FiledAsOneIff(TableOf(db, first), batch, first);
      DatabaseFilesBySeries(db, batch, first);
      TableIs(DatabaseUpserted(db, batch), first);
      KeepsOthersIff(db, batch, first);
      AbsorbedBySeries(db, batch, first);
    }
  }

  lemma NothingFiled(cache: map<string, Table>, db: map<Series, Table>, batch: seq<FeatureSnapshot>)
    requires |batch| == 0
    ensures CacheUpserted(cache, batch) == cache && DatabaseUpserted(db, batch) == db && Absorbed(db, batch)
  {
  }

  lemma PlainInDatabase(cache: map<string, Table>, db: map<Series, Table>)
    requires SameTables(cache, db)
    ensures forall s | s in db :: PlainNames(s)
  {
  }

  lemma RowsOfTable(db: map<Series, Table>, s: Series)
    requires WellFiled(db)
    ensures forall time | time in TableOf(db, s) :: SeriesOf(TableOf(db, s)[time]) == s
  {
  }

  lemma TableIs(db: map<Series, Table>, s: Series)
    requires s in db
    ensures TableOf(db, s) == db[s]
  {
  }

  // ---------- histories ----------

  lemma {:induction false} UpsertKeepsFiled(db: map<Series, Table>, batch: seq<FeatureSnapshot>)
    requires WellFiled(db)
    ensures WellFiled(DatabaseUpserted(db, batch))
  {
    if |batch| > 0 { UpsertKeepsFiled(db, batch[..|batch| - 1]); }
  }

  lemma {:induction false} DatabaseIsFiled(batches: seq<seq<FeatureSnapshot>>)
    ensures WellFiled(DatabaseAfter(batches))
  {
    hide WellFiled;
    if |batches| == 0 {
      EmptyIsFiled();
    } else {
      DatabaseIsFiled(batches[..|batches| - 1]);
      UpsertKeepsFiled(DatabaseAfter(batches[..|batches| - 1]), batches[|batches| - 1]);
    }
  }

  lemma EmptyIsFiled()
    ensures WellFiled(map[])
  {
  }

  /** So after any history that left cache and database in agreement, whatever its batches were. */
  lemma NextBatchMirrorsIff(batches: seq<seq<FeatureSnapshot>>, batch: seq<FeatureSnapshot>)
    requires SameTables(CacheAfter(batches), DatabaseAfter(batches))
    requires forall i | 0 <= i < |batch| :: PlainNames(SeriesOf(batch[i]))
    ensures SameTables(CacheAfter(batches + [batch]), DatabaseAfter(batches + [batch]))
            <==> Absorbed(DatabaseAfter(batches), batch)
  {
    hide SameTables, Absorbed, CacheUpserted, DatabaseUpserted;
    var longer := batches + [batch];
    assert longer[..|longer| - 1] == batches;
    DatabaseIsFiled(batches);
    MirrorsIff(CacheAfter(batches), DatabaseAfter(batches), batch);
  }

  function Row(symbol: string, time: int): FeatureSnapshot {
    FeatureSnapshot("X", symbol, "1h", time, time, map[])
  }

  lemma FirstIsHeld(row: FeatureSnapshot)
    ensures Held(DatabaseAfter([[row]]), row)
  {
    var none: seq<FeatureSnapshot> := [];
    assert [[row]][..0] == [] && [row][..0] == none;
    assert DatabaseUpserted(map[], none) == map[];
    assert DatabaseUpserted(map[], [row]) == map[SeriesOf(row) := map[row.timestamp := row]];
  }

  /** Two series do not have to part cache and database: a row that is stored already, and that a row of the first
      series overwrites, is absorbed. */
  lemma TwoSeriesMayMirror()
    ensures var batches := [[Row("B", 5)], [Row("A", 1), Row("B", 5), Row("A", 5)]];
            !OneSeries(batches[1]) && SameTables(CacheAfter(batches), DatabaseAfter(batches))
  {
    var b, batch := [Row("B", 5)], [Row("A", 1), Row("B", 5), Row("A", 5)];
    assert SeriesOf(batch[1]) != SeriesOf(batch[0]);
    assert OneSeries(b);
    CacheMirrorsDatabase([b]);
    var db := DatabaseAfter([b]);
    FirstIsHeld(batch[1]);
    assert batch[2].timestamp == batch[1].timestamp && SeriesOf(batch[2]) == SeriesOf(batch[0]);
    assert Superseded(batch, 1, SeriesOf(batch[0]));
    assert Absorbed(db, batch);
    NextBatchMirrorsIff([b], batch);
    assert [b] + [batch] == [b, batch];
  }
}
