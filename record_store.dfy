/**
 * `DatabaseManager`: the store behind the incremental sync. Every statement
 * goes through `execute_query`, which turns a `sqlite3.Error` into an empty
 * result instead of raising.
 */
module RecordStore {
  import opened Values
  import opened Frames
  import opened Queries

  /** `validate_table`: the allow-list decides, anything else is a ValueError. */
  function ValidateTable(name: string): (r: Result<()>)
    ensures r.Ok? <==> name in AllowedTables
    ensures r.Err? ==> r.error == ValueError
  {
    if name in AllowedTables then Ok(()) else Err(ValueError)
  }

  /** What `execute_query` hands back for an answer: the rows, or [] after an error. */
  function RowsOf(a: Answer): seq<seq<Value>>
  {
    match a case Fetched(rows) => rows case SqlError => []
  }

  /** `[row[0] for row in execute_query(SELECT column FROM table)]`. */
  function SelectIds(db: Database, table: string, column: string): (ids: seq<Value>)
    requires ValidDatabase(db)
    ensures table in db && column in db[table].schema.columns ==>
      |ids| == |db[table].rows| &&
      forall i :: 0 <= i < |ids| ==> ids[i] == db[table].rows[i][ColumnIndex(db[table].schema.columns, column).value]
    ensures !(table in db && column in db[table].schema.columns) ==> ids == []
  {
    var rows := RowsOf(Execute(db, SelectColumn(table, column)).1);
    seq(|rows|, i requires 0 <= i < |rows| => if |rows[i]| > 0 then rows[i][0] else VNone)
  }

  /** `[item for item in xs if item not in ys]`. */
  function MissingFrom(xs: seq<Value>, ys: seq<Value>): (r: seq<Value>)
    ensures |r| <= |xs|
  {
    if |xs| == 0 then []
    else (if xs[0] in ys then [] else [xs[0]]) + MissingFrom(xs[1..], ys)
  }

  /** An element is reported exactly when it is in `xs` and not in `ys`. */
  lemma {:induction false} MissingFromMembers(xs: seq<Value>, ys: seq<Value>)
    ensures forall x :: x in MissingFrom(xs, ys) <==> x in xs && x !in ys
  {
    if |xs| > 0 {
      MissingFromMembers(xs[1..], ys);
      assert xs == [xs[0]] + xs[1..];
    }
  }

  /** The comprehension keeps the order of `xs`: filtering a concatenation is
      the concatenation of the filtered parts. */
  lemma {:induction false} MissingFromAppend(a: seq<Value>, b: seq<Value>, ys: seq<Value>)
    ensures MissingFrom(a + b, ys) == MissingFrom(a, ys) + MissingFrom(b, ys)
    decreases |a|
  {
    if |a| > 0 {
      assert (a + b)[1..] == a[1..] + b;
      MissingFromAppend(a[1..], b, ys);
    } else {
      assert a + b == b;
    }
  }

  /** What `check_discrepancies` logs: the activity ids missing from zones,
      from splits and from the cache. */
  datatype Report = Report(missingZones: seq<Value>, missingSplits: seq<Value>, missingCache: seq<Value>)

  /** Running `INSERT OR IGNORE` row after row, as `insert_dataframe_to_db` does. */
  function InsertRows(db: Database, table: string, columns: seq<string>, rows: seq<seq<Value>>): (r: Database)
    requires ValidDatabase(db)
    ensures ValidDatabase(r)
    decreases |rows|
  {
    if |rows| == 0 then db
    else
      var st := InsertOrIgnoreQuery(table, columns, rows[0]);
      ExecuteKeepsShape(db, st);
      InsertRows(Execute(db, st).0, table, columns, rows[1..])
  }

  /** A row has nothing left to do in a table: the statement fails, or its
      key holds no NULL and is stored. */
  predicate Settled(db: Database, table: string, columns: seq<string>, values: seq<Value>)
    requires ValidDatabase(db)
  {
    || table !in db
    || InsertFails(db[table].schema, columns, values)
    || (var k := KeyOf(db[table].schema, BuildRow(db[table].schema, columns, values).value);
        VNone !in k && HasKey(db[table], k))
  }

  /** The table only gained rows at the end; everything else is as it was. */
  predicate Grown(db: Database, db2: Database, table: string)
    requires ValidDatabase(db) && ValidDatabase(db2)
  {
    && db2.Keys == db.Keys
    && (forall name :: name in db && name != table ==> db2[name] == db[name])
    && (table in db ==> db2[table].schema == db[table].schema && db[table].rows <= db2[table].rows)
  }

  /** One INSERT OR IGNORE only appends, and leaves its row settled unless
      the row's key holds a NULL. */
  lemma InsertOrIgnoreGrows(db: Database, table: string, columns: seq<string>, values: seq<Value>)
    requires ValidDatabase(db)
    ensures ValidDatabase(Execute(db, InsertOrIgnoreQuery(table, columns, values)).0)
    ensures Grown(db, Execute(db, InsertOrIgnoreQuery(table, columns, values)).0, table)
    ensures table in db && !NullKeyRow(db[table].schema, columns, values) ==>
              Settled(Execute(db, InsertOrIgnoreQuery(table, columns, values)).0, table, columns, values)
  {
    var st := InsertOrIgnoreQuery(table, columns, values);
    ExecuteKeepsShape(db, st);
    if table in db {
      var t := db[table];
      InsertErrors(db, st);
      if !InsertFails(t.schema, columns, values) {
        var row := BuildRow(t.schema, columns, values).value;
        var t2 := Execute(db, st).0[table];
        var k := KeyOf(t.schema, row);
        if VNone in k {
          NullKeyAppends(t, st);
        } else {
          PlacedKeyed(t, t, row);
          match FindKey(t, k, 0)
          case Some(i) =>
            assert t2 == t;
          case None =>
            assert t2.rows == t.rows + [row];
            assert t2.rows[|t.rows|] == row;
        }
      }
    }
  }

  lemma {:induction false} GrownTransitive(a: Database, b: Database, c: Database, table: string)
    requires ValidDatabase(a) && ValidDatabase(b) && ValidDatabase(c)
    requires Grown(a, b, table) && Grown(b, c, table)
    ensures Grown(a, c, table)
  {
    if table in a {
      assert a[table].rows <= b[table].rows <= c[table].rows;
    }
  }

  lemma SettledStaysSettled(db: Database, db2: Database, table: string, columns: seq<string>, values: seq<Value>)
    requires ValidDatabase(db) && ValidDatabase(db2)
    requires Grown(db, db2, table) && Settled(db, table, columns, values)
    ensures Settled(db2, table, columns, values)
  {
    if table in db && !InsertFails(db[table].schema, columns, values) {
      var t, t2 := db[table], db2[table];
      var k := KeyOf(t.schema, BuildRow(t.schema, columns, values).value);
      var i :| 0 <= i < |t.rows| && KeyOf(t.schema, t.rows[i]) == k;
      assert t2.rows[i] == t.rows[i];
    }
  }

  lemma {:induction false} InsertRowsGrows(db: Database, table: string, columns: seq<string>, rows: seq<seq<Value>>)
    requires ValidDatabase(db)
    ensures Grown(db, InsertRows(db, table, columns, rows), table)
    decreases |rows|
  {
    if |rows| > 0 {
      var db1 := Execute(db, InsertOrIgnoreQuery(table, columns, rows[0])).0;
      InsertOrIgnoreGrows(db, table, columns, rows[0]);
      InsertRowsGrows(db1, table, columns, rows[1..]);
      GrownTransitive(db, db1, InsertRows(db, table, columns, rows), table);
    }
  }

  /** After the inserts every row is settled, stored under its key or
      failing, except the rows whose key holds a NULL. */
  lemma {:induction false} InsertRowsSettles(db: Database, table: string, columns: seq<string>, rows: seq<seq<Value>>)
    requires ValidDatabase(db)
    ensures forall k :: 0 <= k < |rows| && (table in db ==> !NullKeyRow(db[table].schema, columns, rows[k])) ==>
              Settled(InsertRows(db, table, columns, rows), table, columns, rows[k])
    decreases |rows|
  {
    if |rows| > 0 {
      var db1 := Execute(db, InsertOrIgnoreQuery(table, columns, rows[0])).0;
      var last := InsertRows(db, table, columns, rows);
      InsertOrIgnoreGrows(db, table, columns, rows[0]);
      InsertRowsSettles(db1, table, columns, rows[1..]);
      InsertRowsGrows(db1, table, columns, rows[1..]);
      if table !in db || !NullKeyRow(db[table].schema, columns, rows[0]) {
        SettledStaysSettled(db1, last, table, columns, rows[0]);
      }
      forall k | 1 <= k < |rows| && (table in db ==> !NullKeyRow(db[table].schema, columns, rows[k]))
        ensures Settled(last, table, columns, rows[k])
      {
        assert rows[k] == rows[1..][k - 1];
      }
    }
  }

  /** A settled row's INSERT OR IGNORE changes nothing. */
  lemma SettledChangesNothing(db: Database, table: string, columns: seq<string>, values: seq<Value>)
    requires ValidDatabase(db) && Settled(db, table, columns, values)
    ensures Execute(db, InsertOrIgnoreQuery(table, columns, values)).0 == db
  {
    var st := InsertOrIgnoreQuery(table, columns, values);
    if table in db {
      var t := db[table];
      InsertErrors(db, st);
      if !InsertFails(t.schema, columns, values) {
        var row := BuildRow(t.schema, columns, values).value;
        var k := KeyOf(t.schema, row);
        var i :| 0 <= i < |t.rows| && KeyOf(t.schema, t.rows[i]) == k;
        PlacedKeyed(t, t, row);
        assert FindKey(t, k, 0).Some?;
        SameTableSameDatabase(db, st);
      }
    }
  }

  /** Inserting rows that are all settled changes nothing. */
  lemma {:induction false} SettledRowsChangeNothing(db: Database, table: string, columns: seq<string>, rows: seq<seq<Value>>)
    requires ValidDatabase(db)
    requires forall k :: 0 <= k < |rows| ==> Settled(db, table, columns, rows[k])
    ensures InsertRows(db, table, columns, rows) == db
    decreases |rows|
  {
    if |rows| > 0 {
      SettledChangesNothing(db, table, columns, rows[0]);
      forall k | 0 <= k < |rows[1..]| ensures Settled(db, table, columns, rows[1..][k]) {
        assert rows[1..][k] == rows[k + 1];
      }
      SettledRowsChangeNothing(db, table, columns, rows[1..]);
    }
  }

  /** Inserting the same frame a second time changes nothing exactly when no
      row's key holds a NULL; a row with a NULL in its key is stored again. */
  lemma InsertRowsIdempotent(db: Database, table: string, columns: seq<string>, rows: seq<seq<Value>>)
    requires ValidDatabase(db)
    ensures var once := InsertRows(db, table, columns, rows);
            InsertRows(once, table, columns, rows) == once <==>
              (table in db ==> forall k :: 0 <= k < |rows| ==> !NullKeyRow(db[table].schema, columns, rows[k]))
  {
    var once := InsertRows(db, table, columns, rows);
    InsertRowsGrows(db, table, columns, rows);
    if table in db && exists k :: 0 <= k < |rows| && NullKeyRow(db[table].schema, columns, rows[k]) {
      var k :| 0 <= k < |rows| && NullKeyRow(db[table].schema, columns, rows[k]);
      InsertRowsAddsNullKeys(once, table, columns, rows, k);
    } else {
      InsertRowsSettles(db, table, columns, rows);
      SettledRowsChangeNothing(once, table, columns, rows);
    }
  }

  /** A row whose key holds a NULL makes the table longer every time. */
  lemma {:induction false} InsertRowsAddsNullKeys(db: Database, table: string, columns: seq<string>, rows: seq<seq<Value>>, k: nat)
    requires ValidDatabase(db) && table in db && k < |rows| && NullKeyRow(db[table].schema, columns, rows[k])
    ensures table in InsertRows(db, table, columns, rows)
    ensures |InsertRows(db, table, columns, rows)[table].rows| > |db[table].rows|
    decreases |rows|
  {
    var st := InsertOrIgnoreQuery(table, columns, rows[0]);
    var db1 := Execute(db, st).0;
    InsertOrIgnoreGrows(db, table, columns, rows[0]);
    InsertRowsGrows(db1, table, columns, rows[1..]);
    if k == 0 {
      NullKeyAppends(db[table], st);
    } else {
      assert rows[1..][k - 1] == rows[k];
      InsertRowsAddsNullKeys(db1, table, columns, rows[1..], k - 1);
    }
  }

  /** The inserts touch only the named table; its existing rows stay, unchanged
      and in place, and new rows come after them. */
  lemma InsertRowsKeepsExisting(db: Database, table: string, columns: seq<string>, rows: seq<seq<Value>>)
    requires ValidDatabase(db)
    ensures var db2 := InsertRows(db, table, columns, rows);
            && db2.Keys == db.Keys
            && (forall name :: name in db && name != table ==> db2[name] == db[name])
            && (table in db ==> db[table].rows <= db2[table].rows)
  {
    InsertRowsGrows(db, table, columns, rows);
  }

  /** A column the table does not have makes every row fail; the failures are
      swallowed and the table is left as it was. */
  lemma UnknownColumnChangesNothing(db: Database, table: string, columns: seq<string>, rows: seq<seq<Value>>)
    requires ValidDatabase(db) && table in db
    requires exists k :: 0 <= k < |columns| && columns[k] !in db[table].schema.columns
    ensures InsertRows(db, table, columns, rows) == db
  {
    SettledRowsChangeNothing(db, table, columns, rows);
  }

  class DatabaseManager {
    var db: Database

    predicate Valid()
      reads this
    {
      ValidDatabase(db)
    }

    constructor (initial: Database)
      requires ValidDatabase(initial)
      ensures db == initial && Valid()
    {
      db := initial;
    }

    /** `execute_query`: runs one statement; an SQLite error gives [] and is not raised. */
    method ExecuteQuery(st: Statement) returns (rows: seq<seq<Value>>)
      requires Valid()
      modifies this
      ensures Valid()
      ensures db == Execute(old(db), st).0
      ensures rows == RowsOf(Execute(old(db), st).1)
    {
      ExecuteKeepsShape(db, st);
      var (next, answer) := Execute(db, st);
      db := next;
      rows := RowsOf(answer);
    }

    /** `update_cache`: `INSERT OR REPLACE` of the id into the cache. */
    method UpdateCache(id: Value)
      requires Valid()
      modifies this
      ensures Valid()
      ensures db == Execute(old(db), InsertIdToCache(id)).0
    {
      var _ := ExecuteQuery(InsertIdToCache(id));
    }

    /** `get_ids_from_cache`. */
    function IdsFromCache(): seq<Value>
      reads this
      requires Valid()
    {
      SelectIds(db, GetCachedIds.table, GetCachedIds.column)
    }

    /** `get_ids_from_zones`, `get_ids_from_splits` and `get_ids_from_activities`
        as written: each runs `GET_CACHED_IDS`. */
    function IdsFromZones(): seq<Value>
      reads this
      requires Valid()
    {
      SelectIds(db, GetCachedIds.table, GetCachedIds.column)
    }

    function IdsFromSplits(): seq<Value>
      reads this
      requires Valid()
    {
      SelectIds(db, GetCachedIds.table, GetCachedIds.column)
    }

    function IdsFromActivities(): seq<Value>
      reads this
      requires Valid()
    {
      SelectIds(db, GetCachedIds.table, GetCachedIds.column)
    }

    /** `check_discrepancies` as written: an id is reported missing from a
        table when the activities getter returns it and that table's getter
        does not; since every getter reads the cache, it compares the cache
        with itself. */
    function CheckDiscrepancies(): (r: Report)
      reads this
      requires Valid()
      ensures forall x :: x in r.missingZones <==> x in IdsFromActivities() && x !in IdsFromZones()
      ensures forall x :: x in r.missingSplits <==> x in IdsFromActivities() && x !in IdsFromSplits()
      ensures forall x :: x in r.missingCache <==> x in IdsFromActivities() && x !in IdsFromCache()
    {
      var activities := IdsFromActivities();
      MissingFromMembers(activities, IdsFromZones());
      MissingFromMembers(activities, IdsFromSplits());
      MissingFromMembers(activities, IdsFromCache());
      Report(MissingFrom(activities, IdsFromZones()), MissingFrom(activities, IdsFromSplits()),
             MissingFrom(activities, IdsFromCache()))
    }

    /** `check_discrepancies` with each list read from its own table. */
    function CheckDiscrepanciesIntended(): (r: Report)
      reads this
      requires Valid()
      ensures forall x :: x in r.missingZones <==>
                x in SelectIds(db, "activities", "id") && x !in SelectIds(db, "zones", "id")
      ensures forall x :: x in r.missingSplits <==>
                x in SelectIds(db, "activities", "id") && x !in SelectIds(db, "splits", "id")
      ensures forall x :: x in r.missingCache <==>
                x in SelectIds(db, "activities", "id") && x !in SelectIds(db, "cache", "id")
    {
      var activities := SelectIds(db, GetActivitiesIds.table, GetActivitiesIds.column);
      MissingFromMembers(activities, SelectIds(db, GetZonesIds.table, GetZonesIds.column));
      MissingFromMembers(activities, SelectIds(db, GetSplitsIds.table, GetSplitsIds.column));
      MissingFromMembers(activities, SelectIds(db, GetCachedIds.table, GetCachedIds.column));
      Report(MissingFrom(activities, SelectIds(db, GetZonesIds.table, GetZonesIds.column)),
             MissingFrom(activities, SelectIds(db, GetSplitsIds.table, GetSplitsIds.column)),
             MissingFrom(activities, SelectIds(db, GetCachedIds.table, GetCachedIds.column)))
    }

    /** `get_row_count`: the table is not validated; an unknown name is an SQLite
        error, the empty result, and a count of 0. */
    function RowCount(name: string): (n: int)
      reads this
      requires Valid()
      ensures n == if name in db then |db[name].rows| else 0
    {
      var rows := RowsOf(Execute(db, GetRowCount(name)).1);
      if |rows| > 0 && |rows[0]| > 0 && rows[0][0].VInt? then rows[0][0].i else 0
    }

    /** `clear_cache`, with the operator's answer as a parameter: only "y" or
        "Y" (what `upper()` turns into "Y") empties the cache. */
    method ClearCache(answer: string)
      requires Valid()
      modifies this
      ensures Valid()
      ensures answer == "y" || answer == "Y" ==> db == Execute(old(db), Queries.ClearCache).0
      ensures answer != "y" && answer != "Y" ==> db == old(db)
    {
      if answer == "y" || answer == "Y" {
        var _ := ExecuteQuery(Queries.ClearCache);
      }
    }

    /** `insert_dataframe_to_db`: the table name is checked first, so an unknown
        name raises even for a missing or empty frame; a missing or empty frame
        writes nothing; otherwise each row goes through `INSERT OR IGNORE` on
        its own. */
    method InsertDataFrame(df: Option<Frame>, table: string) returns (r: Result<()>)
      requires Valid()
      requires df.Some? ==> WellFormed(df.value)
      modifies this
      ensures Valid()
      ensures r.Err? <==> table !in AllowedTables
      ensures r.Err? ==> r.error == ValueError && db == old(db)
      ensures r.Ok? && (df.None? || IsEmpty(df.value)) ==> db == old(db)
      ensures r.Ok? && df.Some? && !IsEmpty(df.value) ==>
                db == InsertRows(old(db), table, df.value.columns, df.value.rows)
    {
      r := ValidateTable(table);
      if r.Err? {
        return;
      }
      if df.None? || IsEmpty(df.value) {
        return;
      }
      var frame := df.value;
      var i := 0;
      while i < |frame.rows|
        invariant 0 <= i <= |frame.rows|
        invariant Valid()
        invariant InsertRows(db, table, frame.columns, frame.rows[i..]) ==
                  InsertRows(old(db), table, frame.columns, frame.rows)
      {
        assert frame.rows[i..][1..] == frame.rows[i + 1..];
        var _ := ExecuteQuery(InsertOrIgnoreQuery(table, frame.columns, frame.rows[i]));
        i := i + 1;
      }
    }
  }

  /** As written, `check_discrepancies` never reports anything. */
  lemma CheckDiscrepanciesReportsNothing(m: DatabaseManager)
    requires m.Valid()
    ensures m.CheckDiscrepancies() == Report([], [], [])
  {
    MissingFromCovered(m.IdsFromActivities(), m.IdsFromActivities());
  }

  /** Nothing is missing from a list that holds every element. */
  lemma {:induction false} MissingFromCovered(xs: seq<Value>, ys: seq<Value>)
    requires forall k :: 0 <= k < |xs| ==> xs[k] in ys
    ensures MissingFrom(xs, ys) == []
    decreases |xs|
  {
    if |xs| > 0 {
      MissingFromCovered(xs[1..], ys);
    }
  }

  /** The value the cache's INTEGER column makes of an id sqlite3 can bind. */
  function CachedValue(id: Value): (r: Option<Value>)
    ensures r.None? <==> id.VList? || id.VDict?
    ensures r.Some? ==> (r.value == VNone <==> id == VNone)
  {
    match Bind(id) case None => None case Some(v) => Some(Coerce(IntegerAffinity, v))
  }

  /** The cache's key for an id is the converted id; it holds a NULL only for None. */
  lemma CacheStatement(id: Value)
    requires CachedValue(id).Some?
    ensures BuildRow(CacheSchema, ["id"], [id]) == Some([CachedValue(id).value])
    ensures ValidSchema(CacheSchema) && KeyOf(CacheSchema, [CachedValue(id).value]) == [CachedValue(id).value]
    ensures NullKeyRow(CacheSchema, ["id"], [id]) <==> id == VNone
  {
    CacheRow(id);
    CacheKey([CachedValue(id).value]);
  }

  /** With the cache as created, caching an id twice is caching it once,
      except for None, which takes a new rowid each time. */
  lemma UpdateCacheIdempotent(db: Database, id: Value)
    requires ValidDatabase(db) && "cache" in db && db["cache"].schema == CacheSchema
    ensures ValidDatabase(Execute(db, InsertIdToCache(id)).0)
    ensures (Execute(Execute(db, InsertIdToCache(id)).0, InsertIdToCache(id)).0 == Execute(db, InsertIdToCache(id)).0)
              <==> id != VNone
  {
    InsertIdempotent(db, InsertIdToCache(id));
    if CachedValue(id).Some? {
      CacheStatement(id);
    } else {
      assert BuildRow(CacheSchema, ["id"], [id]).None? by { assert Bind([id][0]).None?; }
    }
  }

  /** With the cache as created, caching an id touches no other table, and
      an integer (or integer text, or a bool) joins the set of cached ids.
      None and the ids the cache cannot hold are the subjects of
      `UpdateCacheNull` and `UpdateCacheRejected`. */
  lemma UpdateCacheAddsId(db: Database, id: Value)
    requires ValidDatabase(db) && "cache" in db && db["cache"].schema == CacheSchema
    ensures ValidDatabase(Execute(db, InsertIdToCache(id)).0)
    ensures var db2 := Execute(db, InsertIdToCache(id)).0;
            var before := SelectIds(db, "cache", "id");
            var after := SelectIds(db2, "cache", "id");
            && db2.Keys == db.Keys
            && (forall name :: name in db && name != "cache" ==> db2[name] == db[name])
            && (CachedValue(id).Some? && CachedValue(id).value.VInt? ==>
                  (set x | x in after) == (set x | x in before) + {CachedValue(id).value})
  {
    ExecuteKeepsShape(db, InsertIdToCache(id));
    var before := SelectIds(db, "cache", "id");
    var after := SelectIds(Execute(db, InsertIdToCache(id)).0, "cache", "id");
    if CachedValue(id).None? || (!CachedValue(id).value.VInt? && id != VNone) {
      UpdateCacheRejected(db, id);
    } else if id == VNone {
      UpdateCacheNull(db);
    } else {
      var c := CachedValue(id).value;
      if FindKey(db["cache"], [c], 0).Some? {
        UpdateCacheFound(db, id, FindKey(db["cache"], [c], 0).value);
        assert after == before && c in before;
      } else {
        UpdateCacheNew(db, id);
        assert after == before + [c];
      }
    }
  }

  /** An id the cache cannot hold: the error is swallowed and nothing changes. */
  lemma UpdateCacheRejected(db: Database, id: Value)
    requires ValidDatabase(db) && "cache" in db && db["cache"].schema == CacheSchema
    requires CachedValue(id).None? || (!CachedValue(id).value.VInt? && id != VNone)
    ensures Execute(db, InsertIdToCache(id)).0 == db
  {
    if CachedValue(id).Some? {
      CacheStatement(id);
    } else {
      assert BuildRow(CacheSchema, ["id"], [id]).None? by { assert Bind([id][0]).None?; }
    }
    assert RowidColumn(CacheSchema) == 0;
    InsertErrors(db, InsertIdToCache(id));
  }

  /** An id already cached: the cache reads as before, and holds the id. */
  lemma UpdateCacheFound(db: Database, id: Value, i: nat)
    requires ValidDatabase(db) && "cache" in db && db["cache"].schema == CacheSchema
    requires CachedValue(id).Some? && CachedValue(id).value.VInt?
    requires FindKey(db["cache"], [CachedValue(id).value], 0) == Some(i)
    ensures ValidDatabase(Execute(db, InsertIdToCache(id)).0)
    ensures SelectIds(Execute(db, InsertIdToCache(id)).0, "cache", "id") == SelectIds(db, "cache", "id")
    ensures CachedValue(id).value in SelectIds(db, "cache", "id")
  {
    ExecuteKeepsShape(db, InsertIdToCache(id));
    var t := db["cache"];
    var c := CachedValue(id).value;
    CacheStatement(id);
    CacheKey(t.rows[i]);
    assert t.rows[i] == [t.rows[i][0]];
    assert t.rows[i] == [c];
    assert Placed(t, [c]) == Some([c]);
    assert Execute(db, InsertIdToCache(id)).0["cache"].rows == t.rows[i := [c]] == t.rows;
    assert SelectIds(db, "cache", "id")[i] == c;
  }

  /** A new integer id: the cache reads as before followed by the id. */
  lemma UpdateCacheNew(db: Database, id: Value)
    requires ValidDatabase(db) && "cache" in db && db["cache"].schema == CacheSchema
    requires CachedValue(id).Some? && CachedValue(id).value.VInt?
    requires FindKey(db["cache"], [CachedValue(id).value], 0).None?
    ensures ValidDatabase(Execute(db, InsertIdToCache(id)).0)
    ensures SelectIds(Execute(db, InsertIdToCache(id)).0, "cache", "id") == SelectIds(db, "cache", "id") + [CachedValue(id).value]
  {
    ExecuteKeepsShape(db, InsertIdToCache(id));
    var c := CachedValue(id).value;
    CacheStatement(id);
    assert Placed(db["cache"], [c]) == Some([c]);
    assert Execute(db, InsertIdToCache(id)).0["cache"].rows == db["cache"].rows + [[c]];
    CachedIdsAppend(db, Execute(db, InsertIdToCache(id)).0, c);
  }

  /** None: the cache reads as before followed by the next rowid, which no
      cached id has. */
  lemma UpdateCacheNull(db: Database)
    requires ValidDatabase(db) && "cache" in db && db["cache"].schema == CacheSchema
    ensures ValidDatabase(Execute(db, InsertIdToCache(VNone)).0)
    ensures SelectIds(Execute(db, InsertIdToCache(VNone)).0, "cache", "id") ==
              SelectIds(db, "cache", "id") + [VInt(NextRowid(db["cache"]))]
    ensures VInt(NextRowid(db["cache"])) !in SelectIds(db, "cache", "id")
  {
    var st := InsertIdToCache(VNone);
    var t := db["cache"];
    CacheStatement(VNone);
    assert RowidColumn(CacheSchema) == 0;
    NullKeyAppends(t, st);
    var p := StoredRow(t, ["id"], [VNone]).value;
    assert p == [VInt(NextRowid(t))] by {
      assert |p| == 1 && p[0] == VInt(NextRowid(t));
    }
    ExecuteKeepsShape(db, st);
    assert Execute(db, st).0["cache"].rows == t.rows + [p];
    CachedIdsAppend(db, Execute(db, st).0, VInt(NextRowid(t)));
    NextRowidIsFresh(t);
  }

  /** Appending the one-column row `[x]` to the cache appends `x` to its ids. */
  lemma CachedIdsAppend(db: Database, db2: Database, x: Value)
    requires ValidDatabase(db) && ValidDatabase(db2) && "cache" in db && "cache" in db2
    requires db["cache"].schema == CacheSchema && db2["cache"].schema == CacheSchema
    requires db2["cache"].rows == db["cache"].rows + [[x]]
    ensures SelectIds(db2, "cache", "id") == SelectIds(db, "cache", "id") + [x]
  {
    assert ColumnIndex(CacheSchema.columns, "id") == Some(0);
  }

  /** A store whose activities table holds one activity and whose cache holds
      it too, while the zones and splits tables are empty. */
  function OneUnprocessedActivity(): (db: Database)
    ensures ValidDatabase(db)
  {
    Store(OneActivityTable(), NoZones(), NoSplits(), OneCachedTable())
  }

  /** The store made of the four tables `check_discrepancies` reads. */
  function Store(activities: Table, zones: Table, splits: Table, cache: Table): (db: Database)
    requires ValidTable(activities) && ValidTable(zones) && ValidTable(splits) && ValidTable(cache)
    ensures ValidDatabase(db)
  {
    map["activities" := activities, "zones" := zones, "splits" := splits, "cache" := cache]
  }

  /** Activity 1, with every other column NULL. */
  function OneActivityTable(): (t: Table)
    ensures ValidTable(t)
  {
    ActivitiesSchemaValid();
    Table(ActivitiesSchema, [[VInt(1)] + seq(19, _ => VNone)])
  }

  /** The cache holding activity 1. */
  function OneCachedTable(): (t: Table)
    ensures ValidTable(t)
  {
    CacheSchemaValid();
    Table(CacheSchema, [[VInt(1)]])
  }

  /** The zones table with no rows. */
  function NoZones(): (t: Table)
    ensures ValidTable(t)
  {
    ZonesSchemaValid();
    Table(ZonesSchema, [])
  }

  /** The splits table with no rows. */
  function NoSplits(): (t: Table)
    ensures ValidTable(t)
  {
    SplitsSchemaValid();
    Table(SplitsSchema, [])
  }

  /** The id lists the getters read from that store. */
  lemma OneUnprocessedIds()
    ensures var db := OneUnprocessedActivity();
            && SelectIds(db, "activities", "id") == [VInt(1)]
            && SelectIds(db, "zones", "id") == []
            && SelectIds(db, "splits", "id") == []
            && SelectIds(db, "cache", "id") == [VInt(1)]
  {
    var db := OneUnprocessedActivity();
    OneActivityIds(db);
    OneCachedIds(db);
    SelectNoRows(db, "zones", "id");
    SelectNoRows(db, "splits", "id");
  }

  /** The activities getter reads the one activity id. */
  lemma OneActivityIds(db: Database)
    requires db == OneUnprocessedActivity()
    ensures SelectIds(db, "activities", "id") == [VInt(1)]
  {
    assert ColumnIndex(ActivitiesColumns, "id") == Some(0);
    SelectOneRow(db, "activities", "id");
  }

  /** The cache getter reads the one cached id. */
  lemma OneCachedIds(db: Database)
    requires db == OneUnprocessedActivity()
    ensures SelectIds(db, "cache", "id") == [VInt(1)]
  {
    assert ColumnIndex(CacheSchema.columns, "id") == Some(0);
    SelectOneRow(db, "cache", "id");
  }

  /** Reading a column the first row of a one-row table starts with. */
  lemma SelectOneRow(db: Database, table: string, column: string)
    requires ValidDatabase(db) && table in db && |db[table].rows| == 1
    requires ColumnIndex(db[table].schema.columns, column) == Some(0)
    ensures SelectIds(db, table, column) == [db[table].rows[0][0]]
  {
  }

  /** Reading a column of an empty table. */
  lemma SelectNoRows(db: Database, table: string, column: string)
    requires ValidDatabase(db) && table in db && db[table].rows == []
    ensures SelectIds(db, table, column) == []
  {
  }

  /** On that store the corrected check reports the activity as missing zones
      and splits, while `check_discrepancies` as written reports nothing. */
  lemma DiscrepancyMissed(m: DatabaseManager)
    requires m.db == OneUnprocessedActivity()
    ensures m.CheckDiscrepancies() == Report([], [], [])
    ensures m.CheckDiscrepanciesIntended() == Report([VInt(1)], [VInt(1)], [])
  {
    CheckDiscrepanciesReportsNothing(m);
    OneUnprocessedIds();
    assert MissingFrom([VInt(1)], []) == [VInt(1)];
    assert MissingFrom([VInt(1)], [VInt(1)]) == [];
  }
}
