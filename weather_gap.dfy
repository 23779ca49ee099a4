/**
 * `extract_and_compare_ids`: the activity ids that have no weather row yet.
 * The ids are read from the activities database and from the weather
 * database; a read that fails with a SQLite error yields no ids. The result is
 * `list(set(...) - set(...))`, so it has no duplicates and no defined order,
 * and is a set here.
 */
module WeatherGap {
  import opened Values
  import opened Frames
  import opened Queries
  import opened RecordStore

  /** `extract_ids(conn, table)`: `[row[0] for row in SELECT id FROM table]`, or [] on error. */
  function ExtractIds(db: Database, table: string): (ids: seq<Value>)
    requires ValidDatabase(db)
    ensures table !in db ==> ids == []
  {
    SelectIds(db, table, "id")
  }

  /** `extract_and_compare_ids`. */
  function ExtractAndCompareIds(activitiesDb: Database, weatherDb: Database): (r: set<Value>)
    requires ValidDatabase(activitiesDb) && ValidDatabase(weatherDb)
    ensures forall x :: x in r <==>
              x in ExtractIds(activitiesDb, "activities") && x !in ExtractIds(weatherDb, "weather")
  {
    (set x | x in ExtractIds(activitiesDb, "activities")) - (set x | x in ExtractIds(weatherDb, "weather"))
  }

  /** Nothing is reported exactly when every activity id has a weather id. */
  lemma NoGapIffCovered(activitiesDb: Database, weatherDb: Database)
    requires ValidDatabase(activitiesDb) && ValidDatabase(weatherDb)
    ensures ExtractAndCompareIds(activitiesDb, weatherDb) == {} <==>
              forall x :: x in ExtractIds(activitiesDb, "activities") ==> x in ExtractIds(weatherDb, "weather")
  {
    var r := ExtractAndCompareIds(activitiesDb, weatherDb);
    if r != {} {
      var x :| x in r;
      assert x in ExtractIds(activitiesDb, "activities") && x !in ExtractIds(weatherDb, "weather");
    }
  }

  /** When the weather read fails (here: the table is missing), every activity id is reported. */
  lemma FailedWeatherReadReportsAll(activitiesDb: Database, weatherDb: Database)
    requires ValidDatabase(activitiesDb) && ValidDatabase(weatherDb) && "weather" !in weatherDb
    ensures ExtractAndCompareIds(activitiesDb, weatherDb) == set x | x in ExtractIds(activitiesDb, "activities")
  {
  }

  /** As a set, the result is the order-keeping comprehension `check_discrepancies` uses. */
  lemma AgreesWithMissingFrom(activitiesDb: Database, weatherDb: Database)
    requires ValidDatabase(activitiesDb) && ValidDatabase(weatherDb)
    ensures ExtractAndCompareIds(activitiesDb, weatherDb) ==
              set x | x in MissingFrom(ExtractIds(activitiesDb, "activities"), ExtractIds(weatherDb, "weather"))
  {
    MissingFromMembers(ExtractIds(activitiesDb, "activities"), ExtractIds(weatherDb, "weather"));
  }

  /** Every activity id is reported at most once, and only ids that are stored. */
  lemma GapIdsAreStored(activitiesDb: Database, weatherDb: Database)
    requires ValidDatabase(activitiesDb) && ValidDatabase(weatherDb)
    requires "activities" in activitiesDb
    ensures |ExtractAndCompareIds(activitiesDb, weatherDb)| <= |activitiesDb["activities"].rows|
    ensures var t := activitiesDb["activities"];
            forall x :: x in ExtractAndCompareIds(activitiesDb, weatherDb) ==>
              "id" in t.schema.columns &&
              exists i :: 0 <= i < |t.rows| && t.rows[i][ColumnIndex(t.schema.columns, "id").value] == x
  {
    var ids := ExtractIds(activitiesDb, "activities");
    var t := activitiesDb["activities"];
    forall x | x in ExtractAndCompareIds(activitiesDb, weatherDb)
      ensures "id" in t.schema.columns &&
              exists i :: 0 <= i < |t.rows| && t.rows[i][ColumnIndex(t.schema.columns, "id").value] == x
    {
      var i :| 0 <= i < |ids| && ids[i] == x;
    }
    SetOfSeqBound(ids);
    SubsetCard(ExtractAndCompareIds(activitiesDb, weatherDb), set x | x in ids);
  }

  lemma {:induction false} SetOfSeqBound(xs: seq<Value>)
    ensures |set x | x in xs| <= |xs|
  {
    if |xs| > 0 {
      SetOfSeqBound(xs[1..]);
      assert (set x | x in xs) == {xs[0]} + (set x | x in xs[1..]);
    } else {
      assert (set x | x in xs) == {};
    }
  }

  lemma SubsetCard(a: set<Value>, b: set<Value>)
    requires a <= b
    ensures |a| <= |b|
  {
    assert b == a + (b - a);
  }
}
