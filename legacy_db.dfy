/**
 * The per-record store: three SQLite databases with one table each, for
 * activities, gear and weather. Each insert first asks whether a row with
 * the record's key is there (`SELECT ... WHERE key = ?`), then inserts
 * (activities, weather) or updates or inserts (gear). The connection commits
 * only after the last statement, so a call that raises leaves its table as
 * it was. The tables behave as the SQLite model of `Queries` says.
 */
module LegacyDb {
  import opened Values
  import opened Frames
  import opened PyStr
  import opened Queries

  const LegacyActivitiesColumns: seq<string> :=
    ["id", "date", "month", "day_of_week", "start_time", "end_time", "sport_type", "indoor",
     "distance", "duration", "elevation_gain", "gear_id", "average_heartrate", "average_speed",
     "average_cadence", "average_temp", "average_watts", "intensity", "lat_lng"]

  const LegacyActivitiesTypes: seq<Affinity> :=
    [IntegerAffinity, TextAffinity, TextAffinity, TextAffinity, TextAffinity, TextAffinity, TextAffinity,
     IntegerAffinity, RealAffinity, RealAffinity, RealAffinity, TextAffinity, RealAffinity, RealAffinity,
     RealAffinity, RealAffinity, RealAffinity, IntegerAffinity, TextAffinity]

  /** The activities table of `activities.db`; `id` is an `INTEGER PRIMARY KEY`. */
  const LegacyActivitiesSchema: Schema := Schema(LegacyActivitiesColumns, LegacyActivitiesTypes, ["id"], true)

  /** The gear table of `gear.db` is declared like the record store's: a
      TEXT `gear_id` key, which SQLite lets hold NULL. */
  const LegacyGearSchema: Schema := GearSchema

  const LegacyWeatherColumns: seq<string> :=
    ["id", "date", "temp", "weather_type", "precipitation", "rain", "wind", "snow"]

  /** The weather table of `weather.db`; `id` is an `INTEGER PRIMARY KEY`. */
  const LegacyWeatherSchema: Schema :=
    Schema(LegacyWeatherColumns,
           [IntegerAffinity, TextAffinity, RealAffinity, TextAffinity, RealAffinity, RealAffinity, RealAffinity, RealAffinity],
           ["id"], true)

  /** No activities column is declared twice, and the key is the INTEGER `id`. */
  lemma LegacyActivitiesSchemaValid()
    ensures ValidSchema(LegacyActivitiesSchema)
  {
    LegacyActivitiesColumnsDistinct();
    assert ColumnIndex(LegacyActivitiesColumns, "id") == Some(0);
  }

  /** Each column sits at its own position: the record store's activities
      columns less `name`. */
  lemma LegacyActivitiesColumnsDistinct()
    ensures Distinct(LegacyActivitiesColumns)
  {
    forall i | 0 <= i < |LegacyActivitiesColumns|
      ensures ActivitiesColumnPosition(LegacyActivitiesColumns[i]) == if i == 0 then 0 else i + 1
    {
    }
  }

  lemma LegacyWeatherSchemaValid()
    ensures ValidSchema(LegacyWeatherSchema)
  {
    assert ColumnIndex(LegacyWeatherColumns, "id") == Some(0);
  }

  // ---------------------------------------------------------------------
  // The check-then-insert that `insert_activity` and `insert_weather` share

  /** Column `c` alone is the table's primary key, and the INSERT lists it first. */
  predicate KeyedBy(t: Table, c: string, columns: seq<string>) {
    ValidTable(t) && t.schema.key == [c] && |columns| > 0 && columns[0] == c
  }

  /** Some stored row makes `c = ?` true for the bound parameter `p`. */
  predicate Present(t: Table, c: string, p: Value)
    requires ValidTable(t) && c in t.schema.columns
  {
    exists i :: 0 <= i < |t.rows| && Matches(t.schema, t.rows[i], ColumnIndex(t.schema.columns, c).value, p)
  }

  /** `SELECT 1 FROM table WHERE c = ?` with the id, then, when no row came
      back, a plain INSERT of `values`. The values are worked out between the
      two statements, so their error is raised only when the INSERT is
      reached; a failing statement raises `sqlite3.Error`. */
  function CheckThenInsert(t: Table, name: string, c: string, id: Value, columns: seq<string>,
                           values: Result<seq<Value>>): (r: Result<Table>)
    requires ValidTable(t)
  {
    match SelectWhereIn(t, c, id)
    case SqlError => Err(SqliteError)
    case Fetched(found) =>
      if |found| > 0 then Ok(t)
      else if values.Err? then Err(values.error)
      else
        match Apply(t, Insert(Abort, name, columns, values.value))
        case (_, SqlError) => Err(SqliteError)
        case (t2, Fetched(_)) => Ok(t2)
  }

  /** The SELECT fetches a row exactly when one is present. */
  lemma SelectSeesPresent(t: Table, c: string, id: Value)
    requires ValidTable(t) && c in t.schema.columns && Bind(id).Some?
    ensures SelectWhereIn(t, c, id).Fetched?
    ensures |SelectWhereIn(t, c, id).rows| > 0 <==> Present(t, c, Bind(id).value)
  {
    var j := ColumnIndex(t.schema.columns, c).value;
    HitsSeePresent(t, c, j, Bind(id).value);
  }

  lemma HitsSeePresent(t: Table, c: string, j: nat, p: Value)
    requires ValidTable(t) && c in t.schema.columns && j == ColumnIndex(t.schema.columns, c).value
    ensures |Hits(t, j, p)| > 0 <==> Present(t, c, p)
  {
    var hits := Hits(t, j, p);
    if Present(t, c, p) {
      var i :| 0 <= i < |t.rows| && Matches(t.schema, t.rows[i], j, p);
      assert i in hits;
    }
    if |hits| > 0 {
      assert Matches(t.schema, t.rows[hits[0]], j, p);
    }
  }

  /** A bound value is NULL, and its converted form is NULL, only for None. */
  lemma NullOnlyFromNone(a: Affinity, id: Value)
    requires Bind(id).Some?
    ensures Coerce(a, Bind(id).value) == VNone <==> id == VNone
  {
  }

  /** The key of the built row is the converted id. */
  lemma BuiltKey(t: Table, c: string, columns: seq<string>, values: seq<Value>)
    requires KeyedBy(t, c, columns) && |values| > 0
    requires BuildRow(t.schema, columns, values).Some?
    ensures c in t.schema.columns
    ensures var j := ColumnIndex(t.schema.columns, c).value;
            var row := BuildRow(t.schema, columns, values).value;
            && row[j] == Coerce(t.schema.types[j], Bind(values[0]).value)
            && KeyOf(t.schema, row) == [row[j]]
  {
    assert t.schema.key[0] == c;
    var j := ColumnIndex(t.schema.columns, c).value;
    assert ColumnIndex(columns, t.schema.columns[j]) == Some(0);
  }

  /** The key of the row as stored: the converted id when that is not NULL,
      the next rowid when it is. */
  lemma StoredKey(t: Table, c: string, columns: seq<string>, values: seq<Value>)
    requires KeyedBy(t, c, columns) && |values| > 0
    requires StoredRow(t, columns, values).Some?
    ensures c in t.schema.columns
    ensures var j := ColumnIndex(t.schema.columns, c).value;
            var k := Coerce(t.schema.types[j], Bind(values[0]).value);
            var p := StoredRow(t, columns, values).value;
            && |p| == |t.schema.columns|
            && KeyOf(t.schema, p) == [p[j]]
            && (k != VNone ==> p[j] == k)
            && (k == VNone && t.schema.rowidKey ==> p[j] == VInt(NextRowid(t)))
            && (k == VNone && !t.schema.rowidKey ==> p[j] == VNone)
  {
    BuiltKey(t, c, columns, values);
    var row := BuildRow(t.schema, columns, values).value;
    if t.schema.rowidKey {
      assert RowidColumn(t.schema) == ColumnIndex(t.schema.columns, c).value;
    }
  }

  /** After a SELECT that found nothing, the row the INSERT stores runs into
      no stored key: a converted id equal to a stored key would have matched. */
  lemma MissMeansNoCollision(t: Table, c: string, columns: seq<string>, values: seq<Value>)
    requires KeyedBy(t, c, columns) && |values| > 0 && Bind(values[0]).Some?
    requires StoredRow(t, columns, values).Some?
    requires c in t.schema.columns && !Present(t, c, Bind(values[0]).value)
    ensures Collision(t, StoredRow(t, columns, values).value).None?
  {
    StoredKey(t, c, columns, values);
    var j := ColumnIndex(t.schema.columns, c).value;
    var k := Coerce(t.schema.types[j], Bind(values[0]).value);
    var p := StoredRow(t, columns, values).value;
    if Collision(t, p).Some? {
      BuiltKeyOfRow(t, c, Collision(t, p).value);
      assert false;
    }
  }

  /** A stored row's key is its `c` cell. */
  lemma BuiltKeyOfRow(t: Table, c: string, i: nat)
    requires ValidTable(t) && t.schema.key == [c] && i < |t.rows|
    ensures c in t.schema.columns
    ensures KeyOf(t.schema, t.rows[i]) == [t.rows[i][ColumnIndex(t.schema.columns, c).value]]
  {
    assert t.schema.key[0] == c;
  }

  /** What the check-then-insert does: a parameter sqlite3 cannot bind
      raises; a present id leaves the table as it was; otherwise the values'
      own error is raised, or the INSERT fails and raises, or the row is
      added after the stored ones. The INSERT never fails on the primary key. */
  lemma CheckThenInsertEffect(t: Table, name: string, c: string, id: Value, columns: seq<string>,
                              values: Result<seq<Value>>)
    requires KeyedBy(t, c, columns)
    requires values.Ok? ==> |values.value| > 0 && values.value[0] == id
    ensures c in t.schema.columns
    ensures var r := CheckThenInsert(t, name, c, id, columns, values);
            && (Bind(id).None? ==> r == Err(SqliteError))
            && (Bind(id).Some? && Present(t, c, Bind(id).value) ==> r == Ok(t))
            && (Bind(id).Some? && !Present(t, c, Bind(id).value) ==>
                  && (values.Err? ==> r == Err(values.error))
                  && (values.Ok? && InsertFails(t.schema, columns, values.value) ==> r == Err(SqliteError))
                  && (values.Ok? && !InsertFails(t.schema, columns, values.value) ==>
                        r == Ok(t.(rows := t.rows + [StoredRow(t, columns, values.value).value]))))
  {
    assert t.schema.key[0] == c;
    if Bind(id).Some? {
      SelectSeesPresent(t, c, id);
      if !Present(t, c, Bind(id).value) && values.Ok? {
        var st := Insert(Abort, name, columns, values.value);
        if InsertFails(t.schema, columns, values.value) {
          assert Apply(t, st) == (t, SqlError);
        } else {
          assert StoredRow(t, columns, values.value).Some? by {
            if t.schema.rowidKey {
              assert RowidColumn(t.schema) == ColumnIndex(t.schema.columns, c).value;
            }
          }
          MissMeansNoCollision(t, c, columns, values.value);
        }
      }
    }
  }

  /** Once the check-then-insert has succeeded, running it again changes
      nothing exactly when the id is not None: None matches no row, and the
      INSERT gives it a new key each time. */
  lemma CheckThenInsertIdempotent(t: Table, name: string, c: string, id: Value, columns: seq<string>,
                                  values: Result<seq<Value>>)
    requires KeyedBy(t, c, columns)
    requires values.Ok? ==> |values.value| > 0 && values.value[0] == id
    requires CheckThenInsert(t, name, c, id, columns, values).Ok?
    ensures var t1 := CheckThenInsert(t, name, c, id, columns, values).value;
            && ValidTable(t1) && t1.schema == t.schema
            && (CheckThenInsert(t1, name, c, id, columns, values) == Ok(t1) <==> id != VNone)
  {
    CheckThenInsertEffect(t, name, c, id, columns, values);
    var j := ColumnIndex(t.schema.columns, c).value;
    var b := Bind(id).value;
    NullOnlyFromNone(t.schema.types[j], id);
    if Present(t, c, b) {
      var i :| 0 <= i < |t.rows| && Matches(t.schema, t.rows[i], j, b);
    } else {
      var st := Insert(Abort, name, columns, values.value);
      ApplyKeepsShape(t, st);
      var t1 := CheckThenInsert(t, name, c, id, columns, values).value;
      StoredKey(t, c, columns, values.value);
      var p := StoredRow(t, columns, values.value).value;
      assert t1.rows == t.rows + [p];
      CheckThenInsertEffect(t1, name, c, id, columns, values);
      if id != VNone {
        assert Matches(t1.schema, t1.rows[|t.rows|], j, b);
      } else {
        assert !Present(t1, c, b);
        assert StoredRow(t1, columns, values.value).Some? by {
          assert !InsertFails(t1.schema, columns, values.value);
          InsertFailsSameSchema(t, t1, columns, values.value);
        }
      }
    }
  }

  /** Whether an INSERT fails depends on the schema alone. */
  lemma InsertFailsSameSchema(t: Table, t1: Table, columns: seq<string>, values: seq<Value>)
    requires ValidTable(t) && ValidTable(t1) && t1.schema == t.schema
    ensures !InsertFails(t.schema, columns, values) <==> StoredRow(t1, columns, values).Some?
  {
  }

  // ---------------------------------------------------------------------
  // insert_activity

  /** An `Activity` record as `insert_activity` reads it. */
  datatype Activity = Activity(
    activityId: Value, date: Value, month: Value, dayOfWeek: Value, startTime: Value,
    endTime: Value, sportType: Value, indoor: Value, distance: Value, duration: Value,
    elevationGain: Value, gearId: Value, averageHeartrate: Value, averageSpeed: Value,
    averageCadence: Value, averageTemp: Value, averageWatts: Value, intensity: Value, latLng: Value)

  /** The INSERT's parameters, in column order, with `int(indoor)` for `indoor`. */
  function ActivityValues(a: Activity, indoor: int): (values: seq<Value>)
    ensures |values| == 19 && values[0] == a.activityId && values[7] == VInt(indoor)
  {
    [a.activityId, a.date, a.month, a.dayOfWeek, a.startTime, a.endTime, a.sportType, VInt(indoor),
     a.distance, a.duration, a.elevationGain, a.gearId, a.averageHeartrate, a.averageSpeed,
     a.averageCadence, a.averageTemp, a.averageWatts, a.intensity, a.latLng]
  }

  /** Building the parameters, which raises when `int(indoor)` does. */
  function ActivityParameters(a: Activity): (r: Result<seq<Value>>)
    ensures r.Err? <==> PyInt(a.indoor).Err?
    ensures r.Err? ==> r.error == PyInt(a.indoor).error
    ensures r.Ok? ==> r.value == ActivityValues(a, PyInt(a.indoor).value)
  {
    match PyInt(a.indoor)
    case Err(e) => Err(e)
    case Ok(n) => Ok(ActivityValues(a, n))
  }

  /** `insert_activity`: look the id up, insert when it is not there. */
  function StoreActivity(t: Table, a: Activity): Result<Table>
    requires ValidTable(t)
  {
    CheckThenInsert(t, "activities", "id", a.activityId, LegacyActivitiesColumns, ActivityParameters(a))
  }

  /** Every parameter can be bound. */
  predicate Bindable(values: seq<Value>) {
    forall k :: 0 <= k < |values| ==> Bind(values[k]).Some?
  }

  /** The activity INSERT fails exactly when a field is a list or a dict, or
      when the id is not None and does not convert to an integer. */
  lemma ActivityInsertFails(a: Activity, n: int)
    ensures ValidSchema(LegacyActivitiesSchema)
    ensures InsertFails(LegacyActivitiesSchema, LegacyActivitiesColumns, ActivityValues(a, n)) <==>
              || !Bindable(ActivityValues(a, n))
              || (Bind(a.activityId).Some? && a.activityId != VNone &&
                  !Coerce(IntegerAffinity, Bind(a.activityId).value).VInt?)
  {
    LegacyActivitiesSchemaValid();
    LegacyActivitiesColumnsDistinct();
    var values := ActivityValues(a, n);
    if Bindable(values) {
      var t := Table(LegacyActivitiesSchema, []);
      BuiltKey(t, "id", LegacyActivitiesColumns, values);
      assert RowidColumn(LegacyActivitiesSchema) == 0;
    }
  }

  /** What `insert_activity` does: an id sqlite3 cannot bind raises; a stored
      id (after the INTEGER conversion, so "5" finds 5) leaves the table as it
      was; otherwise a failing `int(indoor)` raises its error, a failing
      INSERT raises, or the activity is added after the stored ones. */
  lemma StoreActivityEffect(t: Table, a: Activity)
    requires KeyedBy(t, "id", LegacyActivitiesColumns)
    ensures "id" in t.schema.columns
    ensures var r := StoreActivity(t, a);
            && (Bind(a.activityId).None? ==> r == Err(SqliteError))
            && (Bind(a.activityId).Some? && Present(t, "id", Bind(a.activityId).value) ==> r == Ok(t))
            && (Bind(a.activityId).Some? && !Present(t, "id", Bind(a.activityId).value) ==>
                  && (PyInt(a.indoor).Err? ==> r == Err(PyInt(a.indoor).error))
                  && (PyInt(a.indoor).Ok? ==>
                        var values := ActivityValues(a, PyInt(a.indoor).value);
                        && (InsertFails(t.schema, LegacyActivitiesColumns, values) ==> r == Err(SqliteError))
                        && (!InsertFails(t.schema, LegacyActivitiesColumns, values) ==>
                              r == Ok(t.(rows := t.rows + [StoredRow(t, LegacyActivitiesColumns, values).value])))))
  {
    var values := ActivityParameters(a);
    CheckThenInsertEffect(t, "activities", "id", a.activityId, LegacyActivitiesColumns, values);
    assert values.Ok? ==> values == Ok(ActivityValues(a, PyInt(a.indoor).value));
  }

  /** The activities table is keyed by `id`, which the INSERT lists first. */
  lemma ActivitiesKeyedById(t: Table)
    requires ValidTable(t) && t.schema == LegacyActivitiesSchema
    ensures KeyedBy(t, "id", LegacyActivitiesColumns)
  {
  }

  /** The stored activity row: the id as an integer, or the next rowid for
      None; `indoor` as `int(indoor)`; every other field converted by its
      column's affinity. */
  lemma StoredActivityRow(t: Table, a: Activity, n: int)
    requires ValidTable(t) && t.schema == LegacyActivitiesSchema
    requires StoredRow(t, LegacyActivitiesColumns, ActivityValues(a, n)).Some?
    ensures |StoredRow(t, LegacyActivitiesColumns, ActivityValues(a, n)).value| == 19
    ensures StoredRow(t, LegacyActivitiesColumns, ActivityValues(a, n)).value[0] ==
              if a.activityId == VNone then VInt(NextRowid(t)) else Coerce(IntegerAffinity, Bind(a.activityId).value)
    ensures StoredRow(t, LegacyActivitiesColumns, ActivityValues(a, n)).value[7] == VInt(n)
    ensures forall k :: 0 < k < 19 ==>
              StoredRow(t, LegacyActivitiesColumns, ActivityValues(a, n)).value[k] ==
              Coerce(t.schema.types[k], Bind(ActivityValues(a, n)[k]).value)
  {
    LegacyActivitiesColumnsDistinct();
    var values := ActivityValues(a, n);
    StoredKey(t, "id", LegacyActivitiesColumns, values);
    NullOnlyFromNone(IntegerAffinity, a.activityId);
    BuiltInOrder(t.schema, values);
    assert RowidColumn(t.schema) == 0;
    IndoorIsInteger();
  }

  /** `indoor` is the eighth column, of INTEGER affinity. */
  lemma IndoorIsInteger()
    ensures LegacyActivitiesColumns[7] == "indoor" && LegacyActivitiesSchema.types[7] == IntegerAffinity
  {
  }

  /** An INSERT that lists every column in order stores each value converted
      by its column's affinity. */
  lemma BuiltInOrder(s: Schema, values: seq<Value>)
    requires |s.types| == |s.columns| && Distinct(s.columns) && BuildRow(s, s.columns, values).Some?
    ensures forall k :: 0 <= k < |s.columns| ==>
              BuildRow(s, s.columns, values).value[k] == Coerce(s.types[k], Bind(values[k]).value)
  {
    forall k | 0 <= k < |s.columns|
      ensures BuildRow(s, s.columns, values).value[k] == Coerce(s.types[k], Bind(values[k]).value)
    {
      DistinctColumnIndex(s.columns, k);
    }
  }

  /** In a list of distinct names each name is found at its own position. */
  lemma DistinctColumnIndex(columns: seq<string>, k: nat)
    requires Distinct(columns) && k < |columns|
    ensures ColumnIndex(columns, columns[k]) == Some(k)
  {
  }

  /** A boolean `indoor` is stored as 1 or 0: `int(indoor)` gives that
      number, and the row the INSERT stores holds it in the `indoor` column. */
  lemma IndoorStoredAsBit(t: Table, a: Activity)
    requires ValidTable(t) && t.schema == LegacyActivitiesSchema && a.indoor.VBool?
    requires StoredRow(t, LegacyActivitiesColumns, ActivityValues(a, if a.indoor.b then 1 else 0)).Some?
    ensures PyInt(a.indoor) == Ok(if a.indoor.b then 1 else 0)
    ensures StoredRow(t, LegacyActivitiesColumns, ActivityValues(a, PyInt(a.indoor).value)).value[7] ==
              VInt(if a.indoor.b then 1 else 0)
  {
    StoredActivityRow(t, a, if a.indoor.b then 1 else 0);
  }

  /** A successful store of an id not yet present appends the stored row. */
  lemma StoreActivityAppends(t: Table, a: Activity)
    requires KeyedBy(t, "id", LegacyActivitiesColumns)
    requires StoreActivity(t, a).Ok? && Bind(a.activityId).Some? && !Present(t, "id", Bind(a.activityId).value)
    ensures PyInt(a.indoor).Ok?
    ensures StoredRow(t, LegacyActivitiesColumns, ActivityValues(a, PyInt(a.indoor).value)).Some?
    ensures StoreActivity(t, a).value ==
              t.(rows := t.rows + [StoredRow(t, LegacyActivitiesColumns, ActivityValues(a, PyInt(a.indoor).value)).value])
  {
    StoreActivityEffect(t, a);
  }

  /** Once `insert_activity` has succeeded, a second call with the same
      activity changes nothing exactly when the id is not None; with None,
      each call adds the activity again under a new rowid. */
  lemma StoreActivityIdempotent(t: Table, a: Activity)
    requires KeyedBy(t, "id", LegacyActivitiesColumns) && StoreActivity(t, a).Ok?
    ensures ValidTable(StoreActivity(t, a).value)
    ensures StoreActivity(StoreActivity(t, a).value, a) == StoreActivity(t, a) <==> a.activityId != VNone
  {
    CheckThenInsertIdempotent(t, "activities", "id", a.activityId, LegacyActivitiesColumns, ActivityParameters(a));
  }

  /** The id as integer text finds the activity stored under that integer, so
      it is not added again. */
  lemma TextIdFindsActivity(t: Table, a: Activity, i: nat, n: int)
    requires ValidTable(t) && t.schema == LegacyActivitiesSchema
    requires i < |t.rows| && t.rows[i][0] == VInt(n) && MinInt64 <= n <= MaxInt64
    requires a.activityId == VStr(DecimalText(n))
    ensures StoreActivity(t, a) == Ok(t)
  {
    ActivitiesKeyedById(t);
    StoreActivityEffect(t, a);
    IntegerTextRoundTrip(n);
    assert ColumnIndex(t.schema.columns, "id") == Some(0);
    assert Matches(t.schema, t.rows[i], 0, Bind(a.activityId).value);
  }

  // ---------------------------------------------------------------------
  // insert_weather

  /** A `Weather` record; it is stored as given. */
  datatype Weather = Weather(activityId: Value, date: Value, temp: Value, weatherType: Value,
                             precipitation: Value, rain: Value, wind: Value, snow: Value)

  /** The INSERT's parameters, in column order. */
  function WeatherValues(w: Weather): (values: seq<Value>)
    ensures |values| == 8 && values[0] == w.activityId
  {
    [w.activityId, w.date, w.temp, w.weatherType, w.precipitation, w.rain, w.wind, w.snow]
  }

  /** `insert_weather`: look the activity id up, insert when it is not there. */
  function StoreWeather(t: Table, w: Weather): Result<Table>
    requires ValidTable(t)
  {
    CheckThenInsert(t, "weather", "id", w.activityId, LegacyWeatherColumns, Ok(WeatherValues(w)))
  }

  /** The weather INSERT fails exactly when a field is a list or a dict, or
      when the id is not None and does not convert to an integer. */
  lemma WeatherInsertFails(w: Weather)
    ensures ValidSchema(LegacyWeatherSchema)
    ensures InsertFails(LegacyWeatherSchema, LegacyWeatherColumns, WeatherValues(w)) <==>
              || !Bindable(WeatherValues(w))
              || (Bind(w.activityId).Some? && w.activityId != VNone &&
                  !Coerce(IntegerAffinity, Bind(w.activityId).value).VInt?)
  {
    LegacyWeatherSchemaValid();
    var values := WeatherValues(w);
    if Bindable(values) {
      var t := Table(LegacyWeatherSchema, []);
      BuiltKey(t, "id", LegacyWeatherColumns, values);
      assert RowidColumn(LegacyWeatherSchema) == 0;
    }
  }

  /** What `insert_weather` does: an id sqlite3 cannot bind raises; a stored
      id leaves the table as it was; otherwise a failing INSERT raises, or
      the weather row is added after the stored ones. */
  lemma StoreWeatherEffect(t: Table, w: Weather)
    requires KeyedBy(t, "id", LegacyWeatherColumns)
    ensures "id" in t.schema.columns
    ensures var r := StoreWeather(t, w);
            && (Bind(w.activityId).None? ==> r == Err(SqliteError))
            && (Bind(w.activityId).Some? && Present(t, "id", Bind(w.activityId).value) ==> r == Ok(t))
            && (Bind(w.activityId).Some? && !Present(t, "id", Bind(w.activityId).value) ==>
                  && (InsertFails(t.schema, LegacyWeatherColumns, WeatherValues(w)) ==> r == Err(SqliteError))
                  && (!InsertFails(t.schema, LegacyWeatherColumns, WeatherValues(w)) ==>
                        r == Ok(t.(rows := t.rows + [StoredRow(t, LegacyWeatherColumns, WeatherValues(w)).value]))))
  {
    CheckThenInsertEffect(t, "weather", "id", w.activityId, LegacyWeatherColumns, Ok(WeatherValues(w)));
  }

  /** The stored weather row: the id as an integer, or the next rowid for
      None, and every other field converted by its column's affinity. */
  lemma StoredWeatherRow(t: Table, w: Weather)
    requires ValidTable(t) && t.schema == LegacyWeatherSchema
    requires StoredRow(t, LegacyWeatherColumns, WeatherValues(w)).Some?
    ensures |StoredRow(t, LegacyWeatherColumns, WeatherValues(w)).value| == 8
    ensures StoredRow(t, LegacyWeatherColumns, WeatherValues(w)).value[0] ==
              if w.activityId == VNone then VInt(NextRowid(t)) else Coerce(IntegerAffinity, Bind(w.activityId).value)
    ensures forall k :: 0 < k < 8 ==>
              StoredRow(t, LegacyWeatherColumns, WeatherValues(w)).value[k] ==
              Coerce(t.schema.types[k], Bind(WeatherValues(w)[k]).value)
  {
    LegacyWeatherSchemaValid();
    StoredKey(t, "id", LegacyWeatherColumns, WeatherValues(w));
    NullOnlyFromNone(IntegerAffinity, w.activityId);
    BuiltInOrder(t.schema, WeatherValues(w));
    assert RowidColumn(t.schema) == 0;
  }

  /** Once `insert_weather` has succeeded, a second call with the same
      weather changes nothing exactly when the id is not None. */
  lemma StoreWeatherIdempotent(t: Table, w: Weather)
    requires KeyedBy(t, "id", LegacyWeatherColumns) && StoreWeather(t, w).Ok?
    ensures ValidTable(StoreWeather(t, w).value)
    ensures StoreWeather(StoreWeather(t, w).value, w) == StoreWeather(t, w) <==> w.activityId != VNone
  {
    CheckThenInsertIdempotent(t, "weather", "id", w.activityId, LegacyWeatherColumns, Ok(WeatherValues(w)));
  }

  // ---------------------------------------------------------------------
  // insert_gear

  /** A `Gear` record. */
  datatype Gear = Gear(gearId: Value, name: Value, distance: Value, brandName: Value,
                       modelName: Value, retired: Value, weight: Value)

  /** The columns the UPDATE sets: every column but the key. */
  const GearSetColumns: seq<string> := ["name", "distance", "brand_name", "model_name", "retired", "weight"]

  /** The UPDATE's values, with `int(retired)` for `retired`. */
  function GearSetValues(g: Gear, retired: int): (values: seq<Value>)
    ensures |values| == 6
  {
    [g.name, g.distance, g.brandName, g.modelName, VInt(retired), g.weight]
  }

  /** The INSERT's values: the gear id, then the UPDATE's values. */
  function GearValues(g: Gear, retired: int): (values: seq<Value>)
    ensures |values| == 7 && values[0] == g.gearId
  {
    [g.gearId] + GearSetValues(g, retired)
  }

  /** `insert_gear`: look the gear id up, then UPDATE the found row's other
      columns or INSERT the gear. `int(retired)` is worked out after the
      SELECT and raises before either statement runs. */
  function StoreGear(t: Table, g: Gear): Result<Table>
    requires ValidTable(t)
  {
    match SelectWhereIn(t, "gear_id", g.gearId)
    case SqlError => Err(SqliteError)
    case Fetched(found) =>
      match PyInt(g.retired)
      case Err(e) => Err(e)
      case Ok(n) =>
        var st := if |found| > 0 then UpdateWhere("gear", GearSetColumns, GearSetValues(g, n), "gear_id", g.gearId)
                  else Insert(Abort, "gear", GearSchema.columns, GearValues(g, n));
        match Apply(t, st)
        case (_, SqlError) => Err(SqliteError)
        case (t2, Fetched(_)) => Ok(t2)
  }

  /** The gear columns are the key followed by the UPDATE's columns, each at
      its own position. */
  lemma GearColumnsLayout()
    ensures GearSchema.columns == ["gear_id"] + GearSetColumns
    ensures ValidSchema(GearSchema) && Distinct(GearSetColumns)
    ensures ColumnIndex(GearSetColumns, "gear_id") == None
    ensures forall j :: 1 <= j < 7 ==> ColumnIndex(GearSetColumns, GearSchema.columns[j]) == Some(j - 1)
  {
    GearSchemaValid();
    GearSetColumnsDistinct();
    forall j | 1 <= j < 7 ensures ColumnIndex(GearSetColumns, GearSchema.columns[j]) == Some(j - 1) {
      assert GearSchema.columns[j] == GearSetColumns[j - 1];
      DistinctColumnIndex(GearSetColumns, j - 1);
    }
  }

  lemma GearSetColumnsDistinct()
    ensures Distinct(GearSetColumns) && "gear_id" !in GearSetColumns
  {
  }

  /** The gear row the INSERT builds, when every value can be bound. */
  function GearRow(g: Gear, n: int): Option<seq<Value>>
  {
    BuildRow(GearSchema, GearSchema.columns, GearValues(g, n))
  }

  /** The gear row holds the converted gear id, then each UPDATE value
      converted by its column's affinity. */
  lemma GearRowCells(g: Gear, n: int)
    requires GearRow(g, n).Some?
    ensures Bind(g.gearId).Some? && Bindable(GearSetValues(g, n))
    ensures |GearRow(g, n).value| == 7
    ensures GearRow(g, n).value[0] == Coerce(TextAffinity, Bind(g.gearId).value)
    ensures forall j :: 1 <= j < 7 ==>
              GearRow(g, n).value[j] == Coerce(GearSchema.types[j], Bind(GearSetValues(g, n)[j - 1]).value)
  {
    GearRowBindable(g, n);
    GearColumnsLayout();
    BuiltInOrder(GearSchema, GearValues(g, n));
    assert forall j :: 1 <= j < 7 ==> GearValues(g, n)[j] == GearSetValues(g, n)[j - 1];
  }

  /** The gear row can be built exactly when the gear id and every UPDATE
      value can be bound. */
  lemma GearRowBindable(g: Gear, n: int)
    ensures GearRow(g, n).Some? <==> Bind(g.gearId).Some? && Bindable(GearSetValues(g, n))
  {
    GearColumnsLayout();
    var values := GearValues(g, n);
    var setValues := GearSetValues(g, n);
    assert values == [g.gearId] + setValues;
    assert Bindable(values) <==> Bind(g.gearId).Some? && Bindable(setValues) by {
      if Bindable(values) {
        assert forall k :: 0 <= k < |setValues| ==> setValues[k] == values[k + 1];
        assert Bind(values[0]).Some?;
      }
      if Bind(g.gearId).Some? && Bindable(setValues) {
        assert forall k :: 1 <= k < |values| ==> values[k] == setValues[k - 1];
      }
    }
  }

  /** The UPDATE turns a row holding the same gear id into the gear row. */
  lemma AssignedGear(stored: seq<Value>, g: Gear, n: int)
    requires |stored| == 7 && GearRow(g, n).Some? && stored[0] == GearRow(g, n).value[0]
    requires Bindable(GearSetValues(g, n))
    ensures var values := GearSetValues(g, n);
            Assigned(GearSchema, stored, GearSetColumns,
                     seq(|values|, k requires 0 <= k < |values| => Bind(values[k]).value)) == GearRow(g, n).value
  {
    GearColumnsLayout();
    GearRowCells(g, n);
  }

  /** A stored gear row's key is its gear id. */
  lemma GearKey(t: Table, row: seq<Value>)
    requires ValidTable(t) && t.schema == GearSchema && |row| == 7
    ensures KeyOf(t.schema, row) == [row[0]]
  {
    assert ColumnIndex(GearSchema.columns, "gear_id") == Some(0);
  }

  /** Gear ids are unique, so at most one row matches `gear_id = ?`. */
  lemma OneGearMatches(t: Table, p: Value, i: nat, a: nat)
    requires ValidTable(t) && t.schema == GearSchema && i < |t.rows| && a < |t.rows|
    requires Matches(t.schema, t.rows[i], 0, p) && Matches(t.schema, t.rows[a], 0, p)
    ensures a == i
  {
    GearKey(t, t.rows[i]);
    GearKey(t, t.rows[a]);
  }

  /** A present gear id matches one row, and the UPDATE makes that row the
      gear row, or fails when a value cannot be bound. */
  lemma GearUpdate(t: Table, g: Gear, n: int, i: nat)
    requires ValidTable(t) && t.schema == GearSchema && Bind(g.gearId).Some?
    requires i < |t.rows| && Matches(t.schema, t.rows[i], 0, Bind(g.gearId).value)
    ensures var st := UpdateWhere("gear", GearSetColumns, GearSetValues(g, n), "gear_id", g.gearId);
            && (GearRow(g, n).None? ==> Apply(t, st).1 == SqlError)
            && (GearRow(g, n).Some? ==> Apply(t, st) == (t.(rows := t.rows[i := GearRow(g, n).value]), Fetched([])))
  {
    if GearRow(g, n).Some? {
      GearUpdateAssigns(t, g, n, i);
    } else {
      GearUpdateFails(t, g, n);
    }
  }

  lemma GearUpdateFails(t: Table, g: Gear, n: int)
    requires ValidTable(t) && t.schema == GearSchema && Bind(g.gearId).Some? && GearRow(g, n).None?
    ensures Apply(t, UpdateWhere("gear", GearSetColumns, GearSetValues(g, n), "gear_id", g.gearId)).1 == SqlError
  {
    GearRowBindable(g, n);
    GearUpdateGuard(t, g, n);
  }

  lemma GearUpdateAssigns(t: Table, g: Gear, n: int, i: nat)
    requires ValidTable(t) && t.schema == GearSchema && Bind(g.gearId).Some? && GearRow(g, n).Some?
    requires i < |t.rows| && Matches(t.schema, t.rows[i], 0, Bind(g.gearId).value)
    ensures Apply(t, UpdateWhere("gear", GearSetColumns, GearSetValues(g, n), "gear_id", g.gearId)) ==
              (t.(rows := t.rows[i := GearRow(g, n).value]), Fetched([]))
  {
    GearRowBindable(g, n);
    GearUpdateIn(t, g, n, i);
  }

  lemma GearUpdateIn(t: Table, g: Gear, n: int, i: nat)
    requires ValidTable(t) && t.schema == GearSchema && Bind(g.gearId).Some?
    requires i < |t.rows| && Matches(t.schema, t.rows[i], 0, Bind(g.gearId).value)
    requires GearRow(g, n).Some? && Bindable(GearSetValues(g, n))
    ensures UpdateIn(t, GearSetColumns, GearSetValues(g, n), "gear_id", g.gearId) ==
              (t.(rows := t.rows[i := GearRow(g, n).value]), Fetched([]))
  {
    GearUpdateGuard(t, g, n);
    GearUpdateRows(t, g, n, i);
    UpdateInRewrites(t, GearSetColumns, GearSetValues(g, n), "gear_id", g.gearId, 0, t.(rows := t.rows[i := GearRow(g, n).value]));
  }

  /** The UPDATE is refused only for a value that cannot be bound. */
  lemma GearUpdateGuard(t: Table, g: Gear, n: int)
    requires ValidTable(t) && t.schema == GearSchema && Bind(g.gearId).Some?
    ensures var values := GearSetValues(g, n);
            (|| |GearSetColumns| != |values|
             || (exists k :: 0 <= k < |GearSetColumns| && GearSetColumns[k] !in t.schema.columns)
             || (exists k :: 0 <= k < |values| && Bind(values[k]).None?)
             || "gear_id" !in t.schema.columns || Bind(g.gearId).None?)
            <==> !Bindable(values)
    ensures ColumnIndex(t.schema.columns, "gear_id") == Some(0)
  {
    GearColumnsLayout();
  }

  lemma GearUpdateRows(t: Table, g: Gear, n: int, i: nat)
    requires ValidTable(t) && t.schema == GearSchema && Bind(g.gearId).Some?
    requires i < |t.rows| && Matches(t.schema, t.rows[i], 0, Bind(g.gearId).value)
    requires GearRow(g, n).Some? && Bindable(GearSetValues(g, n))
    ensures var values := GearSetValues(g, n);
            var bound := seq(|values|, k requires 0 <= k < |values| => Bind(values[k]).value);
            var b := Bind(g.gearId).value;
            var t2 := t.(rows := seq(|t.rows|, a requires 0 <= a < |t.rows| =>
                        if Matches(t.schema, t.rows[a], 0, b) then Assigned(t.schema, t.rows[a], GearSetColumns, bound)
                        else t.rows[a]));
            && t2 == t.(rows := t.rows[i := GearRow(g, n).value])
            && ValidTable(t2)
  {
    var row := GearRow(g, n).value;
    var values := GearSetValues(g, n);
    var bound := seq(|values|, k requires 0 <= k < |values| => Bind(values[k]).value);
    var b := Bind(g.gearId).value;
    GearRowCells(g, n);
    GearKey(t, t.rows[i]);
    GearKey(t, row);
    ReplacePlaced(t, i, row);
    AssignedGear(t.rows[i], g, n);
    forall a | 0 <= a < |t.rows| && Matches(t.schema, t.rows[a], 0, b) ensures a == i {
      OneGearMatches(t, b, i, a);
    }
  }

  /** An absent gear id: the INSERT adds the gear row after the stored ones,
      or fails when a value cannot be bound. */
  lemma GearInsert(t: Table, g: Gear, n: int)
    requires ValidTable(t) && t.schema == GearSchema && Bind(g.gearId).Some?
    requires "gear_id" in t.schema.columns && !Present(t, "gear_id", Bind(g.gearId).value)
    ensures var st := Insert(Abort, "gear", GearSchema.columns, GearValues(g, n));
            && (GearRow(g, n).None? ==> Apply(t, st).1 == SqlError)
            && (GearRow(g, n).Some? ==> Apply(t, st) == (t.(rows := t.rows + [GearRow(g, n).value]), Fetched([])))
  {
    if GearRow(g, n).Some? {
      GearColumnsLayout();
      MissMeansNoCollision(t, "gear_id", GearSchema.columns, GearValues(g, n));
    }
  }

  /** What a successful `insert_gear` leaves: a valid table in which a gear
      id other than None reads the gear row, every other key reads as
      before, and the table grows only when the id was new; a None gear id
      is never found, and the gear row is added after the stored ones. */
  ghost predicate GearStored(t: Table, t2: Table, g: Gear, row: seq<Value>)
    requires ValidTable(t) && |row| > 0
  {
    && ValidTable(t2) && t2.schema == t.schema
    && (g.gearId != VNone ==>
          && RowWithKey(t2, [row[0]]) == Some(row)
          && (forall key :: key != [row[0]] && VNone !in key ==> RowWithKey(t2, key) == RowWithKey(t, key))
          && |t2.rows| == (if HasKey(t, [row[0]]) then |t.rows| else |t.rows| + 1))
    && (g.gearId == VNone ==> t2.rows == t.rows + [row])
  }

  /** What `insert_gear` does: a gear id sqlite3 cannot bind raises; then a
      failing `int(retired)` raises its error; then a value that cannot be
      bound makes the UPDATE or the INSERT raise; otherwise the gear row is
      stored, replacing the row with the same gear id. */
  lemma StoreGearEffect(t: Table, g: Gear)
    requires ValidTable(t) && t.schema == GearSchema
    ensures var r := StoreGear(t, g);
            && (Bind(g.gearId).None? ==> r == Err(SqliteError))
            && (Bind(g.gearId).Some? && PyInt(g.retired).Err? ==> r == Err(PyInt(g.retired).error))
            && (Bind(g.gearId).Some? && PyInt(g.retired).Ok? ==>
                  var row := GearRow(g, PyInt(g.retired).value);
                  && (row.None? ==> r == Err(SqliteError))
                  && (row.Some? ==> |row.value| == 7 && r.Ok? && GearStored(t, r.value, g, row.value)))
  {
    if Bind(g.gearId).Some? && PyInt(g.retired).Ok? {
      var n := PyInt(g.retired).value;
      var b := Bind(g.gearId).value;
      GearColumnsLayout();
      SelectSeesPresent(t, "gear_id", g.gearId);
      if Present(t, "gear_id", b) {
        var i :| 0 <= i < |t.rows| && Matches(t.schema, t.rows[i], 0, b);
        GearUpdate(t, g, n, i);
        if GearRow(g, n).Some? {
          GearReplaced(t, g, n, i);
        }
      } else {
        GearInsert(t, g, n);
        if GearRow(g, n).Some? {
          GearAppended(t, g, n);
        }
      }
    }
  }

  /** Overwriting the matched row with the gear row. */
  lemma GearReplaced(t: Table, g: Gear, n: int, i: nat)
    requires ValidTable(t) && t.schema == GearSchema && Bind(g.gearId).Some? && GearRow(g, n).Some?
    requires i < |t.rows| && Matches(t.schema, t.rows[i], 0, Bind(g.gearId).value)
    ensures |GearRow(g, n).value| == 7
    ensures GearStored(t, t.(rows := t.rows[i := GearRow(g, n).value]), g, GearRow(g, n).value)
  {
    var row := GearRow(g, n).value;
    GearRowCells(g, n);
    GearKey(t, t.rows[i]);
    GearKey(t, row);
    NullOnlyFromNone(TextAffinity, g.gearId);
    ReplaceAt(t, i, row);
  }

  /** Adding the gear row after the stored ones. */
  lemma GearAppended(t: Table, g: Gear, n: int)
    requires ValidTable(t) && t.schema == GearSchema && Bind(g.gearId).Some? && GearRow(g, n).Some?
    requires "gear_id" in t.schema.columns && !Present(t, "gear_id", Bind(g.gearId).value)
    ensures |GearRow(g, n).value| == 7
    ensures GearStored(t, t.(rows := t.rows + [GearRow(g, n).value]), g, GearRow(g, n).value)
  {
    var row := GearRow(g, n).value;
    var b := Bind(g.gearId).value;
    GearRowCells(g, n);
    GearKey(t, row);
    NullOnlyFromNone(TextAffinity, g.gearId);
    GearColumnsLayout();
    var st := Insert(Abort, "gear", GearSchema.columns, GearValues(g, n));
    GearInsert(t, g, n);
    ApplyKeepsShape(t, st);
    if g.gearId != VNone {
      AppendNew(t, row);
    }
  }

  /** Once `insert_gear` has succeeded, a second call with the same gear
      changes nothing exactly when the gear id is not None; a None gear id is
      never found, so each call adds the gear again. */
  lemma StoreGearIdempotent(t: Table, g: Gear)
    requires ValidTable(t) && t.schema == GearSchema && StoreGear(t, g).Ok?
    ensures ValidTable(StoreGear(t, g).value)
    ensures StoreGear(StoreGear(t, g).value, g) == StoreGear(t, g) <==> g.gearId != VNone
  {
    StoreGearEffect(t, g);
    var n := PyInt(g.retired).value;
    var row := GearRow(g, n).value;
    var t1 := StoreGear(t, g).value;
    if g.gearId != VNone {
      GearFoundAgain(t1, g, n);
    } else {
      StoreGearEffect(t1, g);
      assert |StoreGear(t1, g).value.rows| == |t1.rows| + 1;
    }
  }

  /** A table that reads the gear row under its gear id is left as it is by
      storing the same gear. */
  lemma GearFoundAgain(t: Table, g: Gear, n: int)
    requires ValidTable(t) && t.schema == GearSchema && g.gearId != VNone
    requires Bind(g.gearId).Some? && PyInt(g.retired) == Ok(n) && GearRow(g, n).Some?
    requires |GearRow(g, n).value| > 0 && RowWithKey(t, [GearRow(g, n).value[0]]) == Some(GearRow(g, n).value)
    ensures StoreGear(t, g) == Ok(t)
  {
    var row := GearRow(g, n).value;
    var i := FindKey(t, [row[0]], 0).value;
    assert t.rows[i] == row;
    GearRowMatches(t, g, n, i);
    StoreGearPresent(t, g, n, i);
    assert t.rows[i := row] == t.rows;
  }

  /** A stored gear row matches its own gear id. */
  lemma GearRowMatches(t: Table, g: Gear, n: int, i: nat)
    requires ValidTable(t) && t.schema == GearSchema && g.gearId != VNone
    requires Bind(g.gearId).Some? && GearRow(g, n).Some? && i < |t.rows| && t.rows[i] == GearRow(g, n).value
    ensures Matches(t.schema, t.rows[i], 0, Bind(g.gearId).value)
  {
    GearRowCells(g, n);
    NullOnlyFromNone(TextAffinity, g.gearId);
  }

  /** With the gear id present at row i, `insert_gear` overwrites that row
      with the gear row. */
  lemma StoreGearPresent(t: Table, g: Gear, n: int, i: nat)
    requires ValidTable(t) && t.schema == GearSchema
    requires Bind(g.gearId).Some? && PyInt(g.retired) == Ok(n) && GearRow(g, n).Some?
    requires i < |t.rows| && Matches(t.schema, t.rows[i], 0, Bind(g.gearId).value)
    ensures StoreGear(t, g) == Ok(t.(rows := t.rows[i := GearRow(g, n).value]))
  {
    GearColumnsLayout();
    SelectSeesPresent(t, "gear_id", g.gearId);
    GearUpdate(t, g, n, i);
  }

  // ---------------------------------------------------------------------
  // The three connections

  /** The three tables; the connections are opened per call and not modelled. */
  class Store {
    var activities: Table
    var gear: Table
    var weather: Table

    /** Each table well formed, with the columns it is created with. */
    predicate Valid()
      reads this
    {
      && ValidTable(activities) && activities.schema == LegacyActivitiesSchema
      && ValidTable(gear) && gear.schema == GearSchema
      && ValidTable(weather) && weather.schema == LegacyWeatherSchema
    }

    /** `create_activities_table`, `create_gear_table` and
        `create_weather_table` on fresh databases: three empty tables. */
    constructor ()
      ensures Valid() && activities.rows == [] && gear.rows == [] && weather.rows == []
    {
      LegacyActivitiesSchemaValid();
      LegacyWeatherSchemaValid();
      GearSchemaValid();
      activities := Table(LegacyActivitiesSchema, []);
      gear := Table(GearSchema, []);
      weather := Table(LegacyWeatherSchema, []);
    }

    /** `insert_activity`: the SELECT, then `int(indoor)` and the INSERT when
        the id was not found. A step that raises returns before the table is
        changed, as the missing commit leaves it. */
    method InsertActivity(a: Activity) returns (r: Result<()>)
      requires Valid()
      modifies this
      ensures Valid()
      ensures r.Ok? <==> StoreActivity(old(activities), a).Ok?
      ensures r.Ok? ==> activities == StoreActivity(old(activities), a).value
      ensures r.Err? ==> r.error == StoreActivity(old(activities), a).error && activities == old(activities)
      ensures gear == old(gear) && weather == old(weather)
    {
      var found := SelectWhereIn(activities, "id", a.activityId);
      if found.SqlError? {
        return Err(SqliteError);
      }
      if |found.rows| == 0 {
        var indoor := PyInt(a.indoor);
        if indoor.Err? {
          return Err(indoor.error);
        }
        var st := Insert(Abort, "activities", LegacyActivitiesColumns, ActivityValues(a, indoor.value));
        var step := Apply(activities, st);
        if step.1.SqlError? {
          return Err(SqliteError);
        }
        ApplyKeepsShape(activities, st);
        activities := step.0;
      }
      r := Ok(());
    }

    /** `insert_gear`: the SELECT, then `int(retired)`, then the UPDATE of the
        found row or the INSERT of the gear. */
    method InsertGear(g: Gear) returns (r: Result<()>)
      requires Valid()
      modifies this
      ensures Valid()
      ensures r.Ok? <==> StoreGear(old(gear), g).Ok?
      ensures r.Ok? ==> gear == StoreGear(old(gear), g).value
      ensures r.Err? ==> r.error == StoreGear(old(gear), g).error && gear == old(gear)
      ensures activities == old(activities) && weather == old(weather)
    {
      var found := SelectWhereIn(gear, "gear_id", g.gearId);
      if found.SqlError? {
        return Err(SqliteError);
      }
      var retired := PyInt(g.retired);
      if retired.Err? {
        return Err(retired.error);
      }
      var st: Statement;
      if |found.rows| > 0 {
        st := UpdateWhere("gear", GearSetColumns, GearSetValues(g, retired.value), "gear_id", g.gearId);
      } else {
        st := Insert(Abort, "gear", GearSchema.columns, GearValues(g, retired.value));
      }
      var step := Apply(gear, st);
      if step.1.SqlError? {
        return Err(SqliteError);
      }
      ApplyKeepsShape(gear, st);
      gear := step.0;
      r := Ok(());
    }

    /** `insert_weather`: the SELECT, then the INSERT when the id was not found. */
    method InsertWeather(w: Weather) returns (r: Result<()>)
      requires Valid()
      modifies this
      ensures Valid()
      ensures r.Ok? <==> StoreWeather(old(weather), w).Ok?
      ensures r.Ok? ==> weather == StoreWeather(old(weather), w).value
      ensures r.Err? ==> r.error == StoreWeather(old(weather), w).error && weather == old(weather)
      ensures activities == old(activities) && gear == old(gear)
    {
      var found := SelectWhereIn(weather, "id", w.activityId);
      if found.SqlError? {
        return Err(SqliteError);
      }
      if |found.rows| == 0 {
        var st := Insert(Abort, "weather", LegacyWeatherColumns, WeatherValues(w));
        var step := Apply(weather, st);
        if step.1.SqlError? {
          return Err(SqliteError);
        }
        ApplyKeepsShape(weather, st);
        weather := step.0;
      }
      r := Ok(());
    }
  }
}
