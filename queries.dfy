/**
 * The SQL vocabulary of the record store: the table allow-list, the table
 * schemas with their column affinities and primary keys, the statements the
 * store runs, and a model of what SQLite does with each of them. A table is
 * its rows in the order they were first stored.
 *
 * The parts of SQLite's behaviour the model keeps:
 * - sqlite3 binds a bool as the integer 0 or 1 and cannot bind a list or a
 *   dict;
 * - a column's affinity converts a value before it is stored or compared: an
 *   INTEGER column reads integer text as the integer, a TEXT column holds an
 *   integer as its decimal text;
 * - an `INTEGER PRIMARY KEY` is the rowid: a NULL there takes the next rowid,
 *   and a value that is not an integer is a datatype mismatch;
 * - any other primary key only rules out a second row with the same key when
 *   the key holds no NULL, since NULLs are distinct from each other;
 * - `column = ?` applies the column's affinity to the parameter and is never
 *   true for NULL.
 */
module Queries {
  import opened Values
  import opened Frames
  import opened PyStr

  const AllowedTables: seq<string> :=
    ["activities", "best_efforts", "gear", "weather", "splits", "zones", "cache", "streams"]

  /** The affinity a column's declared type gives it. */
  datatype Affinity = IntegerAffinity | TextAffinity | RealAffinity

  /** The columns of a table in declaration order with their affinities, the
      primary key columns, and whether the key is an `INTEGER PRIMARY KEY`
      (an alias of the rowid). */
  datatype Schema = Schema(columns: seq<string>, types: seq<Affinity>, key: seq<string>, rowidKey: bool)

  const ActivitiesColumns: seq<string> :=
    ["id", "name", "date", "month", "day_of_week", "start_time", "end_time", "sport_type", "indoor",
     "distance", "duration", "elevation_gain", "gear_id", "average_heartrate", "average_speed",
     "average_cadence", "average_temp", "average_watts", "intensity", "lat_lng"]

  const ActivitiesTypes: seq<Affinity> :=
    [IntegerAffinity, TextAffinity, TextAffinity, TextAffinity, TextAffinity, TextAffinity, TextAffinity,
     TextAffinity, IntegerAffinity, RealAffinity, RealAffinity, RealAffinity, TextAffinity, RealAffinity,
     RealAffinity, RealAffinity, RealAffinity, RealAffinity, IntegerAffinity, TextAffinity]

  const ActivitiesSchema: Schema := Schema(ActivitiesColumns, ActivitiesTypes, ["id"], true)
  const BestEffortsSchema: Schema :=
    Schema(["id", "date", "name", "distance", "time", "pr_rank"],
           [TextAffinity, TextAffinity, TextAffinity, RealAffinity, IntegerAffinity, IntegerAffinity],
           ["id", "name"], false)
  const GearSchema: Schema :=
    Schema(["gear_id", "name", "distance", "brand_name", "model_name", "retired", "weight"],
           [TextAffinity, TextAffinity, RealAffinity, TextAffinity, TextAffinity, IntegerAffinity, RealAffinity],
           ["gear_id"], false)
  const WeatherSchema: Schema :=
    Schema(["id", "date", "temperature", "weather_code", "precipitation", "rain", "wind_speed", "snow"],
           [IntegerAffinity, TextAffinity, RealAffinity, TextAffinity, RealAffinity, RealAffinity, RealAffinity, RealAffinity],
           ["id"], true)
  const SplitsSchema: Schema :=
    Schema(["id", "sport_type", "splits_metric", "laps", "available_zones"],
           [IntegerAffinity, TextAffinity, TextAffinity, TextAffinity, TextAffinity],
           ["id"], true)
  const ZonesSchema: Schema :=
    Schema(["id", "zone_type", "min_value", "max_value", "time_in_zone"],
           [IntegerAffinity, TextAffinity, IntegerAffinity, IntegerAffinity, RealAffinity],
           ["id", "zone_type", "min_value", "max_value"], false)
  const StreamsSchema: Schema :=
    Schema(["id", "time", "distance", "latlng", "altitude", "speed", "heartrate", "cadence", "watts"],
           [IntegerAffinity, TextAffinity, TextAffinity, TextAffinity, TextAffinity, TextAffinity, TextAffinity,
            TextAffinity, TextAffinity],
           ["id"], true)
  const CacheSchema: Schema := Schema(["id"], [IntegerAffinity], ["id"], true)

  /** `CREATE_ALL_TABLES`, table by table. */
  const CreateAllTables: map<string, Schema> := map[
    "activities" := ActivitiesSchema,
    "best_efforts" := BestEffortsSchema,
    "gear" := GearSchema,
    "weather" := WeatherSchema,
    "splits" := SplitsSchema,
    "zones" := ZonesSchema,
    "streams" := StreamsSchema,
    "cache" := CacheSchema
  ]

  /** Distinct column names, one affinity per column, a non-empty primary key
      made of columns, and a rowid key that is one INTEGER column. */
  predicate ValidSchema(s: Schema) {
    && Distinct(s.columns)
    && |s.types| == |s.columns|
    && |s.key| > 0
    && (forall k :: 0 <= k < |s.key| ==> s.key[k] in s.columns)
    && (s.rowidKey ==> |s.key| == 1 && s.types[ColumnIndex(s.columns, s.key[0]).value] == IntegerAffinity)
  }

  /** The allow-list holds eight distinct names. */
  lemma AllowListHasEightNames()
    ensures |AllowedTables| == 8 && Distinct(AllowedTables)
  {
  }

  /** There is a schema for exactly the allowed tables. */
  lemma SchemasCoverAllowList()
    ensures CreateAllTables.Keys == set t | t in AllowedTables
  {
  }

  /** Every schema has distinct columns and a primary key made of its columns. */
  lemma SchemasValid()
    ensures forall t :: t in CreateAllTables ==> ValidSchema(CreateAllTables[t])
  {
    ActivitiesSchemaValid();
    BestEffortsSchemaValid();
    GearSchemaValid();
    WeatherSchemaValid();
    SplitsSchemaValid();
    ZonesSchemaValid();
    StreamsSchemaValid();
    CacheSchemaValid();
  }

  lemma ActivitiesSchemaValid()
    ensures ValidSchema(ActivitiesSchema)
  {
    ActivitiesColumnsDistinct();
  }

  /** The position of each activities column, written out name by name. */
  function ActivitiesColumnPosition(name: string): int
  {
    if name == "id" then 0
    else if name == "name" then 1
    else if name == "date" then 2
    else if name == "month" then 3
    else if name == "day_of_week" then 4
    else if name == "start_time" then 5
    else if name == "end_time" then 6
    else if name == "sport_type" then 7
    else if name == "indoor" then 8
    else if name == "distance" then 9
    else if name == "duration" then 10
    else if name == "elevation_gain" then 11
    else if name == "gear_id" then 12
    else if name == "average_heartrate" then 13
    else if name == "average_speed" then 14
    else if name == "average_cadence" then 15
    else if name == "average_temp" then 16
    else if name == "average_watts" then 17
    else if name == "intensity" then 18
    else if name == "lat_lng" then 19
    else -1
  }

  /** No column of the activities table is declared twice: each column sits
      at its own position. */
  lemma ActivitiesColumnsDistinct()
    ensures Distinct(ActivitiesColumns)
  {
    forall i | 0 <= i < |ActivitiesColumns| ensures ActivitiesColumnPosition(ActivitiesColumns[i]) == i {
    }
  }

  lemma BestEffortsSchemaValid()
    ensures ValidSchema(BestEffortsSchema)
  {
  }

  lemma GearSchemaValid()
    ensures ValidSchema(GearSchema)
  {
  }

  lemma WeatherSchemaValid()
    ensures ValidSchema(WeatherSchema)
  {
  }

  lemma SplitsSchemaValid()
    ensures ValidSchema(SplitsSchema)
  {
  }

  lemma ZonesSchemaValid()
    ensures ValidSchema(ZonesSchema)
  {
  }

  lemma StreamsSchemaValid()
    ensures ValidSchema(StreamsSchema)
  {
  }

  lemma CacheSchemaValid()
    ensures ValidSchema(CacheSchema)
  {
  }

  /** The primary keys each table is created with; five of them are rowids. */
  lemma PrimaryKeys()
    ensures CreateAllTables["activities"].key == ["id"] && CreateAllTables["activities"].rowidKey
    ensures CreateAllTables["weather"].key == ["id"] && CreateAllTables["weather"].rowidKey
    ensures CreateAllTables["splits"].key == ["id"] && CreateAllTables["splits"].rowidKey
    ensures CreateAllTables["streams"].key == ["id"] && CreateAllTables["streams"].rowidKey
    ensures CreateAllTables["cache"].key == ["id"] && CreateAllTables["cache"].rowidKey
    ensures CreateAllTables["gear"].key == ["gear_id"] && !CreateAllTables["gear"].rowidKey
    ensures CreateAllTables["zones"].key == ["id", "zone_type", "min_value", "max_value"]
    ensures !CreateAllTables["zones"].rowidKey
    ensures CreateAllTables["best_efforts"].key == ["id", "name"] && !CreateAllTables["best_efforts"].rowidKey
  {
  }

  /** What happens to a row whose key is already stored: `INSERT` fails,
      `INSERT OR IGNORE` skips the row, `INSERT OR REPLACE` overwrites. */
  datatype OnConflict = Abort | Ignore | Replace

  /** The statements sent to SQLite. `SelectWhere` and `UpdateWhere` filter
      on `column = ?` with `param` for the placeholder. */
  datatype Statement =
    | Insert(onConflict: OnConflict, table: string, columns: seq<string>, values: seq<Value>)
    | DeleteAll(table: string)
    | SelectColumn(table: string, column: string)
    | SelectWhere(table: string, column: string, param: Value)
    | UpdateWhere(table: string, setColumns: seq<string>, setValues: seq<Value>, column: string, param: Value)
    | CountRows(table: string)

  /** `INSERT_ID_TO_CACHE` with its one parameter. */
  function InsertIdToCache(id: Value): Statement { Insert(Replace, "cache", ["id"], [id]) }

  /** `INSERT_OR_IGNORE_QUERY` formatted with a table and its columns, given one row's values. */
  function InsertOrIgnoreQuery(table: string, columns: seq<string>, values: seq<Value>): Statement {
    Insert(Ignore, table, columns, values)
  }

  const GetCachedIds: Statement := SelectColumn("cache", "id")
  const ClearCache: Statement := DeleteAll("cache")
  function GetRowCount(table: string): Statement { CountRows(table) }
  const GetActivitiesIds: Statement := SelectColumn("activities", "id")
  const GetZonesIds: Statement := SelectColumn("zones", "id")
  const GetSplitsIds: Statement := SelectColumn("splits", "id")
  const GetStreamsIds: Statement := SelectColumn("streams", "id")
  const GetBestEffortsIds: Statement := SelectColumn("best_efforts", "id")

  datatype Table = Table(schema: Schema, rows: seq<seq<Value>>)

  type Database = map<string, Table>

  /** What a statement gives back: the fetched rows, or a `sqlite3.Error`. */
  datatype Answer = Fetched(rows: seq<seq<Value>>) | SqlError

  const MinInt64: int := -0x8000_0000_0000_0000
  const MaxInt64: int := 0x7FFF_FFFF_FFFF_FFFF

  /** The value sqlite3 binds for a Python parameter: a bool is the integer
      0 or 1, and a list or a dict cannot be bound. */
  function Bind(v: Value): (r: Option<Value>)
    ensures r.None? <==> v.VList? || v.VDict?
  {
    match v
    case VBool(b) => Some(VInt(if b then 1 else 0))
    case VList(_) => None
    case VDict(_) => None
    case _ => Some(v)
  }

  /** Text SQLite reads as an integer: an optional sign, then decimal digits. */
  function IntegerLiteral(s: string): Option<int>
  {
    if |s| > 0 && AllDigits(s) then Some(DigitsValue(s))
    else if |s| > 1 && (s[0] == '-' || s[0] == '+') && AllDigits(s[1..]) then
      var magnitude: int := DigitsValue(s[1..]);
      Some(if s[0] == '-' then -magnitude else magnitude)
    else None
  }

  /** What a column's affinity makes of a bound value: an INTEGER column turns
      integer text that fits in 64 bits into the integer, a TEXT column turns
      an integer into its decimal text; everything else is kept. */
  function Coerce(a: Affinity, v: Value): Value
  {
    match a
    case IntegerAffinity =>
      if v.VStr? && IntegerLiteral(v.s).Some? && MinInt64 <= IntegerLiteral(v.s).value <= MaxInt64
      then VInt(IntegerLiteral(v.s).value) else v
    case TextAffinity => if v.VInt? then VStr(DecimalText(v.i)) else v
    case RealAffinity => v
  }

  /** The primary-key values of a row. */
  function KeyOf(s: Schema, row: seq<Value>): seq<Value>
    requires ValidSchema(s) && |row| == |s.columns|
  {
    seq(|s.key|, k requires 0 <= k < |s.key| => row[ColumnIndex(s.columns, s.key[k]).value])
  }

  /** The position of the rowid column of a table with an `INTEGER PRIMARY KEY`. */
  function RowidColumn(s: Schema): (j: nat)
    requires ValidSchema(s) && s.rowidKey
    ensures j < |s.columns| && s.columns[j] == s.key[0] && s.types[j] == IntegerAffinity
  {
    ColumnIndex(s.columns, s.key[0]).value
  }

  /** Rows of the right width; in a rowid table every rowid is an integer; no
      two rows share a primary key that holds no NULL. */
  predicate ValidTable(t: Table) {
    && ValidSchema(t.schema)
    && (forall i :: 0 <= i < |t.rows| ==> |t.rows[i]| == |t.schema.columns|)
    && (t.schema.rowidKey ==> forall i :: 0 <= i < |t.rows| ==> t.rows[i][RowidColumn(t.schema)].VInt?)
    && (forall i, j :: 0 <= i < j < |t.rows| && VNone !in KeyOf(t.schema, t.rows[i]) ==>
          KeyOf(t.schema, t.rows[i]) != KeyOf(t.schema, t.rows[j]))
  }

  predicate ValidDatabase(db: Database) {
    forall name :: name in db ==> ValidTable(db[name])
  }

  predicate HasKey(t: Table, key: seq<Value>)
    requires ValidTable(t)
  {
    exists i :: 0 <= i < |t.rows| && KeyOf(t.schema, t.rows[i]) == key
  }

  /** Where the row with this key is stored. */
  function FindKey(t: Table, key: seq<Value>, from: nat): (r: Option<nat>)
    requires ValidTable(t)
    ensures r.Some? ==> from <= r.value < |t.rows| && KeyOf(t.schema, t.rows[r.value]) == key
    ensures r.None? ==> forall i :: from <= i < |t.rows| ==> KeyOf(t.schema, t.rows[i]) != key
    decreases |t.rows| - from
  {
    if from >= |t.rows| then None
    else if KeyOf(t.schema, t.rows[from]) == key then Some(from)
    else FindKey(t, key, from + 1)
  }

  /** The full row an INSERT stores before the rowid is settled: each listed
      column gets its bound value converted by the column's affinity, every
      other column NULL. Listing a column twice, an unknown column, a
      different number of values, or a value sqlite3 cannot bind is an error. */
  function BuildRow(s: Schema, columns: seq<string>, values: seq<Value>): (r: Option<seq<Value>>)
    requires |s.types| == |s.columns|
    ensures r.Some? ==> |r.value| == |s.columns|
    ensures r.Some? <==>
              && |columns| == |values| && Distinct(columns)
              && (forall k :: 0 <= k < |columns| ==> columns[k] in s.columns)
              && (forall k :: 0 <= k < |values| ==> Bind(values[k]).Some?)
  {
    if || |columns| != |values| || !Distinct(columns)
       || (exists k :: 0 <= k < |columns| && columns[k] !in s.columns)
       || (exists k :: 0 <= k < |values| && Bind(values[k]).None?)
    then None
    else Some(seq(|s.columns|, j requires 0 <= j < |s.columns| =>
      match ColumnIndex(columns, s.columns[j])
      case Some(k) => Coerce(s.types[j], Bind(values[k]).value)
      case None => VNone))
  }

  /** The largest rowid among the rows. */
  function LargestRowid(rows: seq<seq<Value>>, j: nat): (m: int)
    requires |rows| > 0 && forall i :: 0 <= i < |rows| ==> j < |rows[i]| && rows[i][j].VInt?
    ensures forall i :: 0 <= i < |rows| ==> rows[i][j].i <= m
    decreases |rows|
  {
    var last := rows[|rows| - 1][j].i;
    if |rows| == 1 then last
    else
      var m := LargestRowid(rows[..|rows| - 1], j);
      if m < last then last else m
  }

  /** The rowid SQLite gives a row inserted without one: one more than the
      largest stored rowid, or 1 in an empty table. */
  function NextRowid(t: Table): (n: int)
    requires ValidTable(t) && t.schema.rowidKey
    ensures forall i :: 0 <= i < |t.rows| ==> t.rows[i][RowidColumn(t.schema)].i < n
  {
    if |t.rows| == 0 then 1 else LargestRowid(t.rows, RowidColumn(t.schema)) + 1
  }

  /** The row as it is stored: in a rowid table a NULL key takes the next
      rowid and an integer key is the rowid; any other key value is a
      datatype mismatch (None). Other tables store the row as built. */
  function Placed(t: Table, row: seq<Value>): (r: Option<seq<Value>>)
    requires ValidTable(t) && |row| == |t.schema.columns|
    ensures r.Some? ==> |r.value| == |row|
  {
    if !t.schema.rowidKey then Some(row)
    else
      var j := RowidColumn(t.schema);
      if row[j].VNone? then Some(row[j := VInt(NextRowid(t))])
      else if row[j].VInt? then Some(row)
      else None
  }

  /** The stored row a new row runs into: one with the same key, provided the
      key holds no NULL. */
  function Collision(t: Table, row: seq<Value>): (r: Option<nat>)
    requires ValidTable(t) && |row| == |t.schema.columns|
    ensures r.Some? ==> r.value < |t.rows| && KeyOf(t.schema, t.rows[r.value]) == KeyOf(t.schema, row)
  {
    if VNone in KeyOf(t.schema, row) then None else FindKey(t, KeyOf(t.schema, row), 0)
  }

  /** One built row going into a table. */
  function InsertInto(t: Table, onConflict: OnConflict, row: seq<Value>): (Table, Answer)
    requires ValidTable(t) && |row| == |t.schema.columns|
  {
    match Placed(t, row)
    case None => (t, SqlError)
    case Some(p) =>
      match Collision(t, p)
      case None => (t.(rows := t.rows + [p]), Fetched([]))
      case Some(i) =>
        match onConflict
        case Abort => (t, SqlError)
        case Ignore => (t, Fetched([]))
        case Replace => (t.(rows := t.rows[i := p]), Fetched([]))
  }

  /** `column = ?` on one row: the column's affinity applies to the bound
      parameter, and a NULL on either side is never equal. */
  predicate Matches(s: Schema, row: seq<Value>, j: nat, p: Value)
    requires j < |row| && j < |s.types|
  {
    Coerce(s.types[j], p) != VNone && row[j] == Coerce(s.types[j], p)
  }

  /** The positions of the rows where `column = ?` holds. */
  function Hits(t: Table, j: nat, p: Value): (r: seq<nat>)
    requires ValidTable(t) && j < |t.schema.columns|
    ensures forall k :: 0 <= k < |r| ==> r[k] < |t.rows| && Matches(t.schema, t.rows[r[k]], j, p)
    ensures forall i :: 0 <= i < |t.rows| && Matches(t.schema, t.rows[i], j, p) ==> i in r
  {
    FilterIndices((i: nat) => i < |t.rows| && Matches(t.schema, t.rows[i], j, p), |t.rows|)
  }

  /** `SELECT * FROM table WHERE column = ?`. */
  function SelectWhereIn(t: Table, column: string, param: Value): Answer
    requires ValidTable(t)
  {
    if column !in t.schema.columns || Bind(param).None? then SqlError
    else
      var hits := Hits(t, ColumnIndex(t.schema.columns, column).value, Bind(param).value);
      Fetched(seq(|hits|, k requires 0 <= k < |hits| => t.rows[hits[k]]))
  }

  /** A row after `SET c1 = ?, c2 = ?, ...`, given the bound values. */
  function Assigned(s: Schema, row: seq<Value>, setColumns: seq<string>, bound: seq<Value>): (r: seq<Value>)
    requires |row| == |s.columns| == |s.types| && |setColumns| == |bound|
    ensures |r| == |row|
  {
    seq(|row|, j requires 0 <= j < |row| =>
      match ColumnIndex(setColumns, s.columns[j])
      case Some(k) => Coerce(s.types[j], bound[k])
      case None => row[j])
  }

  /** `UPDATE table SET ... WHERE column = ?`: every matching row is
      assigned; a result that breaks the key or rowid rules is an error and
      the table is left as it was. */
  function UpdateIn(t: Table, setColumns: seq<string>, setValues: seq<Value>, column: string, param: Value): (Table, Answer)
    requires ValidTable(t)
  {
    if || |setColumns| != |setValues|
       || (exists k :: 0 <= k < |setColumns| && setColumns[k] !in t.schema.columns)
       || (exists k :: 0 <= k < |setValues| && Bind(setValues[k]).None?)
       || column !in t.schema.columns || Bind(param).None?
    then (t, SqlError)
    else
      var bound := seq(|setValues|, k requires 0 <= k < |setValues| => Bind(setValues[k]).value);
      var j := ColumnIndex(t.schema.columns, column).value;
      var p := Bind(param).value;
      var t2 := t.(rows := seq(|t.rows|, i requires 0 <= i < |t.rows| =>
        if Matches(t.schema, t.rows[i], j, p) then Assigned(t.schema, t.rows[i], setColumns, bound) else t.rows[i]));
      if ValidTable(t2) then (t2, Fetched([])) else (t, SqlError)
  }

  /** What SQLite does with one statement on its table. */
  function Apply(t: Table, st: Statement): (Table, Answer)
    requires ValidTable(t)
  {
    match st
    case Insert(onConflict, _, columns, values) =>
      (match BuildRow(t.schema, columns, values)
       case None => (t, SqlError)
       case Some(row) => InsertInto(t, onConflict, row))
    case DeleteAll(_) => (t.(rows := []), Fetched([]))
    case SelectColumn(_, column) =>
      (match ColumnIndex(t.schema.columns, column)
       case None => (t, SqlError)
       case Some(j) => (t, Fetched(seq(|t.rows|, i requires 0 <= i < |t.rows| => [t.rows[i][j]]))))
    case SelectWhere(_, column, param) => (t, SelectWhereIn(t, column, param))
    case UpdateWhere(_, setColumns, setValues, column, param) => UpdateIn(t, setColumns, setValues, column, param)
    case CountRows(_) => (t, Fetched([[VInt(|t.rows|)]]))
  }

  /** What SQLite does with one statement. A missing table is an error. */
  function Execute(db: Database, st: Statement): (Database, Answer)
    requires ValidDatabase(db)
  {
    if st.table !in db then (db, SqlError)
    else
      var (t2, answer) := Apply(db[st.table], st);
      (db[st.table := t2], answer)
  }

  /** The stored row with a given key, if any. */
  function RowWithKey(t: Table, key: seq<Value>): Option<seq<Value>>
    requires ValidTable(t)
  {
    match FindKey(t, key, 0) case Some(i) => Some(t.rows[i]) case None => None
  }

  /** A rowid table's key is its rowid column alone. */
  lemma RowidKey(s: Schema, row: seq<Value>)
    requires ValidSchema(s) && s.rowidKey && |row| == |s.columns|
    ensures KeyOf(s, row) == [row[RowidColumn(s)]]
  {
  }

  /** The rowid given to a row inserted without one is one more than the
      largest stored rowid, or 1 when the table is empty; it differs from
      every stored rowid. */
  lemma NextRowidIsFresh(t: Table)
    requires ValidTable(t) && t.schema.rowidKey
    ensures forall i :: 0 <= i < |t.rows| ==> t.rows[i][RowidColumn(t.schema)] != VInt(NextRowid(t))
    ensures |t.rows| == 0 ==> NextRowid(t) == 1
    ensures |t.rows| > 0 ==> exists i :: 0 <= i < |t.rows| && t.rows[i][RowidColumn(t.schema)] == VInt(NextRowid(t) - 1)
  {
    if |t.rows| > 0 {
      LargestRowidStored(t.rows, RowidColumn(t.schema));
    }
  }

  /** The largest rowid is the rowid of a stored row. */
  lemma {:induction false} LargestRowidStored(rows: seq<seq<Value>>, j: nat)
    requires |rows| > 0 && forall i :: 0 <= i < |rows| ==> j < |rows[i]| && rows[i][j].VInt?
    ensures exists i :: 0 <= i < |rows| && rows[i][j].i == LargestRowid(rows, j)
    decreases |rows|
  {
    var n := |rows| - 1;
    if n == 0 {
      assert rows[0][j].i == LargestRowid(rows, j);
    } else {
      var front := rows[..n];
      assert forall i :: 0 <= i < |front| ==> front[i] == rows[i];
      LargestRowidStored(front, j);
      var i :| 0 <= i < |front| && front[i][j].i == LargestRowid(front, j);
      var m := LargestRowid(front, j);
      assert LargestRowid(rows, j) == if m < rows[n][j].i then rows[n][j].i else m;
      if m < rows[n][j].i {
        assert rows[n][j].i == LargestRowid(rows, j);
      } else {
        assert rows[i][j].i == LargestRowid(rows, j);
      }
    }
  }

  /** Placing a row keeps its width and every column but the rowid column,
      and leaves a rowid table with an integer rowid. */
  lemma PlacedShape(t: Table, row: seq<Value>)
    requires ValidTable(t) && |row| == |t.schema.columns| && Placed(t, row).Some?
    ensures t.schema.rowidKey ==> Placed(t, row).value[RowidColumn(t.schema)].VInt?
    ensures !t.schema.rowidKey ==> Placed(t, row).value == row
    ensures t.schema.rowidKey && row[RowidColumn(t.schema)].VInt? ==> Placed(t, row).value == row
  {
  }

  /** Appending a placed row keeps the table valid when nothing collides with it. */
  lemma AppendPlaced(t: Table, p: seq<Value>)
    requires ValidTable(t) && |p| == |t.schema.columns|
    requires t.schema.rowidKey ==> p[RowidColumn(t.schema)].VInt?
    requires Collision(t, p).None?
    ensures ValidTable(t.(rows := t.rows + [p]))
  {
    var t2 := t.(rows := t.rows + [p]);
    forall i, j | 0 <= i < j < |t2.rows| && VNone !in KeyOf(t.schema, t2.rows[i])
      ensures KeyOf(t.schema, t2.rows[i]) != KeyOf(t.schema, t2.rows[j])
    {
      if j == |t.rows| {
        assert t2.rows[i] == t.rows[i];
      }
    }
  }

  /** Overwriting the row at i with a row of the same key keeps the table valid. */
  lemma ReplacePlaced(t: Table, i: nat, p: seq<Value>)
    requires ValidTable(t) && i < |t.rows| && |p| == |t.schema.columns|
    requires t.schema.rowidKey ==> p[RowidColumn(t.schema)].VInt?
    requires KeyOf(t.schema, p) == KeyOf(t.schema, t.rows[i])
    ensures ValidTable(t.(rows := t.rows[i := p]))
  {
    var t2 := t.(rows := t.rows[i := p]);
    assert forall a :: 0 <= a < |t2.rows| ==> KeyOf(t.schema, t2.rows[a]) == KeyOf(t.schema, t.rows[a]);
  }

  /** Every statement keeps its table well formed, with its schema. */
  lemma ApplyKeepsShape(t: Table, st: Statement)
    requires ValidTable(t)
    ensures ValidTable(Apply(t, st).0) && Apply(t, st).0.schema == t.schema
  {
    if st.Insert? && BuildRow(t.schema, st.columns, st.values).Some? {
      var row := BuildRow(t.schema, st.columns, st.values).value;
      if Placed(t, row).Some? {
        var p := Placed(t, row).value;
        PlacedShape(t, row);
        match Collision(t, p)
        case None => AppendPlaced(t, p);
        case Some(i) => ReplacePlaced(t, i, p);
      }
    }
  }

  /** Every statement keeps every table well formed, keeps the set of tables
      and their schemas, and touches only its own table. */
  lemma ExecuteKeepsShape(db: Database, st: Statement)
    requires ValidDatabase(db)
    ensures var (db2, _) := Execute(db, st);
            && ValidDatabase(db2)
            && db2.Keys == db.Keys
            && (forall name :: name in db ==> db2[name].schema == db[name].schema)
            && (forall name :: name in db && name != st.table ==> db2[name] == db[name])
  {
    if st.table in db {
      ApplyKeepsShape(db[st.table], st);
    }
  }

  /** A statement that leaves its table as it was leaves the database as it was. */
  lemma SameTableSameDatabase(db: Database, st: Statement)
    requires ValidDatabase(db) && st.table in db && Apply(db[st.table], st).0 == db[st.table]
    ensures Execute(db, st).0 == db
  {
  }

  /** Reading statements change nothing. */
  lemma ReadsChangeNothing(db: Database, st: Statement)
    requires ValidDatabase(db) && (st.SelectColumn? || st.SelectWhere? || st.CountRows?)
    ensures Execute(db, st).0 == db
  {
  }

  /** The INSERT cannot be prepared or bound (a column listed twice or
      unknown, the wrong number of values, a list or dict value), or it puts
      a value other than an integer or NULL in a rowid. */
  predicate InsertFails(s: Schema, columns: seq<string>, values: seq<Value>)
    requires ValidSchema(s)
  {
    || BuildRow(s, columns, values).None?
    || (s.rowidKey && var v := BuildRow(s, columns, values).value[RowidColumn(s)]; !v.VNone? && !v.VInt?)
  }

  /** A failing INSERT is an error and changes nothing; any other INSERT
      stores a row. */
  lemma InsertErrors(db: Database, st: Statement)
    requires ValidDatabase(db) && st.Insert? && st.table in db
    ensures InsertFails(db[st.table].schema, st.columns, st.values) ==> Execute(db, st) == (db, SqlError)
    ensures !InsertFails(db[st.table].schema, st.columns, st.values) <==> StoredRow(db[st.table], st.columns, st.values).Some?
  {
    if InsertFails(db[st.table].schema, st.columns, st.values) {
      SameTableSameDatabase(db, st);
    }
  }

  /** The row INSERT stores, once bound, converted and given its rowid. */
  function StoredRow(t: Table, columns: seq<string>, values: seq<Value>): Option<seq<Value>>
    requires ValidTable(t)
  {
    match BuildRow(t.schema, columns, values)
    case None => None
    case Some(row) => Placed(t, row)
  }

  /** INSERT OR IGNORE of a row whose key holds no NULL and is already stored
      changes nothing; otherwise the row is added after the existing ones,
      which stay as they were. */
  lemma InsertOrIgnoreKeepsExisting(db: Database, name: string, columns: seq<string>, values: seq<Value>)
    requires ValidDatabase(db) && name in db
    requires StoredRow(db[name], columns, values).Some?
    ensures var t := db[name];
            var p := StoredRow(t, columns, values).value;
            var db2 := Execute(db, Insert(Ignore, name, columns, values)).0;
            && (VNone !in KeyOf(t.schema, p) && HasKey(t, KeyOf(t.schema, p)) ==> db2 == db)
            && (!(VNone !in KeyOf(t.schema, p) && HasKey(t, KeyOf(t.schema, p))) ==>
                  db2 == db[name := t.(rows := t.rows + [p])])
  {
    var t := db[name];
    var p := StoredRow(t, columns, values).value;
    if VNone !in KeyOf(t.schema, p) && HasKey(t, KeyOf(t.schema, p)) {
      var i :| 0 <= i < |t.rows| && KeyOf(t.schema, t.rows[i]) == KeyOf(t.schema, p);
      assert FindKey(t, KeyOf(t.schema, p), 0).Some?;
    }
  }

  /** A key holding a NULL never collides: in a rowid table the row takes a
      fresh rowid, in any other table NULLs are distinct; either way every
      form of INSERT adds the row. */
  lemma NullKeyAlwaysAdds(db: Database, st: Statement)
    requires ValidDatabase(db) && st.Insert? && st.table in db
    requires var t := db[st.table];
             BuildRow(t.schema, st.columns, st.values).Some? &&
             VNone in KeyOf(t.schema, BuildRow(t.schema, st.columns, st.values).value)
    ensures var t := db[st.table];
            var p := StoredRow(t, st.columns, st.values);
            && p.Some?
            && Execute(db, st) == (db[st.table := t.(rows := t.rows + [p.value])], Fetched([]))
            && (t.schema.rowidKey ==>
                  p.value[RowidColumn(t.schema)] == VInt(NextRowid(t)) &&
                  forall i :: 0 <= i < |t.rows| ==> t.rows[i][RowidColumn(t.schema)] != p.value[RowidColumn(t.schema)])
  {
    NullKeyAppends(db[st.table], st);
  }

  lemma NullKeyAppends(t: Table, st: Statement)
    requires ValidTable(t) && st.Insert?
    requires BuildRow(t.schema, st.columns, st.values).Some?
    requires VNone in KeyOf(t.schema, BuildRow(t.schema, st.columns, st.values).value)
    ensures var p := StoredRow(t, st.columns, st.values);
            && p.Some?
            && Apply(t, st) == (t.(rows := t.rows + [p.value]), Fetched([]))
            && (t.schema.rowidKey ==>
                  p.value[RowidColumn(t.schema)] == VInt(NextRowid(t)) &&
                  forall i :: 0 <= i < |t.rows| ==> t.rows[i][RowidColumn(t.schema)] != p.value[RowidColumn(t.schema)])
  {
    var row := BuildRow(t.schema, st.columns, st.values).value;
    if t.schema.rowidKey {
      RowidKey(t.schema, row);
      var p := Placed(t, row).value;
      RowidKey(t.schema, p);
      NextRowidIsFresh(t);
      if FindKey(t, KeyOf(t.schema, p), 0).Some? {
        var r := FindKey(t, KeyOf(t.schema, p), 0).value;
        RowidKey(t.schema, t.rows[r]);
        assert false;
      }
    }
  }

  /** With unique keys the search finds the one row holding a key without NULL. */
  lemma FindKeyUnique(t: Table, key: seq<Value>, i: nat)
    requires ValidTable(t) && i < |t.rows| && KeyOf(t.schema, t.rows[i]) == key && VNone !in key
    ensures FindKey(t, key, 0) == Some(i)
  {
  }

  /** After INSERT OR REPLACE of a row whose key holds no NULL, that key
      reads the new row, every other key keeps its row, and no row is lost. */
  lemma InsertOrReplaceStoresRow(db: Database, name: string, columns: seq<string>, values: seq<Value>)
    requires ValidDatabase(db) && name in db
    requires StoredRow(db[name], columns, values).Some?
    requires VNone !in KeyOf(db[name].schema, StoredRow(db[name], columns, values).value)
    ensures var t := db[name];
            var p := StoredRow(t, columns, values).value;
            var t2 := Execute(db, Insert(Replace, name, columns, values)).0[name];
            && ValidTable(t2)
            && RowWithKey(t2, KeyOf(t.schema, p)) == Some(p)
            && (forall key :: key != KeyOf(t.schema, p) && VNone !in key ==> RowWithKey(t2, key) == RowWithKey(t, key))
            && |t2.rows| == if HasKey(t, KeyOf(t.schema, p)) then |t.rows| else |t.rows| + 1
  {
    var t := db[name];
    var row := BuildRow(t.schema, columns, values).value;
    var p := Placed(t, row).value;
    var k := KeyOf(t.schema, p);
    PlacedShape(t, row);
    match FindKey(t, k, 0)
    case Some(i) =>
      assert Execute(db, Insert(Replace, name, columns, values)).0[name] == t.(rows := t.rows[i := p]);
      ReplaceAt(t, i, p);
    case None =>
      assert Execute(db, Insert(Replace, name, columns, values)).0[name] == t.(rows := t.rows + [p]);
      AppendNew(t, p);
  }

  /** Overwriting the row at i with a row of the same key. */
  lemma ReplaceAt(t: Table, i: nat, p: seq<Value>)
    requires ValidTable(t) && i < |t.rows| && |p| == |t.schema.columns|
    requires t.schema.rowidKey ==> p[RowidColumn(t.schema)].VInt?
    requires KeyOf(t.schema, p) == KeyOf(t.schema, t.rows[i]) && VNone !in KeyOf(t.schema, p)
    ensures var t2 := t.(rows := t.rows[i := p]);
            && ValidTable(t2)
            && RowWithKey(t2, KeyOf(t.schema, p)) == Some(p)
            && (forall key :: key != KeyOf(t.schema, p) && VNone !in key ==> RowWithKey(t2, key) == RowWithKey(t, key))
  {
    var t2 := t.(rows := t.rows[i := p]);
    ReplacePlaced(t, i, p);
    FindKeyUnique(t2, KeyOf(t.schema, p), i);
    forall key | key != KeyOf(t.schema, p) && VNone !in key ensures RowWithKey(t2, key) == RowWithKey(t, key) {
      match FindKey(t, key, 0)
      case Some(j) => FindKeyUnique(t2, key, j);
      case None =>
    }
  }

  /** Adding a row whose key holds no NULL and is not stored yet. */
  lemma AppendNew(t: Table, p: seq<Value>)
    requires ValidTable(t) && |p| == |t.schema.columns|
    requires t.schema.rowidKey ==> p[RowidColumn(t.schema)].VInt?
    requires VNone !in KeyOf(t.schema, p) && FindKey(t, KeyOf(t.schema, p), 0).None?
    ensures var t2 := t.(rows := t.rows + [p]);
            && ValidTable(t2)
            && RowWithKey(t2, KeyOf(t.schema, p)) == Some(p)
            && (forall key :: key != KeyOf(t.schema, p) && VNone !in key ==> RowWithKey(t2, key) == RowWithKey(t, key))
            && !HasKey(t, KeyOf(t.schema, p))
  {
    var t2 := t.(rows := t.rows + [p]);
    AppendPlaced(t, p);
    FindKeyUnique(t2, KeyOf(t.schema, p), |t.rows|);
    forall key | key != KeyOf(t.schema, p) && VNone !in key ensures RowWithKey(t2, key) == RowWithKey(t, key) {
      match FindKey(t, key, 0)
      case Some(j) =>
        assert t2.rows[j] == t.rows[j];
        FindKeyUnique(t2, key, j);
      case None =>
    }
  }

  /** The row binds but carries a NULL in its key. */
  predicate NullKeyRow(s: Schema, columns: seq<string>, values: seq<Value>)
    requires ValidSchema(s)
  {
    BuildRow(s, columns, values).Some? && VNone in KeyOf(s, BuildRow(s, columns, values).value)
  }

  /** The statement adds a row every time it runs: an INSERT of a row with a
      NULL in its key. */
  predicate AddsEveryTime(db: Database, st: Statement)
    requires ValidDatabase(db)
  {
    st.Insert? && st.table in db && NullKeyRow(db[st.table].schema, st.columns, st.values)
  }

  /** Running the same INSERT OR IGNORE or INSERT OR REPLACE twice has the
      effect of running it once exactly when its key holds no NULL; a NULL
      key adds one more row each time. */
  lemma InsertIdempotent(db: Database, st: Statement)
    requires ValidDatabase(db) && st.Insert? && (st.onConflict.Ignore? || st.onConflict.Replace?)
    ensures ValidDatabase(Execute(db, st).0)
    ensures Execute(Execute(db, st).0, st).0 == Execute(db, st).0 <==> !AddsEveryTime(db, st)
    ensures AddsEveryTime(db, st) ==>
              |Execute(Execute(db, st).0, st).0[st.table].rows| == |Execute(db, st).0[st.table].rows| + 1
  {
    ExecuteKeepsShape(db, st);
    if st.table in db {
      var t := db[st.table];
      var db1 := Execute(db, st).0;
      ApplyKeepsShape(t, st);
      if AddsEveryTime(db, st) {
        NullKeyAppends(t, st);
        var t1 := Apply(t, st).0;
        assert db1[st.table] == t1;
        NullKeyAppends(t1, st);
        assert |Execute(db1, st).0[st.table].rows| == |t1.rows| + 1;
      } else {
        if StoredRow(t, st.columns, st.values).Some? {
          ApplyTwice(t, st);
        } else {
          assert Apply(t, st).0 == t;
        }
        ExecuteTwice(db, st);
      }
    }
  }

  /** The table-level step is idempotent, so the statement is. */
  lemma ExecuteTwice(db: Database, st: Statement)
    requires ValidDatabase(db) && st.table in db
    requires ValidTable(Apply(db[st.table], st).0)
    requires Apply(Apply(db[st.table], st).0, st).0 == Apply(db[st.table], st).0
    ensures ValidDatabase(Execute(db, st).0)
    ensures Execute(Execute(db, st).0, st).0 == Execute(db, st).0
  {
    ExecuteKeepsShape(db, st);
    var db1 := Execute(db, st).0;
    assert db1[st.table] == Apply(db[st.table], st).0;
    assert db1[st.table := db1[st.table]] == db1;
  }

  /** A row whose key holds no NULL is stored as built, whatever the table holds. */
  lemma PlacedKeyed(t: Table, t1: Table, row: seq<Value>)
    requires ValidTable(t) && ValidTable(t1) && t1.schema == t.schema && |row| == |t.schema.columns|
    requires Placed(t, row).Some? && VNone !in KeyOf(t.schema, row)
    ensures Placed(t, row) == Some(row) && Placed(t1, row) == Some(row)
  {
    if t.schema.rowidKey {
      RowidKey(t.schema, row);
    }
  }

  /** The second INSERT OR IGNORE finds the key the first one stored; the
      second INSERT OR REPLACE overwrites that row with the same row. */
  lemma ApplyTwice(t: Table, st: Statement)
    requires ValidTable(t) && st.Insert? && (st.onConflict.Ignore? || st.onConflict.Replace?)
    requires StoredRow(t, st.columns, st.values).Some?
    requires VNone !in KeyOf(t.schema, BuildRow(t.schema, st.columns, st.values).value)
    ensures ValidTable(Apply(t, st).0)
    ensures Apply(Apply(t, st).0, st).0 == Apply(t, st).0
  {
    ApplyKeepsShape(t, st);
    var row := BuildRow(t.schema, st.columns, st.values).value;
    var k := KeyOf(t.schema, row);
    PlacedKeyed(t, t, row);
    PlacedShape(t, row);
    var t1 := Apply(t, st).0;
    if st.onConflict.Ignore? && FindKey(t, k, 0).Some? {
      assert t1 == t;
    } else {
      var j: nat;
      if FindKey(t, k, 0).Some? {
        j := FindKey(t, k, 0).value;
        assert t1.rows == t.rows[j := row];
      } else {
        j := |t.rows|;
        assert t1.rows == t.rows + [row];
      }
      assert t1.rows[j] == row;
      PlacedKeyed(t, t1, row);
      FindKeyUnique(t1, k, j);
      if st.onConflict.Replace? {
        assert t1.rows[j := row] == t1.rows;
      }
      assert Apply(t1, st).0 == t1;
    }
  }

  /** DELETE empties its table. */
  lemma DeleteAllEmpties(db: Database, name: string)
    requires ValidDatabase(db) && name in db
    ensures Execute(db, DeleteAll(name)).0[name].rows == []
    ensures Execute(db, DeleteAll(name)).1 == Fetched([])
  {
  }

  /** The row `INSERT_ID_TO_CACHE` builds is the bound id in the cache's one
      INTEGER column. */
  lemma CacheRow(id: Value)
    requires Bind(id).Some?
    ensures ColumnIndex(CacheSchema.columns, "id") == Some(0)
    ensures BuildRow(CacheSchema, ["id"], [id]) == Some([Coerce(IntegerAffinity, Bind(id).value)])
  {
    assert Distinct(["id"]);
    var built := BuildRow(CacheSchema, ["id"], [id]);
    assert ColumnIndex(["id"], "id") == Some(0);
    assert forall k :: 0 <= k < |[id]| ==> Bind([id][k]).Some?;
    assert built.Some? && |built.value| == 1;
    assert built.value[0] == Coerce(IntegerAffinity, Bind(id).value);
    assert built.value == [built.value[0]];
  }

  /** A cache row's key is its one value. */
  lemma CacheKey(row: seq<Value>)
    requires |row| == 1
    ensures ValidSchema(CacheSchema) && KeyOf(CacheSchema, row) == [row[0]]
  {
    assert ColumnIndex(["id"], "id") == Some(0);
  }

  /** A converted value converts to itself again. */
  lemma CoerceIdempotent(a: Affinity, v: Value)
    ensures Coerce(a, Coerce(a, v)) == Coerce(a, v)
  {
    if a.TextAffinity? && v.VInt? {
      DecimalTextIsNotAnInteger(v.i);
    }
  }

  /** Decimal text is a string, never an integer value. */
  lemma DecimalTextIsNotAnInteger(n: int)
    ensures Coerce(TextAffinity, VStr(DecimalText(n))) == VStr(DecimalText(n))
  {
  }

  /** An integer stored in a TEXT column as its decimal text reads back as the
      same integer through an INTEGER column, within 64 bits. */
  lemma IntegerTextRoundTrip(n: int)
    requires MinInt64 <= n <= MaxInt64
    ensures Coerce(TextAffinity, VInt(n)) == VStr(DecimalText(n))
    ensures Coerce(IntegerAffinity, VStr(DecimalText(n))) == VInt(n)
  {
    if n >= 0 {
      DecimalRoundTrip(n);
    } else {
      DecimalRoundTrip(-n);
      var s := DecimalText(n);
      assert s == "-" + DecimalText(-n);
      assert s[1..] == DecimalText(-n);
      assert !AllDigits(s) by { assert !IsDigit(s[0]); }
    }
  }

  /** The text "5" and the integer 5 are the same key of an INTEGER column: a
      cache holding 5 ignores, and does not duplicate, an insert of "5". */
  lemma TextIdMatchesIntegerId()
    ensures var db := map["cache" := Table(CacheSchema, [[VInt(5)]])];
            && ValidDatabase(db)
            && Execute(db, Insert(Ignore, "cache", ["id"], [VStr("5")])).0 == db
            && Execute(db, SelectWhere("cache", "id", VStr("5"))).1 == Fetched([[VInt(5)]])
  {
    var t := Table(CacheSchema, [[VInt(5)]]);
    var db := map["cache" := t];
    FiveIsStored(t);
    assert ValidDatabase(db);
    TextFiveIgnored(t);
    TextFiveSelected(t);
    assert Execute(db, Insert(Ignore, "cache", ["id"], [VStr("5")])).0 == db[ "cache" := t];
    assert db["cache" := t] == db;
  }

  /** The text "5" converts to the integer 5 in an INTEGER column. */
  lemma FiveIsStored(t: Table)
    requires t == Table(CacheSchema, [[VInt(5)]])
    ensures Coerce(IntegerAffinity, VStr("5")) == VInt(5)
    ensures ValidTable(t) && ColumnIndex(CacheSchema.columns, "id") == Some(0)
  {
    assert IntegerLiteral("5") == Some(5) by {
      assert AllDigits("5");
      assert DigitsValue("5") == 10 * DigitsValue("") + 5;
    }
    CacheKey([VInt(5)]);
  }

  /** INSERT OR IGNORE of "5" runs into the stored 5. */
  lemma TextFiveIgnored(t: Table)
    requires t == Table(CacheSchema, [[VInt(5)]]) && ValidTable(t)
    requires Coerce(IntegerAffinity, VStr("5")) == VInt(5)
    ensures Apply(t, Insert(Ignore, "cache", ["id"], [VStr("5")])) == (t, Fetched([]))
  {
    CacheRow(VStr("5"));
    CacheKey([VInt(5)]);
    assert Placed(t, [VInt(5)]) == Some([VInt(5)]);
    assert FindKey(t, [VInt(5)], 0) == Some(0);
  }

  /** `WHERE id = "5"` finds the stored 5. */
  lemma TextFiveSelected(t: Table)
    requires t == Table(CacheSchema, [[VInt(5)]]) && ValidTable(t)
    requires Coerce(IntegerAffinity, VStr("5")) == VInt(5) && ColumnIndex(CacheSchema.columns, "id") == Some(0)
    ensures SelectWhereIn(t, "id", VStr("5")) == Fetched([[VInt(5)]])
  {
    var hits := Hits(t, 0, VStr("5"));
    assert Matches(CacheSchema, t.rows[0], 0, VStr("5"));
    assert hits == [0];
  }

  /** `SELECT * ... WHERE column = ?` returns exactly the stored rows where the
      column equals the parameter after the column's affinity, in table
      order; a NULL parameter finds nothing. */
  lemma SelectWhereFinds(db: Database, name: string, column: string, param: Value)
    requires ValidDatabase(db) && name in db && column in db[name].schema.columns && Bind(param).Some?
    ensures var t := db[name];
            var j := ColumnIndex(t.schema.columns, column).value;
            var a := Execute(db, SelectWhere(name, column, param)).1;
            && a.Fetched?
            && (forall r :: r in a.rows ==> r in t.rows && Matches(t.schema, r, j, Bind(param).value))
            && (forall i :: 0 <= i < |t.rows| && Matches(t.schema, t.rows[i], j, Bind(param).value) ==> t.rows[i] in a.rows)
            && (param == VNone ==> a.rows == [])
  {
    var t := db[name];
    var j := ColumnIndex(t.schema.columns, column).value;
    assert Execute(db, SelectWhere(name, column, param)).1 == SelectWhereIn(t, column, param);
    SelectedRows(t, j, Bind(param).value);
    if param == VNone {
      NullFindsNothing(t, j);
    }
  }

  /** A NULL parameter matches no row. */
  lemma NullFindsNothing(t: Table, j: nat)
    requires ValidTable(t) && j < |t.schema.columns|
    ensures Hits(t, j, VNone) == []
  {
    FilterNone((i: nat) => i < |t.rows| && Matches(t.schema, t.rows[i], j, VNone), |t.rows|);
  }

  /** The rows the SELECT returns are the matching rows. */
  lemma SelectedRows(t: Table, j: nat, p: Value)
    requires ValidTable(t) && j < |t.schema.columns|
    ensures var hits := Hits(t, j, p);
            var rows := seq(|hits|, k requires 0 <= k < |hits| => t.rows[hits[k]]);
            && (forall r :: r in rows ==> r in t.rows && Matches(t.schema, r, j, p))
            && (forall i :: 0 <= i < |t.rows| && Matches(t.schema, t.rows[i], j, p) ==> t.rows[i] in rows)
  {
    var hits := Hits(t, j, p);
    var rows := seq(|hits|, k requires 0 <= k < |hits| => t.rows[hits[k]]);
    forall r | r in rows ensures r in t.rows && Matches(t.schema, r, j, p) {
      var k :| 0 <= k < |rows| && rows[k] == r;
      assert r == t.rows[hits[k]];
    }
    forall i | 0 <= i < |t.rows| && Matches(t.schema, t.rows[i], j, p) ensures t.rows[i] in rows {
      var k :| 0 <= k < |hits| && hits[k] == i;
      assert rows[k] == t.rows[i];
    }
  }

  /** A SELECT or UPDATE whose parameter cannot be bound is an error. */
  lemma UnboundParameterFails(db: Database, st: Statement)
    requires ValidDatabase(db) && (st.SelectWhere? || st.UpdateWhere?) && st.table in db
    requires st.param.VList? || st.param.VDict?
    ensures Execute(db, st).1 == SqlError
    ensures ValidDatabase(db) && Execute(db, st).0 == db
  {
  }

  /** An UPDATE whose columns exist and whose values and parameter bind
      rewrites the matching rows, when the rewritten table keeps its keys. */
  lemma UpdateInRewrites(t: Table, setColumns: seq<string>, setValues: seq<Value>, column: string, param: Value, j: nat, t2: Table)
    requires ValidTable(t) && |setColumns| == |setValues|
    requires forall k :: 0 <= k < |setColumns| ==> setColumns[k] in t.schema.columns
    requires forall k :: 0 <= k < |setValues| ==> Bind(setValues[k]).Some?
    requires ColumnIndex(t.schema.columns, column) == Some(j) && Bind(param).Some?
    requires t2 == t.(rows := seq(|t.rows|, i requires 0 <= i < |t.rows| =>
                if Matches(t.schema, t.rows[i], j, Bind(param).value)
                then Assigned(t.schema, t.rows[i], setColumns,
                              seq(|setValues|, k requires 0 <= k < |setValues| => Bind(setValues[k]).value))
                else t.rows[i]))
    requires ValidTable(t2)
    ensures UpdateIn(t, setColumns, setValues, column, param) == (t2, Fetched([]))
  {
  }

  /** A successful UPDATE assigns the matching rows and leaves the others
      alone; a NULL parameter matches nothing, so nothing changes. */
  lemma UpdateWhereEffect(db: Database, name: string, setColumns: seq<string>, setValues: seq<Value>, column: string, param: Value)
    requires ValidDatabase(db) && name in db
    ensures var st := UpdateWhere(name, setColumns, setValues, column, param);
            var t := db[name];
            var t2 := Execute(db, st).0[name];
            && ValidTable(t2) && |t2.rows| == |t.rows|
            && (Execute(db, st).1.SqlError? ==> t2 == t)
            && (Execute(db, st).1.Fetched? ==>
                  column in t.schema.columns && Bind(param).Some? &&
                  forall i :: 0 <= i < |t.rows| ==>
                    t2.rows[i] == if Matches(t.schema, t.rows[i], ColumnIndex(t.schema.columns, column).value, Bind(param).value)
                                  then Assigned(t.schema, t.rows[i], setColumns,
                                                seq(|setValues|, k requires 0 <= k < |setValues| => Bind(setValues[k]).value))
                                  else t.rows[i])
            && (param == VNone ==> t2 == t)
  {
    var st := UpdateWhere(name, setColumns, setValues, column, param);
    ApplyKeepsShape(db[name], st);
    var t := db[name];
    if param == VNone && Execute(db, st).1.Fetched? {
      var j := ColumnIndex(t.schema.columns, column).value;
      assert forall i :: 0 <= i < |t.rows| ==> !Matches(t.schema, t.rows[i], j, VNone);
      assert Execute(db, st).0[name].rows == t.rows;
    }
  }
}
