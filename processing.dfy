/**
 * The column-level transforms of src/models/processing.py: the two rename
 * maps, the `lat_lng` text, the start-time split, and the two entry points
 * `process_activity_data` and `process_weather_data`. The floating-point
 * steps (`convert_units`, `replace_nan_with_mean`), pandas' datetime
 * formatting and the undefined `map_months` / `map_weather_codes` are the
 * parameters of `Transforms`.
 */
module Processing {
  import opened Values
  import opened PyStr
  import opened Frames
  import WeatherClient

  /** A call's argument: a DataFrame, or any other object. */
  datatype Arg = DataFrameArg(frame: Frame) | OtherArg(value: Value)

  /** `rename_activity_columns`. */
  const ActivityRenames: seq<(string, string)> := [
    ("moving_time", "duration"), ("total_elevation_gain", "elevation_gain"), ("start_date_local", "date"),
    ("trainer", "indoor"), ("suffer_score", "intensity"), ("start_latlng", "lat_lng")]

  /** `rename_weather_columns`. */
  const WeatherRenames: seq<(string, string)> := [
    ("temperature", "temp"), ("weather_code", "weather_type"), ("wind_speed_10m", "wind"), ("snowfall", "snow")]

  function Sources(mapping: seq<(string, string)>): (r: seq<string>)
    ensures |r| == |mapping| && forall k :: 0 <= k < |mapping| ==> r[k] == mapping[k].0
  {
    seq(|mapping|, k requires 0 <= k < |mapping| => mapping[k].0)
  }

  /** With distinct sources, a rename moves exactly the listed labels, each to
      its own target, and keeps every cell in place. */
  lemma RenameByMap(f: Frame, mapping: seq<(string, string)>)
    requires Distinct(Sources(mapping))
    ensures Rename(f, mapping).rows == f.rows && |Rename(f, mapping).columns| == |f.columns|
    ensures forall i, k :: 0 <= i < |f.columns| && 0 <= k < |mapping| && f.columns[i] == mapping[k].0 ==>
              Rename(f, mapping).columns[i] == mapping[k].1
    ensures forall i :: 0 <= i < |f.columns| && f.columns[i] !in Sources(mapping) ==>
              Rename(f, mapping).columns[i] == f.columns[i]
  {
    forall i, k | 0 <= i < |f.columns| && 0 <= k < |mapping| && f.columns[i] == mapping[k].0
      ensures Rename(f, mapping).columns[i] == mapping[k].1
    {
      var k' :| 0 <= k' < |mapping| && mapping[k'] == (f.columns[i], Rename(f, mapping).columns[i]);
      assert Sources(mapping)[k'] == Sources(mapping)[k];
    }
    forall i | 0 <= i < |f.columns| && f.columns[i] !in Sources(mapping)
      ensures Rename(f, mapping).columns[i] == f.columns[i]
    {
      forall k | 0 <= k < |mapping| ensures mapping[k].0 != f.columns[i] {
        assert Sources(mapping)[k] == mapping[k].0;
      }
    }
  }

  lemma RenameSourcesDistinct()
    ensures Distinct(Sources(ActivityRenames)) && Distinct(Sources(WeatherRenames))
  {
  }

  /** No target of either map is itself a source, so each label moves at most once. */
  lemma RenameTargetsFresh()
    ensures forall k :: 0 <= k < |ActivityRenames| ==> ActivityRenames[k].1 !in Sources(ActivityRenames)
    ensures forall k :: 0 <= k < |WeatherRenames| ==> WeatherRenames[k].1 !in Sources(WeatherRenames)
  {
  }

  /** `rename_activity_columns` renames exactly its six labels. */
  lemma ActivityRenameExact(f: Frame)
    ensures Rename(f, ActivityRenames).rows == f.rows
    ensures forall i, k :: 0 <= i < |f.columns| && 0 <= k < 6 && f.columns[i] == ActivityRenames[k].0 ==>
              Rename(f, ActivityRenames).columns[i] == ActivityRenames[k].1
    ensures forall i :: 0 <= i < |f.columns| && f.columns[i] !in Sources(ActivityRenames) ==>
              Rename(f, ActivityRenames).columns[i] == f.columns[i]
  {
    RenameSourcesDistinct();
    RenameByMap(f, ActivityRenames);
  }

  /** `rename_weather_columns` renames exactly its four labels. */
  lemma WeatherRenameExact(f: Frame)
    ensures Rename(f, WeatherRenames).rows == f.rows
    ensures forall i, k :: 0 <= i < |f.columns| && 0 <= k < 4 && f.columns[i] == WeatherRenames[k].0 ==>
              Rename(f, WeatherRenames).columns[i] == WeatherRenames[k].1
    ensures forall i :: 0 <= i < |f.columns| && f.columns[i] !in Sources(WeatherRenames) ==>
              Rename(f, WeatherRenames).columns[i] == f.columns[i]
  {
    RenameSourcesDistinct();
    RenameByMap(f, WeatherRenames);
  }

  /** `df[name] = values`: an existing label (its first column) takes the new
      cells in place, a new label is appended at the right. */
  function SetColumn(f: Frame, name: string, values: seq<Value>): (r: Frame)
    requires WellFormed(f) && |values| == |f.rows|
    ensures WellFormed(r) && |r.rows| == |f.rows|
    ensures name in f.columns ==> r.columns == f.columns
    ensures name !in f.columns ==> r.columns == f.columns + [name]
  {
    match ColumnIndex(f.columns, name)
    case Some(j) => Frame(f.columns, seq(|f.rows|, i requires 0 <= i < |f.rows| => f.rows[i][j := values[i]]))
    case None => Frame(f.columns + [name], seq(|f.rows|, i requires 0 <= i < |f.rows| => f.rows[i] + [values[i]]))
  }

  lemma {:induction false} ColumnIndexAppend(columns: seq<string>, name: string, other: string)
    requires other != name || name !in columns
    ensures ColumnIndex(columns + [name], other) ==
              if other in columns then ColumnIndex(columns, other) else if other == name then Some(|columns|) else None
    decreases |columns|
  {
    if |columns| == 0 {
      assert [] + [name] == [name];
    } else {
      assert (columns + [name])[1..] == columns[1..] + [name];
      if columns[0] != other {
        ColumnIndexAppend(columns[1..], name, other);
      }
    }
  }

  /** After the assignment the label reads the new cells, and every other
      label reads what it read before. */
  lemma SetColumnCells(f: Frame, name: string, values: seq<Value>)
    requires WellFormed(f) && |values| == |f.rows|
    ensures forall i :: 0 <= i < |f.rows| ==> Cell(SetColumn(f, name, values), i, name) == Ok(values[i])
    ensures forall i, c :: 0 <= i < |f.rows| && c != name ==> Cell(SetColumn(f, name, values), i, c) == Cell(f, i, c)
  {
    var r := SetColumn(f, name, values);
    if name !in f.columns {
      forall c { ColumnIndexAppend(f.columns, name, c); }
    }
  }

  /** The parts `split_datetime_columns` derives from one row's date and
      duration, already rendered: "%Y-%m-%d", "%m", the weekday name and the
      two "%H:%M" clock times. */
  datatype DateParts = DateParts(date: Value, month: Value, dayOfWeek: Value, startTime: Value, endTime: Value)

  const DateColumns: seq<string> := ["start_time", "month", "day_of_week", "end_time"]

  function CellAt(row: seq<Value>, j: nat): Value
  {
    if j < |row| then row[j] else VNone
  }

  /** `split_datetime_columns`: a ValueError unless both "date" and "duration"
      are there; `toParts` stands for `pd.to_datetime` and the formatting,
      and raises for the whole column when one row does not convert. */
  function SplitDatetimeColumns(f: Frame, toParts: (Value, Value) -> Result<DateParts>): (r: Result<Frame>)
    requires WellFormed(f)
    ensures r.Ok? ==> WellFormed(r.value) && |r.value.rows| == |f.rows|
  {
    if !HasColumn(f, "date") || !HasColumn(f, "duration") then Err(ValueError)
    else
      var parts :- MapAll(RowParts(f, toParts), f.rows);
      Ok(WithDateParts(f, parts))
  }

  /** The conversion of one row's date and duration cells. */
  function RowParts(f: Frame, toParts: (Value, Value) -> Result<DateParts>): (seq<Value>) -> Result<DateParts>
    requires HasColumn(f, "date") && HasColumn(f, "duration")
  {
    var d := ColumnIndex(f.columns, "date").value;
    var m := ColumnIndex(f.columns, "duration").value;
    (row: seq<Value>) => toParts(CellAt(row, d), CellAt(row, m))
  }

  /** The five assignments, in the order the source makes them. */
  function WithDateParts(f: Frame, parts: seq<DateParts>): (r: Frame)
    requires WellFormed(f) && |parts| == |f.rows|
    ensures WellFormed(r) && |r.rows| == |f.rows|
  {
    var n := |f.rows|;
    var g1 := SetColumn(f, "start_time", seq(n, i requires 0 <= i < n => parts[i].startTime));
    var g2 := SetColumn(g1, "date", seq(n, i requires 0 <= i < n => parts[i].date));
    var g3 := SetColumn(g2, "month", seq(n, i requires 0 <= i < n => parts[i].month));
    var g4 := SetColumn(g3, "day_of_week", seq(n, i requires 0 <= i < n => parts[i].dayOfWeek));
    SetColumn(g4, "end_time", seq(n, i requires 0 <= i < n => parts[i].endTime))
  }

  /** Both required columns must be present. */
  lemma SplitNeedsDateAndDuration(f: Frame, toParts: (Value, Value) -> Result<DateParts>)
    requires WellFormed(f) && (!HasColumn(f, "date") || !HasColumn(f, "duration"))
    ensures SplitDatetimeColumns(f, toParts) == Err(ValueError)
  {
  }

  /** The existing columns keep their places, and the four derived columns
      are added at the right when they were not there. */
  lemma SplitDatetimeShape(f: Frame, toParts: (Value, Value) -> Result<DateParts>)
    requires WellFormed(f) && SplitDatetimeColumns(f, toParts).Ok?
    ensures f.columns <= SplitDatetimeColumns(f, toParts).value.columns
    ensures forall c :: c in SplitDatetimeColumns(f, toParts).value.columns <==> c in f.columns || c in DateColumns
  {
    var parts := MapAll(RowParts(f, toParts), f.rows).value;
    assert SplitDatetimeColumns(f, toParts) == Ok(WithDateParts(f, parts));
    WithDatePartsShape(f, parts);
  }

  lemma WithDatePartsShape(f: Frame, parts: seq<DateParts>)
    requires WellFormed(f) && |parts| == |f.rows| && HasColumn(f, "date")
    ensures f.columns <= WithDateParts(f, parts).columns
    ensures forall c :: c in WithDateParts(f, parts).columns <==> c in f.columns || c in DateColumns
  {
    var n := |f.rows|;
    var v1 := seq(n, i requires 0 <= i < n => parts[i].startTime);
    var v2 := seq(n, i requires 0 <= i < n => parts[i].date);
    var v3 := seq(n, i requires 0 <= i < n => parts[i].month);
    var v4 := seq(n, i requires 0 <= i < n => parts[i].dayOfWeek);
    var v5 := seq(n, i requires 0 <= i < n => parts[i].endTime);
    var g1 := SetColumn(f, "start_time", v1);
    var g2 := SetColumn(g1, "date", v2);
    var g3 := SetColumn(g2, "month", v3);
    var g4 := SetColumn(g3, "day_of_week", v4);
    SetColumnLabels(f, "start_time", v1);
    SetColumnLabels(g1, "date", v2);
    SetColumnLabels(g2, "month", v3);
    SetColumnLabels(g3, "day_of_week", v4);
    SetColumnLabels(g4, "end_time", v5);
  }

  /** Row i of the result holds the parts its own date and duration convert
      to, under the five derived labels; every other label reads as before. */
  lemma SplitDatetimeCells(f: Frame, toParts: (Value, Value) -> Result<DateParts>, i: nat)
    requires WellFormed(f) && HasColumn(f, "date") && HasColumn(f, "duration")
    requires SplitDatetimeColumns(f, toParts).Ok? && i < |f.rows|
    ensures var r := SplitDatetimeColumns(f, toParts).value;
            var p := toParts(CellAt(f.rows[i], ColumnIndex(f.columns, "date").value),
                             CellAt(f.rows[i], ColumnIndex(f.columns, "duration").value));
            && p.Ok?
            && Cell(r, i, "date") == Ok(p.value.date)
            && Cell(r, i, "month") == Ok(p.value.month)
            && Cell(r, i, "day_of_week") == Ok(p.value.dayOfWeek)
            && Cell(r, i, "start_time") == Ok(p.value.startTime)
            && Cell(r, i, "end_time") == Ok(p.value.endTime)
            && forall c :: c != "date" && c !in DateColumns ==> Cell(r, i, c) == Cell(f, i, c)
  {
    var parts := MapAll(RowParts(f, toParts), f.rows).value;
    assert RowParts(f, toParts)(f.rows[i]) == Ok(parts[i]);
    assert SplitDatetimeColumns(f, toParts) == Ok(WithDateParts(f, parts));
    WithDatePartsCells(f, parts, i);
  }

  lemma WithDatePartsCells(f: Frame, parts: seq<DateParts>, i: nat)
    requires WellFormed(f) && |parts| == |f.rows| && i < |f.rows|
    ensures var r := WithDateParts(f, parts);
            && Cell(r, i, "date") == Ok(parts[i].date)
            && Cell(r, i, "month") == Ok(parts[i].month)
            && Cell(r, i, "day_of_week") == Ok(parts[i].dayOfWeek)
            && Cell(r, i, "start_time") == Ok(parts[i].startTime)
            && Cell(r, i, "end_time") == Ok(parts[i].endTime)
            && forall c :: c != "date" && c !in DateColumns ==> Cell(r, i, c) == Cell(f, i, c)
  {
    var n := |f.rows|;
    var v1 := seq(n, k requires 0 <= k < n => parts[k].startTime);
    var v2 := seq(n, k requires 0 <= k < n => parts[k].date);
    var v3 := seq(n, k requires 0 <= k < n => parts[k].month);
    var v4 := seq(n, k requires 0 <= k < n => parts[k].dayOfWeek);
    var v5 := seq(n, k requires 0 <= k < n => parts[k].endTime);
    var g1 := SetColumn(f, "start_time", v1);
    var g2 := SetColumn(g1, "date", v2);
    var g3 := SetColumn(g2, "month", v3);
    var g4 := SetColumn(g3, "day_of_week", v4);
    var g5 := SetColumn(g4, "end_time", v5);
    forall c | c != "date" && c !in DateColumns
      ensures Cell(g5, i, c) == Cell(f, i, c)
    {
      SetColumnCellAt(f, "start_time", v1, i, c);
      SetColumnCellAt(g1, "date", v2, i, c);
      SetColumnCellAt(g2, "month", v3, i, c);
      SetColumnCellAt(g3, "day_of_week", v4, i, c);
      SetColumnCellAt(g4, "end_time", v5, i, c);
    }
    SetColumnCellAt(f, "start_time", v1, i, "start_time");
    SetColumnCellAt(g1, "date", v2, i, "start_time");
    SetColumnCellAt(g2, "month", v3, i, "start_time");
    SetColumnCellAt(g3, "day_of_week", v4, i, "start_time");
    SetColumnCellAt(g4, "end_time", v5, i, "start_time");
    SetColumnCellAt(g1, "date", v2, i, "date");
    SetColumnCellAt(g2, "month", v3, i, "date");
    SetColumnCellAt(g3, "day_of_week", v4, i, "date");
    SetColumnCellAt(g4, "end_time", v5, i, "date");
    SetColumnCellAt(g2, "month", v3, i, "month");
    SetColumnCellAt(g3, "day_of_week", v4, i, "month");
    SetColumnCellAt(g4, "end_time", v5, i, "month");
    SetColumnCellAt(g3, "day_of_week", v4, i, "day_of_week");
    SetColumnCellAt(g4, "end_time", v5, i, "day_of_week");
    SetColumnCellAt(g4, "end_time", v5, i, "end_time");
  }

  /** One cell of `SetColumn`: the new value under its label, the old one elsewhere. */
  lemma SetColumnCellAt(f: Frame, name: string, values: seq<Value>, i: nat, c: string)
    requires WellFormed(f) && |values| == |f.rows| && i < |f.rows|
    ensures Cell(SetColumn(f, name, values), i, c) == if c == name then Ok(values[i]) else Cell(f, i, c)
  {
    SetColumnCells(f, name, values);
  }

  lemma SetColumnLabels(f: Frame, name: string, values: seq<Value>)
    requires WellFormed(f) && |values| == |f.rows|
    ensures f.columns <= SetColumn(f, name, values).columns
    ensures forall c :: c in SetColumn(f, name, values).columns <==> c in f.columns || c == name
  {
  }

  /** The text `replace_lat_lng_values` stores: the items joined by ", " for a
      non-empty list, "0, 0" for anything else. */
  function LatLngText(x: Value): (r: Value)
    ensures r.VStr?
  {
    if x.VList? && |x.items| > 0 then VStr(Join(seq(|x.items|, k requires 0 <= k < |x.items| => Str(x.items[k])), ", "))
    else VStr("0, 0")
  }

  /** `replace_lat_lng_values`: `df["lat_lng"]` is a KeyError when it is missing. */
  function ReplaceLatLng(f: Frame): (r: Result<Frame>)
    requires WellFormed(f)
    ensures r.Err? <==> !HasColumn(f, "lat_lng")
    ensures r.Err? ==> r.error == KeyError
    ensures r.Ok? ==> WellFormed(r.value) && r.value.columns == f.columns && |r.value.rows| == |f.rows|
  {
    match ColumnIndex(f.columns, "lat_lng")
    case None => Err(KeyError)
    case Some(j) => Ok(SetColumn(f, "lat_lng", seq(|f.rows|, i requires 0 <= i < |f.rows| => LatLngText(f.rows[i][j]))))
  }

  /** Every row's coordinates become their text and every other column is untouched. */
  lemma ReplaceLatLngCells(f: Frame)
    requires WellFormed(f) && HasColumn(f, "lat_lng")
    ensures forall i :: 0 <= i < |f.rows| ==>
              Cell(ReplaceLatLng(f).value, i, "lat_lng") == Ok(LatLngText(Cell(f, i, "lat_lng").value))
    ensures forall i, c :: 0 <= i < |f.rows| && c != "lat_lng" ==> Cell(ReplaceLatLng(f).value, i, c) == Cell(f, i, c)
  {
    var j := ColumnIndex(f.columns, "lat_lng").value;
    var values := seq(|f.rows|, i requires 0 <= i < |f.rows| => LatLngText(f.rows[i][j]));
    SetColumnCells(f, "lat_lng", values);
  }

  /** A two-element list whose texts hold no ", " comes back out of the weather
      client's split as the same two texts, and the default asks for (0, 0). */
  lemma LatLngFeedsWeatherRequest(x: Value)
    ensures x.VList? && |x.items| == 2 && IndexOf(Str(x.items[0]), ", ").None? && IndexOf(Str(x.items[1]), ", ").None? ==>
              WeatherClient.LatLngParts(LatLngText(x)) == Ok(Some((Str(x.items[0]), Str(x.items[1]))))
    ensures !(x.VList? && |x.items| > 0) ==> WeatherClient.LatLngParts(LatLngText(x)) == Ok(Some(("0", "0")))
  {
    if x.VList? && |x.items| == 2 && IndexOf(Str(x.items[0]), ", ").None? && IndexOf(Str(x.items[1]), ", ").None? {
      var texts := seq(2, k requires 0 <= k < 2 => Str(x.items[k]));
      assert Join(texts, ", ") == Str(x.items[0]) + ", " + Str(x.items[1]);
      WeatherClient.LatLngRoundTrip(Str(x.items[0]), Str(x.items[1]));
    }
    WeatherClient.LatLngEdges("", (a: string, b: string, d: Value) => VNone, []);
  }

  /** Row i's sport is "Ride" or "Run". */
  predicate RideOrRun(f: Frame, i: nat)
  {
    WellFormed(f) && HasColumn(f, "sport_type") && i < |f.rows| && Cell(f, i, "sport_type").value in [VStr("Ride"), VStr("Run")]
  }

  /** `df[df["sport_type"].isin(["Ride", "Run"])]`. */
  function SportFilter(f: Frame): (r: Result<Frame>)
    requires WellFormed(f)
    ensures r.Err? <==> !HasColumn(f, "sport_type")
    ensures r.Err? ==> r.error == KeyError
    ensures r.Ok? ==> WellFormed(r.value) && r.value.columns == f.columns
  {
    if !HasColumn(f, "sport_type") then Err(KeyError)
    else
      var kept := FilterIndices((i: nat) => RideOrRun(f, i), |f.rows|);
      Ok(Frame(f.columns, seq(|kept|, k requires 0 <= k < |kept| => f.rows[kept[k]])))
  }

  /** The filter keeps exactly the Ride and Run rows, in their order. */
  lemma SportFilterRows(f: Frame)
    requires WellFormed(f) && HasColumn(f, "sport_type")
    ensures var kept := FilterIndices((i: nat) => RideOrRun(f, i), |f.rows|);
            && SportFilter(f).value.rows == seq(|kept|, k requires 0 <= k < |kept| => f.rows[kept[k]])
            && (forall k :: 0 <= k < |kept| ==> Cell(f, kept[k], "sport_type").value in [VStr("Ride"), VStr("Run")])
            && (forall i :: 0 <= i < |f.rows| && Cell(f, i, "sport_type").value in [VStr("Ride"), VStr("Run")] ==> i in kept)
            && (forall a, b :: 0 <= a < b < |kept| ==> kept[a] < kept[b])
  {
    var kept := FilterIndices((i: nat) => RideOrRun(f, i), |f.rows|);
    forall k | 0 <= k < |kept| ensures RideOrRun(f, kept[k]) {
    }
    forall i | 0 <= i < |f.rows| && Cell(f, i, "sport_type").value in [VStr("Ride"), VStr("Run")] ensures i in kept {
      assert RideOrRun(f, i);
    }
  }

  /** The steps the repository's files do not define, or that compute with
      floating point or pandas datetimes. */
  datatype Transforms = Transforms(
    convertUnits: Frame -> Frame,
    toParts: (Value, Value) -> Result<DateParts>,
    fillNaN: Frame -> Frame,
    mapMonths: Frame -> Result<Frame>)

  ghost predicate KeepsShape(t: Transforms)
  {
    && (forall f :: WellFormed(f) ==> WellFormed(t.convertUnits(f)))
    && (forall f :: WellFormed(f) ==> WellFormed(t.fillNaN(f)))
    && (forall f :: t.mapMonths(f).Ok? ==> WellFormed(t.mapMonths(f).value))
  }

  const ActivityOutputColumns: seq<string> := [
    "id", "date", "month", "day_of_week", "start_time", "end_time", "sport_type", "indoor", "distance",
    "duration", "elevation_gain", "gear_id", "average_heartrate", "average_speed", "average_cadence",
    "average_temp", "average_watts", "intensity", "lat_lng"]

  const WeatherOutputColumns: seq<string> := ["id", "date", "temp", "weather_type", "precipitation", "rain", "wind", "snow"]

  /** The pipe of `process_activity_data`, before the final column selection. */
  function ActivityPipeline(f: Frame, t: Transforms): (r: Result<Frame>)
    requires WellFormed(f) && KeepsShape(t)
    ensures r.Ok? ==> WellFormed(r.value)
  {
    var kept :- SportFilter(f);
    var renamed := Rename(kept, ActivityRenames);
    var converted := t.convertUnits(renamed);
    var split :- SplitDatetimeColumns(converted, t.toParts);
    var filled := t.fillNaN(split);
    var located :- ReplaceLatLng(filled);
    t.mapMonths(located)
  }

  /** `process_activity_data`. */
  function ProcessActivityData(arg: Arg, t: Transforms): (r: Result<Frame>)
    requires arg.DataFrameArg? ==> WellFormed(arg.frame)
    requires KeepsShape(t)
  {
    if !arg.DataFrameArg? then Err(TypeError)
    else
      var processed :- ActivityPipeline(arg.frame, t);
      Select(processed, ActivityOutputColumns)
  }

  /** Anything but a DataFrame is a TypeError, and a frame without a sport
      column is a KeyError before any other step. */
  lemma ActivityInputErrors(arg: Arg, t: Transforms)
    requires arg.DataFrameArg? ==> WellFormed(arg.frame)
    requires KeepsShape(t)
    ensures !arg.DataFrameArg? ==> ProcessActivityData(arg, t) == Err(TypeError)
    ensures arg.DataFrameArg? && !HasColumn(arg.frame, "sport_type") ==> ProcessActivityData(arg, t) == Err(KeyError)
  {
  }

  /** The result has one row per processed row, every one of the 19 columns
      was there, and with distinct labels the result has exactly those
      columns in that order. */
  lemma ActivityOutputShape(f: Frame, t: Transforms)
    requires WellFormed(f) && KeepsShape(t)
    requires ProcessActivityData(DataFrameArg(f), t).Ok?
    ensures var p := ActivityPipeline(f, t).value;
            && (forall k :: 0 <= k < |ActivityOutputColumns| ==> ActivityOutputColumns[k] in p.columns)
            && |ProcessActivityData(DataFrameArg(f), t).value.rows| == |p.rows|
            && (Distinct(p.columns) ==> ProcessActivityData(DataFrameArg(f), t).value.columns == ActivityOutputColumns)
  {
    var p := ActivityPipeline(f, t).value;
    if Distinct(p.columns) {
      SelectDistinctColumns(p.columns, ActivityOutputColumns);
    }
  }

  /** `process_weather_data`: the code mapping runs only when a "weather_code"
      column exists. */
  function ProcessWeatherData(arg: Arg, mapWeatherCodes: Frame -> Result<Frame>): (r: Result<Frame>)
    requires arg.DataFrameArg? ==> WellFormed(arg.frame)
    requires forall f :: mapWeatherCodes(f).Ok? ==> WellFormed(mapWeatherCodes(f).value)
  {
    if !arg.DataFrameArg? then Err(TypeError)
    else
      var mapped :- if HasColumn(arg.frame, "weather_code") then mapWeatherCodes(arg.frame) else Ok(arg.frame);
      Select(Rename(mapped, WeatherRenames), WeatherOutputColumns)
  }

  /** Without a "weather_code" column the mapping is never consulted. */
  lemma WeatherMappingSkipped(f: Frame, m1: Frame -> Result<Frame>, m2: Frame -> Result<Frame>)
    requires WellFormed(f) && !HasColumn(f, "weather_code")
    requires forall g :: m1(g).Ok? ==> WellFormed(m1(g).value)
    requires forall g :: m2(g).Ok? ==> WellFormed(m2(g).value)
    ensures ProcessWeatherData(DataFrameArg(f), m1) == ProcessWeatherData(DataFrameArg(f), m2)
    ensures ProcessWeatherData(DataFrameArg(f), m1) == Select(Rename(f, WeatherRenames), WeatherOutputColumns)
  {
  }

  /** Anything but a DataFrame is a TypeError; on success every one of the 8
      columns is there, exactly and in order when the labels are distinct. */
  lemma WeatherOutputShape(arg: Arg, m: Frame -> Result<Frame>)
    requires arg.DataFrameArg? ==> WellFormed(arg.frame)
    requires forall g :: m(g).Ok? ==> WellFormed(m(g).value)
    ensures !arg.DataFrameArg? ==> ProcessWeatherData(arg, m) == Err(TypeError)
    ensures ProcessWeatherData(arg, m).Ok? ==>
              var mapped := if HasColumn(arg.frame, "weather_code") then m(arg.frame).value else arg.frame;
              var renamed := Rename(mapped, WeatherRenames);
              && (forall k :: 0 <= k < 8 ==> WeatherOutputColumns[k] in renamed.columns)
              && |ProcessWeatherData(arg, m).value.rows| == |mapped.rows|
              && (Distinct(renamed.columns) ==> ProcessWeatherData(arg, m).value.columns == WeatherOutputColumns)
  {
    if ProcessWeatherData(arg, m).Ok? {
      var mapped := if HasColumn(arg.frame, "weather_code") then m(arg.frame).value else arg.frame;
      var renamed := Rename(mapped, WeatherRenames);
      if Distinct(renamed.columns) {
        SelectDistinctColumns(renamed.columns, WeatherOutputColumns);
      }
    }
  }
}
