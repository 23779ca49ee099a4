/**
 * The pure parts of `WeatherClient`: rounding an activity's start time to the
 * hour, picking that hour's values out of an Open-Meteo hourly response, and
 * the `lat_lng` split that decides whether a weather request is made at all.
 * The request is the parameter `get`.
 */
module WeatherClient {
  import opened Values
  import opened PyStr
  import opened Strptime
  import opened Frames

  /** `round_time_to_nearest_hour`: "%H:%M" or a ValueError; a minute of 30 or
      more moves to the next hour (23 wraps to 00 on the next day), and
      "%H:00" prints only the hour. */
  function RoundTime(timeStr: string): (r: Result<string>)
    ensures r.Err? <==> Parse(timeStr, ClockFormat).None?
    ensures r.Err? ==> r.error == ValueError
  {
    match Parse(timeStr, ClockFormat)
    case None => Err(ValueError)
    case Some(t) => Ok(Pad2(if t.minute >= 30 then (t.hour + 1) % 24 else t.hour) + ":00")
  }

  /** `r` is the whole hour `h`, the one nearest `hour`:`minute` with ties
      rounding up: at most 29 minutes back or 30 minutes forward on a 24-hour
      clock. It reads back as that hour with minute 0. */
  predicate NearestWholeHour(hour: int, minute: int, r: string, h: nat)
  {
    && h <= 23 && r == Pad2(h) + ":00"
    && Parse(r, ClockFormat) == Some(Defaults.(hour := h, minute := 0))
    && (minute < 30 ==> h == hour && 0 <= hour * 60 + minute - h * 60 < 30)
    && (minute >= 30 ==> h == (hour + 1) % 24 && (h * 60 - (hour * 60 + minute)) % 1440 <= 30)
  }

  /** The rounded time is the whole hour nearest the time that was read. */
  lemma RoundsToNearestHour(timeStr: string)
    requires RoundTime(timeStr).Ok?
    ensures var t := Parse(timeStr, ClockFormat).value;
            exists h: nat :: NearestWholeHour(t.hour, t.minute, RoundTime(timeStr).value, h)
  {
    var t := Parse(timeStr, ClockFormat).value;
    var h: nat := if t.minute >= 30 then (t.hour + 1) % 24 else t.hour;
    var r := RoundTime(timeStr).value;
    assert r == Pad2(h) + ":00";
    RoundedReadsBack(t.hour, t.minute, h);
    assert NearestWholeHour(t.hour, t.minute, r, h);
  }

  /** The same, for the hour and minute that were read and the hour they
      round to. */
  lemma RoundedReadsBack(hour: int, minute: int, h: nat)
    requires 0 <= hour <= 23 && 0 <= minute <= 59
    requires h == if minute >= 30 then (hour + 1) % 24 else hour
    ensures h <= 23 && Parse(Pad2(h) + ":00", ClockFormat) == Some(Defaults.(hour := h, minute := 0))
    ensures minute < 30 ==> h == hour && 0 <= hour * 60 + minute - h * 60 < 30
    ensures minute >= 30 ==> h == (hour + 1) % 24 && (h * 60 - (hour * 60 + minute)) % 1440 <= 30
  {
    ClockParses(h, 0);
    WholeHourText(h);
    NearestHour(hour, minute);
  }

  /** "%H:00" is the hour followed by minute 0 in "%H:%M". */
  lemma WholeHourText(h: nat)
    requires h <= 23
    ensures Pad2(h) + ":" + Pad2(0) == Pad2(h) + ":00"
  {
    assert Pad2(0) == "00";
    assert [':'] + "00" == ":00";
  }

  /** Clock arithmetic of the rounding, in minutes since midnight. */
  lemma NearestHour(hour: int, minute: int)
    requires 0 <= hour <= 23 && 0 <= minute <= 59
    ensures var h := if minute >= 30 then (hour + 1) % 24 else hour;
            && (minute < 30 ==> 0 <= hour * 60 + minute - h * 60 < 30)
            && (minute >= 30 ==> (h * 60 - (hour * 60 + minute)) % 1440 <= 30)
  {
    if minute >= 30 && hour == 23 {
      assert (0 * 60 - (23 * 60 + minute)) % 1440 == 60 - minute;
    }
  }

  /** 23:30 to 23:59 round to midnight. */
  lemma LateEveningWraps(timeStr: string)
    requires Parse(timeStr, ClockFormat).Some?
    requires Parse(timeStr, ClockFormat).value.hour == 23 && Parse(timeStr, ClockFormat).value.minute >= 30
    ensures RoundTime(timeStr) == Ok("00:00")
  {
    assert Pad2(0) + ":00" == "00:00";
  }

  /** A whole hour rounds to itself, so rounding twice is rounding once. */
  lemma RoundTimeIdempotent(timeStr: string)
    requires RoundTime(timeStr).Ok?
    ensures RoundTime(RoundTime(timeStr).value) == RoundTime(timeStr)
  {
    RoundsToNearestHour(timeStr);
  }

  /** `datetime.strptime(time, "%Y-%m-%dT%H:%M")` on one hourly time; a
      non-string is a TypeError. */
  function HourlyStamp(v: Value): (r: Result<Stamp>)
    ensures r.Err? <==> !v.VStr? || Parse(v.s, DateHourMinuteFormat).None?
  {
    if !v.VStr? then Err(TypeError)
    else match Parse(v.s, DateHourMinuteFormat)
      case None => Err(ValueError)
      case Some(t) => Ok(t)
  }

  /** `xs.index(x)`: the first position holding x. */
  function FirstIndex<T(==)>(xs: seq<T>, x: T): (r: Option<nat>)
    ensures r.None? <==> x !in xs
    ensures r.Some? ==> r.value < |xs| && xs[r.value] == x && forall j :: 0 <= j < r.value ==> xs[j] != x
  {
    if |xs| == 0 then None
    else if xs[0] == x then Some(0)
    else match FirstIndex(xs[1..], x)
      case None => None
      case Some(i) => Some(i + 1)
  }

  /** `v[i]` with an integer subscript. */
  function ItemAt(v: Value, i: nat): (r: Result<Value>)
    ensures v.VList? && i < |v.items| ==> r == Ok(v.items[i])
    ensures v.VList? && i >= |v.items| ==> r == Err(IndexError)
  {
    match v
    case VList(xs) => if i < |xs| then Ok(xs[i]) else Err(IndexError)
    case VStr(s) => if i < |s| then Ok(VStr([s[i]])) else Err(IndexError)
    case VDict(_) => Err(KeyError)
    case _ => Err(TypeError)
  }

  /** `weather_data["hourly"][key][index]`. */
  function HourlyValue(hourly: Value, key: string, index: nat): Result<Value>
  {
    var column :- GetItem(hourly, key);
    ItemAt(column, index)
  }

  /** The keys of the row `extract_row_weather` returns, in order. */
  const RowWeatherKeys: seq<string> := ["temperature", "precipitation", "weather_code", "wind_speed_10m", "rain", "snowfall"]
  /** The hourly series each of them is read from. */
  const HourlySeries: seq<string> := ["temperature_2m", "precipitation", "weather_code", "wind_speed_10m", "rain", "snowfall"]

  /** The six values at one index, read in the order the dict display lists them. */
  function WeatherAt(hourly: Value, index: nat): (r: Result<Record>)
    ensures r.Ok? ==> Keys(r.value) == RowWeatherKeys
    ensures r.Ok? ==> forall k :: 0 <= k < 6 ==> HourlyValue(hourly, HourlySeries[k], index) == Ok(r.value[k].1)
    ensures r.Err? <==> exists k :: 0 <= k < 6 && HourlyValue(hourly, HourlySeries[k], index).Err?
  {
    var values :- MapAll(SeriesAt(hourly, index), HourlySeries);
    Ok(WeatherRecord(values))
  }

  /** The six values under the row's weather column names. */
  function WeatherRecord(values: seq<Value>): (rec: Record)
    requires |values| == 6
    ensures Keys(rec) == RowWeatherKeys
    ensures |rec| == 6 && forall k :: 0 <= k < 6 ==> rec[k].1 == values[k]
  {
    var rec := seq(6, k requires 0 <= k < 6 => (RowWeatherKeys[k], values[k]));
    assert Keys(rec) == RowWeatherKeys;
    rec
  }

  /** `hourly[key][index]` as a function of the key. */
  function SeriesAt(hourly: Value, index: nat): (f: string -> Result<Value>)
    ensures forall key :: f(key) == HourlyValue(hourly, key, index)
  {
    (key: string) => HourlyValue(hourly, key, index)
  }

  /** `row[name]` on the row Series: a missing label is a KeyError. */
  function RowItem(row: Record, name: string): (r: Result<Value>)
    ensures r.Ok? <==> Lookup(row, name).Some?
    ensures r.Err? ==> r.error == KeyError
  {
    match Lookup(row, name)
    case Some(v) => Ok(v)
    case None => Err(KeyError)
  }

  /** The weather of a row once its payload is known to hold "hourly": None when
      the rounded start does not parse or is not among the hourly times. */
  function HourWeather(row: Record, weatherData: Value): Result<Option<Record>>
  {
    var date :- RowItem(row, "date");
    var start :- RowItem(row, "rounded_start_time");
    match Parse(Str(date) + "T" + Str(start) + ":00", DateTimeFormat)
    case None => Ok(None)
    case Some(rounded) =>
      var hourly :- GetItem(weatherData, "hourly");
      var times :- GetItem(hourly, "time");
      var items :- Iterate(times);
      var stamps :- MapAll(HourlyStamp, items);
      match FirstIndex(stamps, rounded)
      case None => Ok(None)
      case Some(index) =>
        var values :- WeatherAt(hourly, index);
        Ok(Some(values))
  }

  /** `extract_row_weather`: None when the row has no weather payload or the
      payload has no "hourly" entry. */
  function ExtractRowWeather(row: Record): Result<Option<Record>>
  {
    var weatherData := match Lookup(row, "weather_data") case Some(v) => v case None => VNone;
    if !Truthy(weatherData) then Ok(None)
    else
      var hasHourly :- Contains(weatherData, "hourly");
      if !hasHourly then Ok(None) else HourWeather(row, weatherData)
  }

  /** No payload, an empty one, or one without "hourly" gives None. */
  lemma NoPayloadNoWeather(row: Record)
    ensures Lookup(row, "weather_data").None? ==> ExtractRowWeather(row) == Ok(None)
    ensures Lookup(row, "weather_data") == Some(VNone) ==> ExtractRowWeather(row) == Ok(None)
    ensures forall fs :: Lookup(row, "weather_data") == Some(VDict(fs)) && Lookup(fs, "hourly").None? ==>
              ExtractRowWeather(row) == Ok(None)
  {
  }

  /** The hypotheses under which the lookups before the time match succeed:
      a dict payload with hourly times, and a row with a date and a rounded start. */
  predicate HourlyRow(row: Record, fs: seq<(string, Value)>)
  {
    && Lookup(row, "weather_data") == Some(VDict(fs))
    && Lookup(fs, "hourly").Some? && Lookup(fs, "hourly").value.VDict?
    && Lookup(Lookup(fs, "hourly").value.fields, "time").Some?
    && Lookup(Lookup(fs, "hourly").value.fields, "time").value.VList?
    && Lookup(row, "date").Some? && Lookup(row, "rounded_start_time").Some?
  }

  function RoundedText(row: Record): string
    requires Lookup(row, "date").Some? && Lookup(row, "rounded_start_time").Some?
  {
    Str(Lookup(row, "date").value) + "T" + Str(Lookup(row, "rounded_start_time").value) + ":00"
  }

  function HourlyTimes(fs: seq<(string, Value)>): seq<Value>
    requires Lookup(fs, "hourly").Some? && Lookup(fs, "hourly").value.VDict?
    requires Lookup(Lookup(fs, "hourly").value.fields, "time").Some?
    requires Lookup(Lookup(fs, "hourly").value.fields, "time").value.VList?
  {
    Lookup(Lookup(fs, "hourly").value.fields, "time").value.items
  }

  /** A rounded start that does not parse gives None. */
  lemma UnparsedStartNoWeather(row: Record, fs: seq<(string, Value)>)
    requires HourlyRow(row, fs) && Parse(RoundedText(row), DateTimeFormat).None?
    ensures ExtractRowWeather(row) == Ok(None)
  {
  }

  /** With every hourly time well formed, the result is None exactly when the
      rounded start is not among them, and otherwise the six values at the
      first matching hour. */
  lemma MatchingHourWeather(row: Record, fs: seq<(string, Value)>)
    requires HourlyRow(row, fs) && Parse(RoundedText(row), DateTimeFormat).Some?
    requires MapAll(HourlyStamp, HourlyTimes(fs)).Ok?
    ensures var rounded := Parse(RoundedText(row), DateTimeFormat).value;
            var stamps := MapAll(HourlyStamp, HourlyTimes(fs)).value;
            var hourly := Lookup(fs, "hourly").value;
            && (rounded !in stamps ==> ExtractRowWeather(row) == Ok(None))
            && (rounded in stamps ==>
                  var index := FirstIndex(stamps, rounded).value;
                  && stamps[index] == rounded
                  && (forall j :: 0 <= j < index ==> stamps[j] != rounded)
                  && ExtractRowWeather(row) ==
                       match WeatherAt(hourly, index) case Err(e) => Err(e) case Ok(values) => Ok(Some(values)))
  {
    assert Contains(VDict(fs), "hourly") == Ok(true);
  }

  /** `lat, lng = row["lat_lng"].split(", ")`: None unless there are exactly two
      parts; a value that is not a str has no `split`. */
  function LatLngParts(latLng: Value): (r: Result<Option<(string, string)>>)
    ensures r.Err? <==> !latLng.VStr?
    ensures latLng.VStr? ==> (r == Ok(None) <==> |Split(latLng.s, ", ")| != 2)
    ensures r.Ok? && r.value.Some? ==> Split(latLng.s, ", ") == [r.value.value.0, r.value.value.1]
  {
    if !latLng.VStr? then Err(AttributeError)
    else
      var parts := Split(latLng.s, ", ");
      if |parts| != 2 then Ok(None) else Ok(Some((parts[0], parts[1])))
  }

  /** `fetch_weather_data`: no request unless `lat_lng` has two parts; the
      request's answer (None on a non-200 status) is `get(lat, lng, date)`. */
  function FetchWeatherData(row: Record, get: (string, string, Value) -> Value): Result<Value>
  {
    var latLng :- RowItem(row, "lat_lng");
    var parts :- LatLngParts(latLng);
    match parts
    case None => Ok(VNone)
    case Some((lat, lng)) =>
      var date :- RowItem(row, "date");
      Ok(get(lat, lng, date))
  }

  /** The text `replace_lat_lng_values` writes for two coordinates splits back
      into them, so the request carries the same latitude and longitude. */
  lemma LatLngRoundTrip(lat: string, lng: string)
    requires IndexOf(lat, ", ").None? && IndexOf(lng, ", ").None?
    ensures LatLngParts(VStr(lat + ", " + lng)) == Ok(Some((lat, lng)))
  {
    SplitCommaPair(lat, lng);
  }

  /** A text without ", " makes no request; the default "0, 0" asks for (0, 0). */
  lemma LatLngEdges(s: string, get: (string, string, Value) -> Value, row: Record)
    ensures IndexOf(s, ", ").None? ==> LatLngParts(VStr(s)) == Ok(None)
    ensures LatLngParts(VStr("0, 0")) == Ok(Some(("0", "0")))
    ensures Lookup(row, "lat_lng") == Some(VStr(s)) && IndexOf(s, ", ").None? ==> FetchWeatherData(row, get) == Ok(VNone)
  {
    assert IndexOf("0", ", ").None?;
    LatLngRoundTrip("0", "0");
    assert "0" + ", " + "0" == "0, 0";
  }
}
