/**
 * `StreamClient`, the activity-stream and zone requests of the Strava client.
 * Two copies of the class exist: src/clients/streams_client.py and the shorter
 * src/clients/streams.py, whose request validation, typed getters and
 * `extract_stream_data` are the same code. The HTTP call `make_request` is the
 * parameter `respond`: the response it gives for a request path.
 */
module StreamClient {
  import opened Values
  import opened PyStr
  import opened Frames
  import opened StreamsRow

  /** The stream types `_get_streams` accepts. */
  const ValidStreamTypes: seq<string> := [
    "time", "distance", "latlng", "altitude", "velocity_smooth", "heartrate",
    "cadence", "watts", "temp", "moving", "grade_smooth"]

  /** The path of the streams request for the given types. */
  function StreamsPath(activityId: Value, types: seq<string>): string
  {
    "activities/" + Str(activityId) + "/streams?keys=" + Join(types, ",") + "&key_by_type=true"
  }

  /** `_get_streams`: a ValueError before any request when some type is not
      accepted, otherwise the response to the one request for all the types. */
  function GetStreams(activityId: Value, types: seq<string>, respond: string -> Value): (r: Result<Value>)
    ensures r.Err? <==> exists i :: 0 <= i < |types| && types[i] !in ValidStreamTypes
    ensures r.Err? ==> r.error == ValueError
    ensures r.Ok? ==> r.value == respond(StreamsPath(activityId, types))
  {
    if exists i :: 0 <= i < |types| && types[i] !in ValidStreamTypes then Err(ValueError)
    else Ok(respond(StreamsPath(activityId, types)))
  }

  /** A rejected request does not depend on the transport at all. */
  lemma RejectedBeforeRequest(activityId: Value, types: seq<string>, a: string -> Value, b: string -> Value)
    requires GetStreams(activityId, types, a).Err?
    ensures GetStreams(activityId, types, b) == GetStreams(activityId, types, a)
  {
  }

  /** The `keys` parameter of an accepted request names exactly the requested
      types, in the order requested. */
  lemma RequestCarriesTypes(activityId: Value, types: seq<string>, respond: string -> Value)
    requires |types| > 0 && GetStreams(activityId, types, respond).Ok?
    ensures Split(Join(types, ","), ",") == types
  {
    forall k | 0 <= k < |types| ensures ","[0] !in types[k] {
      ValidTypeCommaFree(types[k]);
    }
    SplitJoin(types, ",");
  }

  lemma ValidTypeCommaFree(t: string)
    requires t in ValidStreamTypes
    ensures ',' !in t
  {
  }

  /** The typed getters of the class. */
  datatype Getter = TimeStream | DistanceStream | LatLngStream | AltitudeStream
                  | CadenceStream | PaceStream | SpeedStream | HeartrateStream

  /** The one type each getter requests. */
  function GetterType(g: Getter): string
  {
    match g
    case TimeStream => "time"
    case DistanceStream => "distance"
    case LatLngStream => "latlng"
    case AltitudeStream => "altitude"
    case CadenceStream => "cadence"
    case PaceStream => "pace"
    case SpeedStream => "velocity_smooth"
    case HeartrateStream => "heartrate"
  }

  function TypedStream(g: Getter, activityId: Value, respond: string -> Value): Result<Value>
  {
    GetStreams(activityId, [GetterType(g)], respond)
  }

  /** `get_pace_stream` always raises, since "pace" is not an accepted type;
      every other getter makes its request. */
  lemma GettersOutcome(g: Getter, activityId: Value, respond: string -> Value)
    ensures g == PaceStream ==> TypedStream(g, activityId, respond) == Err(ValueError)
    ensures g != PaceStream ==> TypedStream(g, activityId, respond) == Ok(respond(StreamsPath(activityId, [GetterType(g)])))
  {
  }

  /** The getters of src/clients/streams.py, which has no pace getter. */
  const LegacyGetters: seq<Getter> :=
    [TimeStream, DistanceStream, LatLngStream, AltitudeStream, CadenceStream, SpeedStream, HeartrateStream]

  /** None of the getters of src/clients/streams.py raises. */
  lemma LegacyGettersNeverRaise(activityId: Value, respond: string -> Value)
    ensures forall k :: 0 <= k < |LegacyGetters| ==>
              TypedStream(LegacyGetters[k], activityId, respond) == Ok(respond(StreamsPath(activityId, [GetterType(LegacyGetters[k])])))
  {
    forall k | 0 <= k < |LegacyGetters|
      ensures TypedStream(LegacyGetters[k], activityId, respond).Ok?
    {
      GettersOutcome(LegacyGetters[k], activityId, respond);
    }
  }

  /** `extract_stream_data`: a ValueError unless the streams are a dict; the
      entry's "data" (default []) when the entry is a non-empty dict, [] otherwise. */
  function ExtractStreamData(streams: Value, streamType: string): (r: Result<Value>)
    ensures r.Err? <==> !streams.VDict?
    ensures r.Err? ==> r.error == ValueError
  {
    if !streams.VDict? then Err(ValueError)
    else
      var stream := DictGet(streams, streamType, VNone).value;
      if Truthy(stream) && stream.VDict? then Ok(DictGet(stream, "data", VList([])).value)
      else Ok(VList([]))
  }

  /** The cases of `extract_stream_data` in terms of the dict's entries. */
  lemma ExtractStreamDataCases(streams: seq<(string, Value)>, streamType: string)
    ensures Lookup(streams, streamType).None? ==> ExtractStreamData(VDict(streams), streamType) == Ok(VList([]))
    ensures Lookup(streams, streamType).Some? && !Lookup(streams, streamType).value.VDict? ==>
              ExtractStreamData(VDict(streams), streamType) == Ok(VList([]))
    ensures Lookup(streams, streamType) == Some(VDict([])) ==> ExtractStreamData(VDict(streams), streamType) == Ok(VList([]))
    ensures forall entry :: Lookup(streams, streamType) == Some(VDict(entry)) && entry != [] ==>
              ExtractStreamData(VDict(streams), streamType) ==
                Ok(if Lookup(entry, "data").Some? then Lookup(entry, "data").value else VList([]))
  {
  }

  /** The columns of a row of `parse_activity_zones`. */
  const ZoneRowColumns: seq<string> := ["zone_type", "min", "max", "time_in_zone"]

  lemma ZoneRowColumnsDistinct()
    ensures Distinct(ZoneRowColumns)
  {
  }

  /** The record one bucket gives; `bucket.get` on a non-dict raises. */
  function BucketRow(zoneType: Value, bucket: Value): (r: Result<Record>)
    ensures r.Err? <==> !bucket.VDict?
    ensures r.Err? ==> r.error == AttributeError
    ensures r.Ok? ==> Keys(r.value) == ZoneRowColumns
    ensures r.Ok? ==> Lookup(r.value, "zone_type") == Some(zoneType)
  {
    if !bucket.VDict? then Err(AttributeError)
    else
      var rec := [("zone_type", zoneType), ("min", DictGet(bucket, "min", VNone).value),
                  ("max", DictGet(bucket, "max", VNone).value), ("time_in_zone", DictGet(bucket, "time", VNone).value)];
      assert Keys(rec) == [rec[0].0] + Keys(rec[1..]);
      Ok(rec)
  }

  /** The records of one zone: its type is `zone.get("type")`, so possibly None,
      and its buckets are whatever iterating `distribution_buckets` (default [])
      visits. */
  function ZoneRows(zone: Value): Result<seq<Record>>
  {
    var zoneType :- DictGet(zone, "type", VNone);
    // The zone is a dict now, so this `get` cannot raise.
    var buckets :- Iterate(DictGet(zone, "distribution_buckets", VList([])).value);
    MapAll(BucketRowOf(zoneType), buckets)
  }

  /** `BucketRow` for a fixed zone type, as a function of the bucket. */
  function BucketRowOf(zoneType: Value): (f: Value -> Result<Record>)
    ensures forall b :: f(b) == BucketRow(zoneType, b)
  {
    (b: Value) => BucketRow(zoneType, b)
  }

  /** The records of the first n zones, in order; the first failure stops it. */
  function ZonesRows(zones: seq<Value>, n: nat): (r: Result<seq<Record>>)
    requires n <= |zones|
    ensures r.Ok? ==> AllZoneRows(r.value)
  {
    if n == 0 then Ok([])
    else match ZonesRows(zones, n - 1)
      case Err(e) => Err(e)
      case Ok(done) =>
        match ZoneRows(zones[n - 1])
        case Err(e) => Err(e)
        case Ok(recs) =>
          ZoneRowsShape(zones[n - 1]);
          ConcatZoneRows(done, recs);
          Ok(done + recs)
  }

  /** What `parse_activity_zones` returns: a ValueError unless the zones are a list. */
  function ZonesFrameSpec(zones: Value): Result<Frame>
  {
    if !zones.VList? then Err(ValueError)
    else match ZonesRows(zones.items, |zones.items|)
      case Err(e) => Err(e)
      case Ok(records) => Ok(FromRecords(records))
  }

  /** Once a zone fails, every longer run fails with that error. */
  lemma ZonesFailureSticks(zones: seq<Value>, n: nat, m: nat)
    requires n <= m <= |zones| && ZonesRows(zones, n).Err?
    ensures ZonesRows(zones, m) == ZonesRows(zones, n)
  {
    var k := n;
    while k < m
      invariant n <= k <= m
      invariant ZonesRows(zones, k) == ZonesRows(zones, n)
    {
      k := k + 1;
    }
  }

  /** The inner loop: one record per bucket appended, in bucket order. */
  method AppendBucketRows(zoneType: Value, buckets: seq<Value>, parsed: seq<Record>) returns (r: Result<seq<Record>>)
    ensures r == match MapAll(BucketRowOf(zoneType), buckets)
                 case Err(e) => Err(e)
                 case Ok(recs) => Ok(parsed + recs)
  {
    var f := BucketRowOf(zoneType);
    var done: seq<Record> := [];
    var j := 0;
    while j < |buckets|
      invariant 0 <= j <= |buckets|
      invariant MapAll(f, buckets[..j]) == Ok(done)
    {
      var rec := BucketRow(zoneType, buckets[j]);
      if rec.Err? {
        MapAllStepFails(f, buckets, j, done);
        return Err(rec.error);
      }
      MapAllStep(f, buckets, j, done);
      done := done + [rec.value];
      j := j + 1;
    }
    assert buckets[..j] == buckets;
    r := Ok(parsed + done);
  }

  /** One turn of the outer loop. */
  method AppendZoneRows(zone: Value, parsed: seq<Record>) returns (r: Result<seq<Record>>)
    ensures r == match ZoneRows(zone) case Err(e) => Err(e) case Ok(recs) => Ok(parsed + recs)
  {
    var zoneType := DictGet(zone, "type", VNone);
    if zoneType.Err? {
      return Err(zoneType.error);
    }
    var buckets := Iterate(DictGet(zone, "distribution_buckets", VList([])).value);
    if buckets.Err? {
      return Err(buckets.error);
    }
    r := AppendBucketRows(zoneType.value, buckets.value, parsed);
  }

  /** `parse_activity_zones`. */
  method ParseActivityZones(zones: Value) returns (r: Result<Frame>)
    ensures r == ZonesFrameSpec(zones)
  {
    if !zones.VList? {
      return Err(ValueError);
    }
    var items := zones.items;
    var parsed: seq<Record> := [];
    var i := 0;
    while i < |items|
      invariant 0 <= i <= |items|
      invariant ZonesRows(items, i) == Ok(parsed)
    {
      var added := AppendZoneRows(items[i], parsed);
      if added.Err? {
        ZonesFailureSticks(items, i + 1, |items|);
        return Err(added.error);
      }
      parsed := added.value;
      i := i + 1;
    }
    r := Ok(FromRecords(parsed));
  }

  /** `get_activity_zones` then `parse_activity_zones`. */
  method GetParsedActivityZones(activityId: Value, respond: string -> Value) returns (r: Result<Frame>)
    ensures r == ZonesFrameSpec(respond("activities/" + Str(activityId) + "/zones"))
  {
    var zones := respond("activities/" + Str(activityId) + "/zones");
    r := ParseActivityZones(zones);
  }

  /** Every record is a four-column bucket row. */
  predicate AllZoneRows(recs: seq<Record>) {
    forall k :: 0 <= k < |recs| ==> Keys(recs[k]) == ZoneRowColumns
  }

  /** Every record of one zone is a four-column bucket row. */
  lemma ZoneRowsShape(zone: Value)
    requires ZoneRows(zone).Ok?
    ensures AllZoneRows(ZoneRows(zone).value)
  {
    var zoneType := DictGet(zone, "type", VNone).value;
    var buckets := Iterate(DictGet(zone, "distribution_buckets", VList([])).value).value;
    forall k | 0 <= k < |ZoneRows(zone).value| ensures Keys(ZoneRows(zone).value[k]) == ZoneRowColumns {
      assert BucketRow(zoneType, buckets[k]) == Ok(ZoneRows(zone).value[k]);
    }
  }

  /** Bucket rows followed by bucket rows. */
  lemma ConcatZoneRows(a: seq<Record>, b: seq<Record>)
    requires AllZoneRows(a) && AllZoneRows(b)
    ensures AllZoneRows(a + b)
  {
    forall k | 0 <= k < |a + b| ensures Keys((a + b)[k]) == ZoneRowColumns {
      if k < |a| {
        assert (a + b)[k] == a[k];
      } else {
        assert (a + b)[k] == b[k - |a|];
      }
    }
  }

  /** A zone's rows carry its "type", or None when it has none. */
  lemma ZoneTypeOfRows(zone: Value)
    requires ZoneRows(zone).Ok?
    ensures forall k :: 0 <= k < |ZoneRows(zone).value| ==>
              Lookup(ZoneRows(zone).value[k], "zone_type") == Some(DictGet(zone, "type", VNone).value)
    ensures Lookup(zone.fields, "type").None? ==>
              forall k :: 0 <= k < |ZoneRows(zone).value| ==> Lookup(ZoneRows(zone).value[k], "zone_type") == Some(VNone)
  {
    var zoneType := DictGet(zone, "type", VNone).value;
    var buckets := Iterate(DictGet(zone, "distribution_buckets", VList([])).value).value;
    forall k | 0 <= k < |ZoneRows(zone).value|
      ensures Lookup(ZoneRows(zone).value[k], "zone_type") == Some(zoneType)
    {
      assert BucketRow(zoneType, buckets[k]) == Ok(ZoneRows(zone).value[k]);
    }
  }

  /** A value that is not a list is refused; a list of bucket-free zones gives the empty frame. */
  lemma ZonesFrameErrors(zones: Value)
    ensures !zones.VList? ==> ZonesFrameSpec(zones) == Err(ValueError)
    ensures zones.VList? && |zones.items| == 0 ==> ZonesFrameSpec(zones) == Ok(EmptyFrame())
  {
  }

  /** When parsing succeeds with some bucket, the frame has the four columns
      and one row per record, in order. */
  lemma ZonesFrameRows(zones: seq<Value>)
    requires ZonesRows(zones, |zones|).Ok? && |ZonesRows(zones, |zones|).value| > 0
    ensures var records := ZonesRows(zones, |zones|).value;
            var f := ZonesFrameSpec(VList(zones)).value;
            && f.columns == ZoneRowColumns && |f.rows| == |records|
            && forall k :: 0 <= k < |records| ==> f.rows[k] == FieldValues(records[k])
  {
    ZoneRowColumnsDistinct();
    UniformFrame(ZonesRows(zones, |zones|).value, ZoneRowColumns);
  }

  /** The dict comprehension of `get_all_streams` over the first n requested
      types: a type the response contains maps to its extracted data. */
  function AvailableStreams(response: Value, types: seq<string>, n: nat): Result<Record>
    requires n <= |types|
  {
    if n == 0 then Ok([])
    else
      var done :- AvailableStreams(response, types, n - 1);
      var present :- Contains(response, types[n - 1]);
      if !present then Ok(done)
      else
        var data :- ExtractStreamData(response, types[n - 1]);
        Ok(Assign(done, types[n - 1], data))
  }

  /** `get_all_streams`, with `types` the imported list of stream types: {} for
      an empty (falsy) response. */
  function AllStreams(activityId: Value, types: seq<string>, respond: string -> Value): Result<Record>
  {
    var response :- GetStreams(activityId, types, respond);
    if !Truthy(response) then Ok([]) else AvailableStreams(response, types, |types|)
  }

  /** For a dict response the comprehension succeeds, and its keys are
      distinct and are exactly the requested types the response holds. */
  lemma {:induction false} AvailableStreamsKeys(fields: seq<(string, Value)>, types: seq<string>, n: nat)
    requires n <= |types|
    ensures AvailableStreams(VDict(fields), types, n).Ok?
    ensures var r := AvailableStreams(VDict(fields), types, n).value;
            && Distinct(Keys(r))
            && (forall k :: k in Keys(r) <==> k in types[..n] && Lookup(fields, k).Some?)
  {
    if n > 0 {
      AvailableStreamsKeys(fields, types, n - 1);
      var done := AvailableStreams(VDict(fields), types, n - 1).value;
      var t := types[n - 1];
      assert types[..n] == types[..n - 1] + [t];
      if Lookup(fields, t).Some? {
        AssignKeys(done, t, ExtractStreamData(VDict(fields), t).value);
      }
    }
  }

  /** Each type the comprehension keeps maps to the data extracted for it. */
  lemma {:induction false} AvailableStreamsValues(fields: seq<(string, Value)>, types: seq<string>, n: nat, k: string)
    requires n <= |types| && k in types[..n] && Lookup(fields, k).Some?
    ensures AvailableStreams(VDict(fields), types, n).Ok?
    ensures Lookup(AvailableStreams(VDict(fields), types, n).value, k) == Some(ExtractStreamData(VDict(fields), k).value)
  {
    var data := ExtractStreamData(VDict(fields), k).value;
    var i := 0;
    while i < n
      invariant i <= n
      invariant AvailableStreams(VDict(fields), types, i).Ok?
      invariant k in types[..i] ==> Lookup(AvailableStreams(VDict(fields), types, i).value, k) == Some(data)
    {
      AvailableStreamsStep(fields, types, i);
      assert types[..i + 1] == types[..i] + [types[i]];
      if Lookup(fields, types[i]).Some? {
        AssignLookup(AvailableStreams(VDict(fields), types, i).value, types[i], ExtractStreamData(VDict(fields), types[i]).value);
      }
      i := i + 1;
    }
    assert types[..i] == types[..n];
  }

  /** One more requested type extends the comprehension when the response
      holds it and leaves it alone otherwise. */
  lemma AvailableStreamsStep(fields: seq<(string, Value)>, types: seq<string>, i: nat)
    requires i < |types|
    ensures AvailableStreams(VDict(fields), types, i).Ok? && AvailableStreams(VDict(fields), types, i + 1).Ok?
    ensures AvailableStreams(VDict(fields), types, i + 1).value
            == if Lookup(fields, types[i]).Some?
               then Assign(AvailableStreams(VDict(fields), types, i).value, types[i], ExtractStreamData(VDict(fields), types[i]).value)
               else AvailableStreams(VDict(fields), types, i).value
  {
    AvailableStreamsKeys(fields, types, i);
  }

  /** `get_all_streams` on a dict response: the keys are exactly the requested
      types present in the response. */
  lemma AllStreamsKeys(activityId: Value, types: seq<string>, respond: string -> Value)
    requires GetStreams(activityId, types, respond).Ok?
    requires respond(StreamsPath(activityId, types)).VDict?
    ensures AllStreams(activityId, types, respond).Ok?
    ensures var fields := respond(StreamsPath(activityId, types)).fields;
            var r := AllStreams(activityId, types, respond).value;
            && Distinct(Keys(r))
            && (forall k :: k in Keys(r) <==> k in types && Lookup(fields, k).Some?)
            && (forall k :: k in Keys(r) ==> Lookup(r, k) == Some(ExtractStreamData(VDict(fields), k).value))
  {
    var fields := respond(StreamsPath(activityId, types)).fields;
    AvailableStreamsKeys(fields, types, |types|);
    assert types[..|types|] == types;
    var r := AllStreams(activityId, types, respond).value;
    forall k | k in Keys(r) ensures Lookup(r, k) == Some(ExtractStreamData(VDict(fields), k).value) {
      AvailableStreamsValues(fields, types, |types|, k);
    }
  }

  /** An empty response gives {}, and an imported type list with a type outside
      the accepted eleven raises before any request. */
  lemma AllStreamsEdges(activityId: Value, types: seq<string>, respond: string -> Value)
    ensures GetStreams(activityId, types, respond).Ok? && !Truthy(respond(StreamsPath(activityId, types))) ==>
              AllStreams(activityId, types, respond) == Ok([])
    ensures (exists i :: 0 <= i < |types| && types[i] !in ValidStreamTypes) ==>
              AllStreams(activityId, types, respond) == Err(ValueError)
  {
  }
}
