/**
 * `Zones.parse_activity_zones` flattens the heart-rate and power zone payload
 * into one record per distribution bucket; `Zones.process_zones` turns the
 * rows of such a frame back into zones, saves each one and collects the keys
 * of the zones whose save succeeded. The save (`insert_zone`) is not defined
 * in the repository's files and is a parameter here.
 */
module Zones {
  import opened Values
  import opened Frames

  const ZoneColumns: seq<string> := ["activity_id", "zone_type", "min", "max", "time_in_zone"]

  lemma ZoneColumnsDistinct()
    ensures Distinct(ZoneColumns)
  {
  }

  /** The record appended for one bucket. */
  function ZoneRecord(activityId: Value, zoneType: Value, min: Value, max: Value, time: Value): (r: Record)
    ensures Keys(r) == ZoneColumns
  {
    var r := [("activity_id", activityId), ("zone_type", zoneType), ("min", min), ("max", max), ("time_in_zone", time)];
    assert Keys(r) == [r[0].0] + Keys(r[1..]);
    r
  }

  /** `zone.get("type", "unknown")`. */
  function ZoneType(zone: Value): Result<Value>
  {
    DictGet(zone, "type", VStr("unknown"))
  }

  /** `zone.get("distribution_buckets", [])`. */
  function ZoneBuckets(zone: Value): Result<Value>
  {
    DictGet(zone, "distribution_buckets", VList([]))
  }

  /** The record for one bucket; `bucket.get` on a non-dict raises, and a
      missing bound or time is None. */
  function BucketRecord(activityId: Value, zoneType: Value, bucket: Value): (r: Result<Record>)
    ensures r.Err? <==> !bucket.VDict?
    ensures r.Err? ==> r.error == AttributeError
    ensures r.Ok? ==> r.value == ZoneRecord(activityId, zoneType,
              DictGet(bucket, "min", VNone).value, DictGet(bucket, "max", VNone).value,
              DictGet(bucket, "time", VNone).value)
  {
    if !bucket.VDict? then Err(AttributeError)
    else
      // Once the first `get` has succeeded the bucket is a dict, so the others cannot raise.
      Ok(ZoneRecord(activityId, zoneType, DictGet(bucket, "min", VNone).value,
                    DictGet(bucket, "max", VNone).value, DictGet(bucket, "time", VNone).value))
  }

  /** The records of the first n buckets of one zone. */
  function BucketRecords(activityId: Value, zoneType: Value, buckets: seq<Value>, n: nat): (r: Result<seq<Record>>)
    requires n <= |buckets|
    ensures r.Ok? ==> |r.value| == n
    ensures r.Ok? ==> forall j :: 0 <= j < n ==> BucketRecord(activityId, zoneType, buckets[j]) == Ok(r.value[j])
    ensures r.Err? <==> exists j :: 0 <= j < n && !buckets[j].VDict?
    ensures r.Err? ==> r.error == AttributeError
  {
    if n == 0 then Ok([])
    else match BucketRecords(activityId, zoneType, buckets, n - 1)
      case Err(e) => Err(e)
      case Ok(done) =>
        match BucketRecord(activityId, zoneType, buckets[n - 1])
        case Err(e) => Err(e)
        case Ok(rec) => Ok(done + [rec])
  }

  /** The records one zone contributes: none when its buckets are not a list. */
  function ZoneRecords(activityId: Value, zone: Value): Result<seq<Record>>
  {
    if !zone.VDict? then Err(AttributeError)
    else
      var buckets := ZoneBuckets(zone).value;
      if !buckets.VList? then Ok([])
      else BucketRecords(activityId, ZoneType(zone).value, buckets.items, |buckets.items|)
  }

  /** The records of the first n zones, in zone order; the first failure stops it. */
  function ParsedZones(activityId: Value, zones: seq<Value>, n: nat): Result<seq<Record>>
    requires n <= |zones|
  {
    if n == 0 then Ok([])
    else match ParsedZones(activityId, zones, n - 1)
      case Err(e) => Err(e)
      case Ok(done) =>
        match ZoneRecords(activityId, zones[n - 1])
        case Err(e) => Err(e)
        case Ok(recs) => Ok(done + recs)
  }

  /** What `parse_activity_zones` returns. */
  function ParseSpec(zones: Value, activityId: Value): Result<Frame>
  {
    if !zones.VList? then Err(ValueError)
    else match ParsedZones(activityId, zones.items, |zones.items|)
      case Err(e) => Err(e)
      case Ok(records) => Ok(FromRecords(records))
  }

  /** Once a zone has failed, the later zones are never reached. */
  lemma {:induction false} FailureSticks(activityId: Value, zones: seq<Value>, n: nat, m: nat)
    requires n <= m <= |zones| && ParsedZones(activityId, zones, n).Err?
    ensures ParsedZones(activityId, zones, m) == ParsedZones(activityId, zones, n)
    decreases m - n
  {
    if m > n {
      FailureSticks(activityId, zones, n, m - 1);
    }
  }

  /** The inner loop of `parse_activity_zones`: one record per bucket is
      appended, and a bucket that is not a dict raises. */
  method AppendBuckets(activityId: Value, zoneType: Value, buckets: seq<Value>, parsed: seq<Record>)
    returns (r: Result<seq<Record>>)
    ensures r.Err? <==> BucketRecords(activityId, zoneType, buckets, |buckets|).Err?
    ensures r.Err? ==> r.error == AttributeError
    ensures r.Ok? ==> r.value == parsed + BucketRecords(activityId, zoneType, buckets, |buckets|).value
  {
    var out := parsed;
    var j := 0;
    while j < |buckets|
      invariant 0 <= j <= |buckets|
      invariant BucketRecords(activityId, zoneType, buckets, j).Ok?
      invariant out == parsed + BucketRecords(activityId, zoneType, buckets, j).value
    {
      var bucket := buckets[j];
      var min := DictGet(bucket, "min", VNone);
      if min.Err? {
        assert BucketRecords(activityId, zoneType, buckets, j + 1).Err?;
        BucketFailureSticks(activityId, zoneType, buckets, j + 1, |buckets|);
        return Err(min.error);
      }
      // The bucket is a dict now, so these `get`s cannot raise.
      var max := DictGet(bucket, "max", VNone).value;
      var time := DictGet(bucket, "time", VNone).value;
      out := out + [ZoneRecord(activityId, zoneType, min.value, max, time)];
      j := j + 1;
    }
    r := Ok(out);
  }

  lemma {:induction false} BucketFailureSticks(activityId: Value, zoneType: Value, buckets: seq<Value>, n: nat, m: nat)
    requires n <= m <= |buckets| && BucketRecords(activityId, zoneType, buckets, n).Err?
    ensures BucketRecords(activityId, zoneType, buckets, m).Err?
    decreases m - n
  {
    if m > n {
      BucketFailureSticks(activityId, zoneType, buckets, n, m - 1);
    }
  }

  /** One turn of the outer loop of `parse_activity_zones`: the zone's records
      are appended, or nothing when its buckets are not a list. */
  method AppendZone(activityId: Value, zone: Value, parsed: seq<Record>) returns (r: Result<seq<Record>>)
    ensures r == match ZoneRecords(activityId, zone) case Err(e) => Err(e) case Ok(recs) => Ok(parsed + recs)
  {
    var zoneType := DictGet(zone, "type", VStr("unknown"));
    if zoneType.Err? {
      return Err(zoneType.error);
    }
    // The zone is a dict now, so this `get` cannot raise.
    var buckets := DictGet(zone, "distribution_buckets", VList([])).value;
    if !buckets.VList? {
      // "Invalid distribution_buckets": the zone is skipped.
      assert parsed + [] == parsed;
      return Ok(parsed);
    }
    r := AppendBuckets(activityId, zoneType.value, buckets.items, parsed);
  }

  /** `parse_activity_zones`. */
  method ParseActivityZones(zones: Value, activityId: Value) returns (r: Result<Frame>)
    ensures r == ParseSpec(zones, activityId)
  {
    if !zones.VList? {
      return Err(ValueError);
    }
    var items := zones.items;
    var parsed: seq<Record> := [];
    var i := 0;
    while i < |items|
      invariant 0 <= i <= |items|
      invariant ParsedZones(activityId, items, i) == Ok(parsed)
    {
      var added := AppendZone(activityId, items[i], parsed);
      if added.Err? {
        FailureSticks(activityId, items, i + 1, |items|);
        return Err(added.error);
      }
      parsed := added.value;
      i := i + 1;
    }
    r := Ok(FromRecords(parsed));
  }

  /** The number of buckets in the zones among the first n whose buckets are a list. */
  function ValidBucketCount(zones: seq<Value>, n: nat): nat
    requires n <= |zones|
  {
    if n == 0 then 0
    else
      var last := match ZoneBuckets(zones[n - 1]) case Ok(VList(bs)) => |bs| case _ => 0;
      ValidBucketCount(zones, n - 1) + last
  }

  /** One record per bucket of every zone with a bucket list: the count is the
      sum of the valid bucket-list lengths. */
  lemma {:induction false} ParsedCount(activityId: Value, zones: seq<Value>, n: nat)
    requires n <= |zones| && ParsedZones(activityId, zones, n).Ok?
    ensures |ParsedZones(activityId, zones, n).value| == ValidBucketCount(zones, n)
  {
    if n > 0 {
      ParsedCount(activityId, zones, n - 1);
    }
  }

  /** Zone order is kept: the records of the first m zones are a prefix of
      those of the first n. */
  lemma {:induction false} ParsedPrefix(activityId: Value, zones: seq<Value>, m: nat, n: nat)
    requires m <= n <= |zones| && ParsedZones(activityId, zones, n).Ok?
    ensures ParsedZones(activityId, zones, m).Ok?
    ensures ParsedZones(activityId, zones, m).value <= ParsedZones(activityId, zones, n).value
    decreases n - m
  {
    if m < n {
      ParsedPrefix(activityId, zones, m, n - 1);
    }
  }

  /** Every record has the five columns in order and carries the given activity id. */
  lemma {:induction false} ParsedRecordsShape(activityId: Value, zones: seq<Value>, n: nat)
    requires n <= |zones| && ParsedZones(activityId, zones, n).Ok?
    ensures forall k :: 0 <= k < |ParsedZones(activityId, zones, n).value| ==>
              Keys(ParsedZones(activityId, zones, n).value[k]) == ZoneColumns
              && ParsedZones(activityId, zones, n).value[k][0].1 == activityId
  {
    if n > 0 {
      ParsedRecordsShape(activityId, zones, n - 1);
    }
  }

  /** A zone whose buckets are not a list adds no records; a zone without
      buckets adds none either. */
  lemma SkippedZone(activityId: Value, zone: Value)
    requires zone.VDict?
    requires !ZoneBuckets(zone).value.VList? || Lookup(zone.fields, "distribution_buckets").None?
    ensures ZoneRecords(activityId, zone) == Ok([])
  {
  }

  /** A zone's records copy the bounds and time of each bucket, in bucket
      order, under the zone's type ("unknown" when it has none). */
  lemma ZoneRecordsFromBuckets(activityId: Value, zone: Value, j: nat)
    requires ZoneRecords(activityId, zone).Ok? && ZoneBuckets(zone).value.VList?
    requires j < |ZoneBuckets(zone).value.items|
    ensures var bucket := ZoneBuckets(zone).value.items[j];
            && bucket.VDict?
            && j < |ZoneRecords(activityId, zone).value|
            && ZoneRecords(activityId, zone).value[j] == ZoneRecord(activityId,
                 if Lookup(zone.fields, "type").Some? then Lookup(zone.fields, "type").value else VStr("unknown"),
                 DictGet(bucket, "min", VNone).value, DictGet(bucket, "max", VNone).value,
                 DictGet(bucket, "time", VNone).value)
  {
    var bs := ZoneBuckets(zone).value.items;
    assert BucketRecords(activityId, ZoneType(zone).value, bs, |bs|).Ok?;
  }

  /** A payload that is not a list is refused before anything else. */
  lemma NotAListRaises(zones: Value, activityId: Value)
    requires !zones.VList?
    ensures ParseSpec(zones, activityId) == Err(ValueError)
  {
  }

  /** With at least one record, the frame has the five columns and row k holds record k. */
  lemma ParsedFrame(zones: seq<Value>, activityId: Value)
    requires ParsedZones(activityId, zones, |zones|).Ok?
    requires |ParsedZones(activityId, zones, |zones|).value| > 0
    ensures ParseSpec(VList(zones), activityId).Ok?
    ensures ParseSpec(VList(zones), activityId).value.columns == ZoneColumns
    ensures forall k :: 0 <= k < |ParsedZones(activityId, zones, |zones|).value| ==>
              ParseSpec(VList(zones), activityId).value.rows[k] ==
              FieldValues(ParsedZones(activityId, zones, |zones|).value[k])
  {
    var records := ParsedZones(activityId, zones, |zones|).value;
    ParsedRecordsShape(activityId, zones, |zones|);
    ZoneColumnsDistinct();
    UniformFrame(records, ZoneColumns);
  }

  /** A zone as `process_zones` builds it from one row. */
  datatype Zone = Zone(activityId: Value, zoneType: Value, minValue: Value, maxValue: Value, timeInZone: Value)

  /** The five columns a row must have. */
  predicate HasZoneColumns(f: Frame)
  {
    HasColumn(f, "activity_id") && HasColumn(f, "zone_type") && HasColumn(f, "min")
      && HasColumn(f, "max") && HasColumn(f, "time_in_zone")
  }

  /** `cls(activity_id=row["activity_id"], ...)` for row i: a missing column is a KeyError. */
  function RowZone(f: Frame, i: nat): (r: Result<Zone>)
    requires WellFormed(f) && i < |f.rows|
    ensures r.Ok? <==> HasZoneColumns(f)
    ensures r.Err? ==> r.error == KeyError
  {
    // Every subscript raises the same KeyError, so which one fails first does not matter.
    if !HasZoneColumns(f) then Err(KeyError)
    else Ok(Zone(Cell(f, i, "activity_id").value, Cell(f, i, "zone_type").value, Cell(f, i, "min").value,
                 Cell(f, i, "max").value, Cell(f, i, "time_in_zone").value))
  }

  /** The zones of all rows, in row order. */
  function FrameZones(f: Frame): (r: seq<Zone>)
    requires WellFormed(f) && HasZoneColumns(f)
    ensures |r| == |f.rows| && forall i :: 0 <= i < |f.rows| ==> RowZone(f, i) == Ok(r[i])
  {
    seq(|f.rows|, i requires 0 <= i < |f.rows| => RowZone(f, i).value)
  }

  /** The key `process_zones` records for a saved zone. */
  function ZoneKey(z: Zone): (Value, Value)
  {
    (z.activityId, z.zoneType)
  }

  /** The keys collected from the first n zones, or the error of the first
      save that raises. */
  function SavedKeys(zones: seq<Zone>, save: Zone -> Result<bool>, n: nat): (r: Result<seq<(Value, Value)>>)
    requires n <= |zones|
    ensures r.Ok? ==> |r.value| <= n
  {
    if n == 0 then Ok([])
    else
      match SavedKeys(zones, save, n - 1)
      case Err(e) => Err(e)
      case Ok(keys) =>
        match save(zones[n - 1])
        case Err(e) => Err(e)
        case Ok(stored) => Ok(keys + (if stored then [ZoneKey(zones[n - 1])] else []))
  }

  /** The positions whose save succeeds. */
  function SaveSucceeds(zones: seq<Zone>, save: Zone -> Result<bool>): nat -> bool
  {
    (i: nat) => i < |zones| && save(zones[i]) == Ok(true)
  }

  /** When no save raises, the keys are those of exactly the zones whose save
      succeeded, in row order. */
  lemma {:induction false} SavedKeysAreSavedRows(zones: seq<Zone>, save: Zone -> Result<bool>, n: nat)
    requires n <= |zones| && forall i :: 0 <= i < n ==> save(zones[i]).Ok?
    ensures var saved := FilterIndices(SaveSucceeds(zones, save), n);
            && SavedKeys(zones, save, n).Ok?
            && |SavedKeys(zones, save, n).value| == |saved|
            && forall k :: 0 <= k < |saved| ==> SavedKeys(zones, save, n).value[k] == ZoneKey(zones[saved[k]])
    decreases n
  {
    if n > 0 {
      var keep := SaveSucceeds(zones, save);
      SavedKeysAreSavedRows(zones, save, n - 1);
      var prev := FilterIndices(keep, n - 1);
      var ks := SavedKeys(zones, save, n - 1).value;
      assert keep(n - 1) == (save(zones[n - 1]) == Ok(true));
      if save(zones[n - 1]) == Ok(true) {
        assert FilterIndices(keep, n) == prev + [n - 1];
        assert SavedKeys(zones, save, n).value == ks + [ZoneKey(zones[n - 1])];
      } else {
        assert FilterIndices(keep, n) == prev;
        assert SavedKeys(zones, save, n).value == ks;
      }
    }
  }

  /** A save that raises ends the loop with its error: the zones after it are
      not saved. */
  lemma {:induction false} SaveFailureSticks(zones: seq<Zone>, save: Zone -> Result<bool>, i: nat, n: nat)
    requires i < n <= |zones| && SavedKeys(zones, save, i).Ok? && save(zones[i]).Err?
    ensures SavedKeys(zones, save, n) == Err(save(zones[i]).error)
    decreases n
  {
    if n > i + 1 {
      SaveFailureSticks(zones, save, i, n - 1);
    }
  }

  /** `save_to_db` imports `insert_zone`, which `src/database/db.py` does not
      define, so with the repository's files every save raises ImportError and
      so does the whole loop, at the first zone. */
  lemma MissingInsertZoneRaises(zones: seq<Zone>, save: Zone -> Result<bool>)
    requires |zones| > 0 && forall z :: save(z) == Err(ImportError)
    ensures SavedKeys(zones, save, |zones|) == Err(ImportError)
  {
    SaveFailureSticks(zones, save, 0, |zones|);
  }

  /** The loop of `process_zones` over the zones its rows make: each zone is
      saved, and the key of every zone whose save succeeded is kept; a save
      that raises ends the loop. */
  method SaveZones(zones: seq<Zone>, save: Zone -> Result<bool>) returns (r: Result<seq<(Value, Value)>>)
    ensures r == SavedKeys(zones, save, |zones|)
  {
    var saved: seq<(Value, Value)> := [];
    var i := 0;
    while i < |zones|
      invariant 0 <= i <= |zones|
      invariant SavedKeys(zones, save, i) == Ok(saved)
    {
      var zone := zones[i];
      var stored := save(zone);
      if stored.Err? {
        SaveFailureSticks(zones, save, i, |zones|);
        return Err(stored.error);
      }
      if stored.value {
        saved := saved + [ZoneKey(zone)];
      } else {
        assert saved + [] == saved;
      }
      i := i + 1;
    }
    r := Ok(saved);
  }

  /** `process_zones`: the closing summary reads `activity_id` of row 0, so an
      empty frame raises too (KeyError without the column, IndexError with it). */
  method ProcessZones(f: Frame, save: Zone -> Result<bool>) returns (r: Result<seq<(Value, Value)>>)
    requires WellFormed(f)
    ensures |f.rows| == 0 ==> r == Err(if HasColumn(f, "activity_id") then IndexError else KeyError)
    ensures |f.rows| > 0 && !HasZoneColumns(f) ==> r == Err(KeyError)
    ensures |f.rows| > 0 && HasZoneColumns(f) ==> r == SavedKeys(FrameZones(f), save, |f.rows|)
  {
    if |f.rows| == 0 {
      // No row to iterate; the summary's `zones_df['activity_id'].iloc[0]` fails.
      return Err(if HasColumn(f, "activity_id") then IndexError else KeyError);
    }
    // Building the zone of each row raises the same KeyError at the first row
    // when a column is missing, before any save.
    if !HasZoneColumns(f) {
      return Err(KeyError);
    }
    r := SaveZones(FrameZones(f), save);
  }
}
