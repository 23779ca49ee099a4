/**
 * One run of the pipeline's entry point: fetch the activity summaries, keep
 * the ones whose id is not cached, store them, then fetch and store the
 * details of each new activity (splits, zones and best efforts), and always
 * finish with the discrepancy check. The network calls and the transforms
 * the repository does not define are the services passed in.
 */
module Sync {
  import opened Values
  import opened Frames
  import opened Queries
  import opened RecordStore
  import opened Splits
  import opened BestEfforts
  import opened StravaApi

  /** The calls a pass makes outside the store. `processActivities` stands for
      `Activity.process_activity_data`, `processZones` for the two-argument
      `Zones.process_zones` call; `fetchDetail` and `fetchZones` give the reply
      `make_request` ends with for the detailed-activity and the zones request
      of an id (`StravaApi.MakeRequest` says which replies a response can give). */
  datatype Services = Services(
    processActivities: Frame -> Result<Frame>,
    fetchDetail: Value -> Reply,
    fetchZones: Value -> Reply,
    processZones: (Value, Value) -> Result<Frame>,
    dumps: Value -> string)

  /** The frames the services return are rectangular, as every DataFrame is. */
  ghost predicate WellBehaved(s: Services)
  {
    && (forall f :: s.processActivities(f).Ok? ==> WellFormed(s.processActivities(f).value))
    && (forall z, id :: s.processZones(z, id).Ok? ==> WellFormed(s.processZones(z, id).value))
  }

  /** The value a returning request hands back; None when it gave nothing. */
  function Data(d: Option<Value>): Value
  {
    if d.Some? then d.value else VNone
  }

  /** The store after some processing, and whether `sys.exit()` was called on
      the way: SystemExit is not an `Exception`, so no handler of the pass
      catches it and the process ends. */
  datatype Run = Run(db: Database, exited: bool)

  /** The tables a pass may write. */
  const DetailTables: set<string> := {"splits", "zones", "best_efforts"}
  const WrittenTables: set<string> := {"activities"} + DetailTables

  lemma TableNames()
    ensures "cache" !in WrittenTables && "activities" !in DetailTables
  {
  }

  /** Every table outside `tables` is as it was, and no table appears or disappears. */
  predicate TouchesOnly(db: Database, db2: Database, tables: set<string>)
  {
    db2.Keys == db.Keys && forall t :: t in db && t !in tables ==> db2[t] == db[t]
  }

  lemma TouchesOnlyTransitive(a: Database, b: Database, c: Database, tables: set<string>)
    requires TouchesOnly(a, b, tables) && TouchesOnly(b, c, tables)
    ensures TouchesOnly(a, c, tables)
  {
  }

  /** What `insert_dataframe_to_db` does with a frame for an allowed table. */
  function InsertFrame(db: Database, f: Frame, table: string): (r: Database)
    requires ValidDatabase(db)
    ensures ValidDatabase(r)
  {
    if IsEmpty(f) then db else InsertRows(db, table, f.columns, f.rows)
  }

  lemma InsertFrameTouchesOnly(db: Database, f: Frame, table: string, tables: set<string>)
    requires ValidDatabase(db) && table in tables
    ensures TouchesOnly(db, InsertFrame(db, f, table), tables)
  {
    if !IsEmpty(f) {
      InsertRowsKeepsExisting(db, table, f.columns, f.rows);
    }
  }

  /** `process_individual_activity`: every step runs before any insert, so a
      step that raises leaves the store as it was. An exception is caught at
      the end of the function; a rate-limit exit in the zones request is not. */
  function IndividualEffect(db: Database, id: Value, detail: Value, s: Services): (r: Run)
    requires ValidDatabase(db) && detail.VDict? && WellBehaved(s)
    ensures ValidDatabase(r.db)
  {
    match SplitsResult(FromRecords([detail.fields]), s.dumps)
    case Err(_) => Run(db, false)
    case Ok(splits) =>
      match s.fetchZones(id)
      case SystemExit => Run(db, true)
      case Raised(_) => Run(db, false)
      case Returned(zonesData) => Run(DetailsEffect(db, id, detail, splits, Data(zonesData), s), false)
  }

  /** The rest of `process_individual_activity` once the splits frame and the
      zones data are there: the zones and best-efforts frames are built, then
      the three frames are inserted in order. */
  function DetailsEffect(db: Database, id: Value, detail: Value, splits: Frame, zonesData: Value, s: Services): (r: Database)
    requires ValidDatabase(db) && detail.VDict? && WellBehaved(s) && WellFormed(splits)
    ensures ValidDatabase(r)
  {
    match s.processZones(zonesData, id)
    case Err(_) => db
    case Ok(zones) =>
      match ProcessBestEfforts(DictGet(detail, "best_efforts", VList([])).value)
      case Err(_) => db
      case Ok(efforts) =>
        InsertFrame(InsertFrame(InsertFrame(db, splits, "splits"), zones, "zones"), efforts, "best_efforts")
  }

  /** One turn of `process_new_activities`: a request that raises is caught by
      the loop, and a falsy detail is skipped. A truthy detail that is not a
      dict makes a frame without an "id" column, so `process_splits` raises
      and nothing is stored either. */
  function ActivityEffect(db: Database, id: Value, s: Services): (r: Run)
    requires ValidDatabase(db) && WellBehaved(s)
    ensures ValidDatabase(r.db)
  {
    match s.fetchDetail(id)
    case SystemExit => Run(db, true)
    case Raised(_) => Run(db, false)
    case Returned(d) =>
      var detail := Data(d);
      if !Truthy(detail) || !detail.VDict? then Run(db, false) else IndividualEffect(db, id, detail, s)
  }

  /** The store after the first n ids have been processed, or after the id
      whose processing exited, which ends the loop. */
  function NewActivitiesEffect(db: Database, ids: seq<Value>, n: nat, s: Services): (r: Run)
    requires ValidDatabase(db) && WellBehaved(s) && n <= |ids|
    ensures ValidDatabase(r.db)
  {
    if n == 0 then Run(db, false)
    else
      var prev := NewActivitiesEffect(db, ids, n - 1, s);
      if prev.exited then prev else ActivityEffect(prev.db, ids[n - 1], s)
  }

  /** Row i has an id that is not cached. */
  predicate IsNew(f: Frame, cached: seq<Value>, i: nat)
  {
    WellFormed(f) && HasColumn(f, "id") && i < |f.rows| && Cell(f, i, "id").value !in cached
  }

  /** The positions of the new rows, in frame order. */
  function NewPositions(f: Frame, cached: seq<Value>): (r: seq<nat>)
  {
    FilterIndices((i: nat) => IsNew(f, cached, i), |f.rows|)
  }

  /** `activities_df[~activities_df["id"].isin(cached_ids)]`. */
  function NewFrame(f: Frame, cached: seq<Value>): (r: Frame)
    requires WellFormed(f)
    ensures WellFormed(r) && r.columns == f.columns
  {
    var kept := NewPositions(f, cached);
    Frame(f.columns, seq(|kept|, k requires 0 <= k < |kept| => f.rows[kept[k]]))
  }

  /** `new_activities_df["id"].tolist()`. */
  function NewIds(f: Frame, cached: seq<Value>): (r: seq<Value>)
    requires WellFormed(f) && HasColumn(f, "id")
  {
    var kept := NewPositions(f, cached);
    seq(|kept|, k requires 0 <= k < |kept| => Cell(f, kept[k], "id").value)
  }

  /** The new ids are the uncached ids of the frame, in frame order, and the new
      frame holds exactly the rows they come from. */
  lemma NewIdsInFrameOrder(f: Frame, cached: seq<Value>)
    requires WellFormed(f) && HasColumn(f, "id")
    ensures var kept := NewPositions(f, cached);
            && |NewIds(f, cached)| == |kept| == |NewFrame(f, cached).rows|
            && (forall k :: 0 <= k < |kept| ==>
                  kept[k] < |f.rows| && NewIds(f, cached)[k] == Cell(f, kept[k], "id").value
                  && NewIds(f, cached)[k] !in cached && NewFrame(f, cached).rows[k] == f.rows[kept[k]])
            && (forall k, j :: 0 <= k < j < |kept| ==> kept[k] < kept[j])
            && (forall i :: 0 <= i < |f.rows| && Cell(f, i, "id").value !in cached ==> i in kept)
  {
    var kept := NewPositions(f, cached);
    forall k | 0 <= k < |kept| ensures IsNew(f, cached, kept[k]) {
    }
  }

  /** No new ids exactly when every id of the frame is cached. */
  lemma NoNewIdsIffAllCached(f: Frame, cached: seq<Value>)
    requires WellFormed(f) && HasColumn(f, "id")
    ensures |NewIds(f, cached)| == 0 <==> forall i :: 0 <= i < |f.rows| ==> Cell(f, i, "id").value in cached
  {
    var kept := NewPositions(f, cached);
    if |kept| > 0 {
      assert IsNew(f, cached, kept[0]);
    }
    forall i | 0 <= i < |f.rows| && Cell(f, i, "id").value !in cached ensures i in kept {
      assert IsNew(f, cached, i);
    }
  }

  /** The cache ids as `get_ids_from_cache` reads them. */
  function CachedIds(db: Database): seq<Value>
    requires ValidDatabase(db)
  {
    SelectIds(db, GetCachedIds.table, GetCachedIds.column)
  }

  /** The try block of `main`: no data or an empty frame ends the pass at
      once; a step that raises ends it with whatever was stored so far. */
  function PassEffect(db: Database, activities: seq<Record>, s: Services): (r: Run)
    requires ValidDatabase(db) && WellBehaved(s)
    ensures ValidDatabase(r.db)
  {
    if |activities| == 0 then Run(db, false)
    else
      var df := FromRecords(activities);
      if IsEmpty(df) then Run(db, false)
      else match s.processActivities(df)
        case Err(_) => Run(db, false)
        case Ok(processed) => StoreNew(db, processed, s)
  }

  /** The rest of the try block once the activities are processed: a frame
      without an "id" column raises KeyError, and no new ids skips the inserts. */
  function StoreNew(db: Database, processed: Frame, s: Services): (r: Run)
    requires ValidDatabase(db) && WellBehaved(s) && WellFormed(processed)
    ensures ValidDatabase(r.db)
  {
    if !HasColumn(processed, "id") then Run(db, false)
    else
      var ids := NewIds(processed, CachedIds(db));
      if |ids| == 0 then Run(db, false)
      else NewActivitiesEffect(InsertFrame(db, NewFrame(processed, CachedIds(db)), "activities"), ids, |ids|, s)
  }

  lemma DetailsTouchOnlyDetails(db: Database, id: Value, detail: Value, splits: Frame, zonesData: Value, s: Services)
    requires ValidDatabase(db) && detail.VDict? && WellBehaved(s) && WellFormed(splits)
    ensures TouchesOnly(db, DetailsEffect(db, id, detail, splits, zonesData, s), DetailTables)
  {
    var zones := s.processZones(zonesData, id);
    var efforts := ProcessBestEfforts(DictGet(detail, "best_efforts", VList([])).value);
    if zones.Ok? && efforts.Ok? {
      var db1 := InsertFrame(db, splits, "splits");
      var db2 := InsertFrame(db1, zones.value, "zones");
      InsertFrameTouchesOnly(db, splits, "splits", DetailTables);
      InsertFrameTouchesOnly(db1, zones.value, "zones", DetailTables);
      InsertFrameTouchesOnly(db2, efforts.value, "best_efforts", DetailTables);
    }
  }

  lemma IndividualTouchesOnlyDetails(db: Database, id: Value, detail: Value, s: Services)
    requires ValidDatabase(db) && detail.VDict? && WellBehaved(s)
    ensures TouchesOnly(db, IndividualEffect(db, id, detail, s).db, DetailTables)
  {
    var splits := SplitsResult(FromRecords([detail.fields]), s.dumps);
    var reply := s.fetchZones(id);
    if splits.Ok? && reply.Returned? {
      DetailsTouchOnlyDetails(db, id, detail, splits.value, Data(reply.data), s);
    }
  }

  /** One id's processing writes only the splits, zones and best_efforts tables. */
  lemma ActivityTouchesOnlyDetails(db: Database, id: Value, s: Services)
    requires ValidDatabase(db) && WellBehaved(s)
    ensures TouchesOnly(db, ActivityEffect(db, id, s).db, DetailTables)
  {
    var reply := s.fetchDetail(id);
    if reply.Returned? && Truthy(Data(reply.data)) && Data(reply.data).VDict? {
      IndividualTouchesOnlyDetails(db, id, Data(reply.data), s);
    }
  }

  /** Processing new ids writes only the splits, zones and best_efforts tables. */
  lemma {:induction false} NewActivitiesTouchOnlyDetails(db: Database, ids: seq<Value>, n: nat, s: Services)
    requires ValidDatabase(db) && WellBehaved(s) && n <= |ids|
    ensures TouchesOnly(db, NewActivitiesEffect(db, ids, n, s).db, DetailTables)
  {
    if n > 0 {
      var prev := NewActivitiesEffect(db, ids, n - 1, s);
      NewActivitiesTouchOnlyDetails(db, ids, n - 1, s);
      if !prev.exited {
        ActivityTouchesOnlyDetails(prev.db, ids[n - 1], s);
        NewActivitiesStep(db, ids, n - 1, s);
        TouchesOnlyTransitive(db, prev.db, NewActivitiesEffect(db, ids, n, s).db, DetailTables);
      } else {
        ExitedStays(db, ids, n, s);
      }
    }
  }

  /** An id whose processing exits leaves the store as it found it: both
      requests that can exit come before the first insert. */
  lemma ExitStoresNothing(db: Database, id: Value, s: Services)
    requires ValidDatabase(db) && WellBehaved(s) && ActivityEffect(db, id, s).exited
    ensures ActivityEffect(db, id, s).db == db
  {
  }

  /** Once the run exits at id k, the ids after it are never processed: the
      store stays as it was before id k, and the run stays exited. */
  lemma {:induction false} ExitStopsTheLoop(db: Database, ids: seq<Value>, k: nat, n: nat, s: Services)
    requires ValidDatabase(db) && WellBehaved(s) && k < n <= |ids|
    requires !NewActivitiesEffect(db, ids, k, s).exited && NewActivitiesEffect(db, ids, k + 1, s).exited
    ensures NewActivitiesEffect(db, ids, n, s).exited
    ensures NewActivitiesEffect(db, ids, n, s).db == NewActivitiesEffect(db, ids, k, s).db
    decreases n
  {
    if n == k + 1 {
      ExitAtStep(db, ids, k, s);
    } else {
      ExitStopsTheLoop(db, ids, k, n - 1, s);
      ExitedStays(db, ids, n, s);
    }
  }

  /** The id at which the run exits stores nothing. */
  lemma ExitAtStep(db: Database, ids: seq<Value>, k: nat, s: Services)
    requires ValidDatabase(db) && WellBehaved(s) && k < |ids|
    requires !NewActivitiesEffect(db, ids, k, s).exited && NewActivitiesEffect(db, ids, k + 1, s).exited
    ensures NewActivitiesEffect(db, ids, k + 1, s).db == NewActivitiesEffect(db, ids, k, s).db
  {
    var before := NewActivitiesEffect(db, ids, k, s);
    NewActivitiesStep(db, ids, k, s);
    ExitStoresNothing(before.db, ids[k], s);
  }

  /** An exited run is not extended by the next id. */
  lemma ExitedStays(db: Database, ids: seq<Value>, n: nat, s: Services)
    requires ValidDatabase(db) && WellBehaved(s) && 0 < n <= |ids|
    requires NewActivitiesEffect(db, ids, n - 1, s).exited
    ensures NewActivitiesEffect(db, ids, n, s).db == NewActivitiesEffect(db, ids, n - 1, s).db
    ensures NewActivitiesEffect(db, ids, n, s).exited
  {
  }

  /** A run that has not exited got through every id before it without an
      exit; a run that has exited did so at exactly one id, and the store is
      what the ids before that one left. */
  lemma {:induction false} ExitedAtOneId(db: Database, ids: seq<Value>, n: nat, s: Services)
    requires ValidDatabase(db) && WellBehaved(s) && n <= |ids|
    ensures !NewActivitiesEffect(db, ids, n, s).exited ==>
              forall j :: 0 <= j < n ==> !NewActivitiesEffect(db, ids, j, s).exited
    ensures NewActivitiesEffect(db, ids, n, s).exited ==>
              exists k :: 0 <= k < n && !NewActivitiesEffect(db, ids, k, s).exited &&
                NewActivitiesEffect(db, ids, n, s) == Run(NewActivitiesEffect(db, ids, k, s).db, true)
    decreases n
  {
    if n > 0 {
      ExitedAtOneId(db, ids, n - 1, s);
      var prev := NewActivitiesEffect(db, ids, n - 1, s);
      if !prev.exited && ActivityEffect(prev.db, ids[n - 1], s).exited {
        ExitStoresNothing(prev.db, ids[n - 1], s);
      }
    }
  }

  lemma StoreNewTouchesOnly(db: Database, processed: Frame, s: Services)
    requires ValidDatabase(db) && WellBehaved(s) && WellFormed(processed)
    ensures TouchesOnly(db, StoreNew(db, processed, s).db, WrittenTables)
  {
    if HasColumn(processed, "id") {
      var cached := CachedIds(db);
      var ids := NewIds(processed, cached);
      if |ids| > 0 {
        var db1 := InsertFrame(db, NewFrame(processed, cached), "activities");
        InsertFrameTouchesOnly(db, NewFrame(processed, cached), "activities", WrittenTables);
        NewActivitiesTouchOnlyDetails(db1, ids, |ids|, s);
        TouchesOnlyTransitive(db, db1, StoreNew(db, processed, s).db, WrittenTables);
      }
    }
  }

  /** A pass writes only the activities, splits, zones and best_efforts tables;
      in particular the cache is never updated. */
  lemma PassTouchesOnlyWrittenTables(db: Database, activities: seq<Record>, s: Services)
    requires ValidDatabase(db) && WellBehaved(s)
    ensures TouchesOnly(db, PassEffect(db, activities, s).db, WrittenTables)
    ensures "cache" in db ==> PassEffect(db, activities, s).db["cache"] == db["cache"]
  {
    if |activities| > 0 && !IsEmpty(FromRecords(activities)) {
      var processed := s.processActivities(FromRecords(activities));
      if processed.Ok? {
        StoreNewTouchesOnly(db, processed.value, s);
      }
    }
    TableNames();
  }

  /** The activities table gains exactly the frame's rows whose id is not
      cached: the per-id processing after the insert never writes it again. */
  lemma StoreNewActivities(db: Database, processed: Frame, s: Services)
    requires ValidDatabase(db) && WellBehaved(s) && WellFormed(processed)
    requires "activities" in db && HasColumn(processed, "id")
    ensures "activities" in StoreNew(db, processed, s).db
    ensures "activities" in InsertFrame(db, NewFrame(processed, CachedIds(db)), "activities")
    ensures StoreNew(db, processed, s).db["activities"] ==
              InsertFrame(db, NewFrame(processed, CachedIds(db)), "activities")["activities"]
  {
    var cached := CachedIds(db);
    var ids := NewIds(processed, cached);
    var db1 := InsertFrame(db, NewFrame(processed, cached), "activities");
    TableNames();
    InsertFrameTouchesOnly(db, NewFrame(processed, cached), "activities", WrittenTables);
    if |ids| > 0 {
      NewActivitiesTouchOnlyDetails(db1, ids, |ids|, s);
    } else {
      NewIdsInFrameOrder(processed, cached);
      assert IsEmpty(NewFrame(processed, cached));
    }
  }

  /** As written, `Activity.process_activity_data` does not exist, so the try
      block raises AttributeError at once and a pass stores nothing. */
  lemma MissingProcessStepStoresNothing(db: Database, activities: seq<Record>, s: Services)
    requires ValidDatabase(db) && WellBehaved(s)
    requires forall f :: s.processActivities(f) == Err(AttributeError)
    ensures PassEffect(db, activities, s) == Run(db, false)
  {
  }

  /** As written, `Zones.process_zones` takes one argument and is called with
      two, so every detailed activity raises TypeError before its inserts;
      only a rate-limit exit can still end the loop early. */
  lemma {:induction false} ZonesCallStoresNoDetails(db: Database, ids: seq<Value>, n: nat, s: Services)
    requires ValidDatabase(db) && WellBehaved(s) && n <= |ids|
    requires forall z, id :: s.processZones(z, id) == Err(TypeError)
    ensures NewActivitiesEffect(db, ids, n, s).db == db
  {
    if n > 0 {
      ZonesCallStoresNoDetails(db, ids, n - 1, s);
    }
  }

  /** When every fetched id is already cached, nothing is stored and no detail is fetched. */
  lemma AllCachedStoresNothing(db: Database, activities: seq<Record>, s: Services)
    requires ValidDatabase(db) && WellBehaved(s)
    requires |activities| > 0 && s.processActivities(FromRecords(activities)).Ok?
    requires var p := s.processActivities(FromRecords(activities)).value;
             HasColumn(p, "id") && forall i :: 0 <= i < |p.rows| ==> Cell(p, i, "id").value in CachedIds(db)
    ensures PassEffect(db, activities, s) == Run(db, false)
  {
    NoNewIdsIffAllCached(s.processActivities(FromRecords(activities)).value, CachedIds(db));
  }

  /** An id whose detail is empty or None is skipped and the loop goes on. */
  lemma FalsyDetailSkipped(db: Database, id: Value, s: Services)
    requires ValidDatabase(db) && WellBehaved(s)
    requires s.fetchDetail(id).Returned? && !Truthy(Data(s.fetchDetail(id).data))
    ensures ActivityEffect(db, id, s) == Run(db, false)
  {
  }

  /** A detail request that raises is caught by the loop: the id stores
      nothing and the next id is processed. A request that reaches the daily
      limit exits instead. */
  lemma DetailRequestEnds(db: Database, id: Value, s: Services)
    requires ValidDatabase(db) && WellBehaved(s)
    ensures s.fetchDetail(id).Raised? ==> ActivityEffect(db, id, s) == Run(db, false)
    ensures s.fetchDetail(id) == SystemExit ==> ActivityEffect(db, id, s) == Run(db, true)
  {
  }

  /** `process_individual_activity`. */
  method ProcessIndividualActivity(m: DatabaseManager, id: Value, detail: Value, s: Services)
    returns (exited: bool)
    requires m.Valid() && detail.VDict? && WellBehaved(s)
    modifies m
    ensures m.Valid() && m.db == IndividualEffect(old(m.db), id, detail, s).db
    ensures exited == IndividualEffect(old(m.db), id, detail, s).exited
  {
    exited := false;
    var detailDf := FromRecords([detail.fields]);
    var splits := ProcessSplits(detailDf, s.dumps);
    if splits.Err? {
      return;
    }
    var reply := s.fetchZones(id);
    if reply == SystemExit {
      return true;
    }
    if reply.Raised? {
      return;
    }
    StoreDetails(m, id, detail, splits.value, Data(reply.data), s);
  }

  /** The zones and best-efforts steps and the three inserts. */
  method StoreDetails(m: DatabaseManager, id: Value, detail: Value, splits: Frame, zonesData: Value, s: Services)
    requires m.Valid() && detail.VDict? && WellBehaved(s) && WellFormed(splits)
    modifies m
    ensures m.Valid() && m.db == DetailsEffect(old(m.db), id, detail, splits, zonesData, s)
  {
    var zones := s.processZones(zonesData, id);
    if zones.Err? {
      return;
    }
    var effortsData := DictGet(detail, "best_efforts", VList([])).value;
    var efforts := ProcessBestEfforts(effortsData);
    if efforts.Err? {
      return;
    }
    assert "splits" in AllowedTables && "zones" in AllowedTables && "best_efforts" in AllowedTables;
    var _ := m.InsertDataFrame(Some(splits), "splits");
    var _ := m.InsertDataFrame(Some(zones.value), "zones");
    var _ := m.InsertDataFrame(Some(efforts.value), "best_efforts");
  }

  /** `process_new_activities`: the ids in order, until one of them exits. */
  method ProcessNewActivities(m: DatabaseManager, ids: seq<Value>, s: Services) returns (exited: bool)
    requires m.Valid() && WellBehaved(s)
    modifies m
    ensures m.Valid() && m.db == NewActivitiesEffect(old(m.db), ids, |ids|, s).db
    ensures exited == NewActivitiesEffect(old(m.db), ids, |ids|, s).exited
  {
    ghost var db0 := m.db;
    var i := 0;
    while i < |ids|
      invariant 0 <= i <= |ids|
      invariant m.Valid() && m.db == NewActivitiesEffect(db0, ids, i, s).db
      invariant !NewActivitiesEffect(db0, ids, i, s).exited
    {
      exited := ProcessActivity(m, ids[i], s);
      AfterActivity(db0, ids, i, s, m.db, exited);
      if exited {
        return;
      }
      i := i + 1;
      assert m.db == NewActivitiesEffect(db0, ids, i, s).db;
      assert !NewActivitiesEffect(db0, ids, i, s).exited;
    }
    exited := false;
  }

  /** Where the loop stands after id i: at the next id, or at the end once the
      id exited. */
  lemma AfterActivity(db: Database, ids: seq<Value>, i: nat, s: Services, after: Database, exited: bool)
    requires ValidDatabase(db) && WellBehaved(s) && i < |ids|
    requires !NewActivitiesEffect(db, ids, i, s).exited
    requires after == ActivityEffect(NewActivitiesEffect(db, ids, i, s).db, ids[i], s).db
    requires exited == ActivityEffect(NewActivitiesEffect(db, ids, i, s).db, ids[i], s).exited
    ensures !exited ==> after == NewActivitiesEffect(db, ids, i + 1, s).db && !NewActivitiesEffect(db, ids, i + 1, s).exited
    ensures exited ==> after == NewActivitiesEffect(db, ids, |ids|, s).db && NewActivitiesEffect(db, ids, |ids|, s).exited
  {
    NewActivitiesStep(db, ids, i, s);
    if exited {
      ExitStopsTheLoop(db, ids, i, |ids|, s);
      ExitStoresNothing(NewActivitiesEffect(db, ids, i, s).db, ids[i], s);
    }
  }

  /** The loop body of `process_new_activities`: fetch the detail and
      process it unless the request raised, or it is falsy or not a dict. */
  method ProcessActivity(m: DatabaseManager, id: Value, s: Services) returns (exited: bool)
    requires m.Valid() && WellBehaved(s)
    modifies m
    ensures m.Valid() && m.db == ActivityEffect(old(m.db), id, s).db
    ensures exited == ActivityEffect(old(m.db), id, s).exited
  {
    exited := false;
    var reply := s.fetchDetail(id);
    if reply == SystemExit {
      return true;
    }
    if reply.Returned? {
      var detail := Data(reply.data);
      if Truthy(detail) && detail.VDict? {
        exited := ProcessIndividualActivity(m, id, detail, s);
      }
    }
  }

  /** One more id applies its effect to the store left by the earlier ones. */
  lemma NewActivitiesStep(db: Database, ids: seq<Value>, i: nat, s: Services)
    requires ValidDatabase(db) && WellBehaved(s) && i < |ids|
    requires !NewActivitiesEffect(db, ids, i, s).exited
    ensures NewActivitiesEffect(db, ids, i + 1, s).db == ActivityEffect(NewActivitiesEffect(db, ids, i, s).db, ids[i], s).db
    ensures NewActivitiesEffect(db, ids, i + 1, s).exited == ActivityEffect(NewActivitiesEffect(db, ids, i, s).db, ids[i], s).exited
  {
  }

  /** How `strava_client.get_activities()` ends, as `main` sees it: with the
      activity records, with the rate-limit exit, or with an exception. */
  datatype Listing = Listed(records: seq<Record>) | ListingExit | ListingRaised(error: PyError)

  /** How `main` ends: normally, by SystemExit, or with an uncaught exception. */
  datatype Ending = Normal | Exit | Uncaught(error: PyError)

  /** `main`. The listing call is outside the try block, so an exit or an
      exception there ends `main` before any check. Inside the try block every
      exception is caught; the `finally` clause runs the discrepancy check
      whether the block completes or exits, and an exit then ends the process. */
  method RunPass(m: DatabaseManager, listing: Listing, s: Services) returns (report: Option<Report>, ending: Ending)
    requires m.Valid() && WellBehaved(s)
    modifies m
    ensures m.Valid()
    ensures !listing.Listed? ==> m.db == old(m.db) && report == None
    ensures listing == ListingExit ==> ending == Exit
    ensures listing.ListingRaised? ==> ending == Uncaught(listing.error)
    ensures listing.Listed? ==>
              && Run(m.db, ending == Exit) == PassEffect(old(m.db), listing.records, s)
              && (ending != Exit ==> ending == Normal)
    ensures listing.Listed? ==> report == Some(m.CheckDiscrepancies())
  {
    match listing
    case ListingExit => return None, Exit;
    case ListingRaised(e) => return None, Uncaught(e);
    case Listed(activities) =>
      ending := Normal;
      if |activities| == 0 {
        report := Some(m.CheckDiscrepancies());
        return;
      }
      var df := FromRecords(activities);
      if IsEmpty(df) {
        report := Some(m.CheckDiscrepancies());
        return;
      }
      var processed := s.processActivities(df);
      if processed.Ok? {
        var cached := m.IdsFromCache();
        if HasColumn(processed.value, "id") {
          var newDf := NewFrame(processed.value, cached);
          var ids := NewIds(processed.value, cached);
          if |ids| > 0 {
            assert "activities" in AllowedTables;
            NewIdsInFrameOrder(processed.value, cached);
            var _ := m.InsertDataFrame(Some(newDf), "activities");
            var exited := ProcessNewActivities(m, ids, s);
            if exited {
              ending := Exit;
            }
          }
        }
      }
      report := Some(m.CheckDiscrepancies());
  }
}
