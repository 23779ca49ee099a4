# Strava analysis ETL: a Dafny model of its core

The repository is a personal ETL script. It pulls the athlete's activities
from the Strava API page by page, keeps an eye on the API's rate-limit
headers, and flattens each new activity's details into rows. Those details
are splits, heart-rate and power zones, best efforts and streams. The rows
go into SQLite tables, and the script reports which activities still lack
zones, splits or a cache entry. A second path rounds start times to the
hour, splits the `lat_lng` text and picks the matching hour out of a
weather response.

This project models that core:

- `StravaApi`: the pagination loop of `get_activities`, the rate-limit
  decision of `check_rate_limit`, and the error behaviour of `make_request`.
  The loop is a method over a finite sequence of pages.
- `Queries`: the table allow-list, the schemas and primary keys of
  `CREATE_ALL_TABLES`, and a model of what SQLite does with the statements
  the code sends (`INSERT`, `INSERT OR IGNORE`, `INSERT OR REPLACE`,
  `SELECT ... WHERE`, `UPDATE ... WHERE`, `COUNT`, `DELETE`). `Execute` is
  that model, not SQLite itself. It covers parameter binding, where sqlite3
  refuses a list or a dict, and column affinity, so that the text "5" is
  stored in an INTEGER column as 5. It also covers the rowid a NULL
  INTEGER PRIMARY KEY gets, and the rule that NULLs in a composite key
  never collide. Every property proved about the store holds of this model.
- `RecordStore`: the `DatabaseManager` class of `src/db.py`, with the
  database as a field its methods update.
- `LegacyDb`: the per-record inserts of `src/database/db.py` (a `Store` class
  with three tables).
- `WeatherGap`: `extract_and_compare_ids`.
- `Sync`: `main`, `process_new_activities` and `process_individual_activity`
  of `main.py`. It has methods over a `DatabaseManager`, each tied to a
  function that states the pass's effect on the database.
- `Zones`, `BestEfforts`, `Splits`, `StreamsRow`: the payload flatteners in
  `src/models/`.
- `StreamClient`: both stream clients (`src/clients/streams_client.py` and
  its near-duplicate `src/clients/streams.py`).
- `WeatherClient`, `Processing`, `Utils`: hour rounding, the hourly-weather
  lookup, the `lat_lng` split, the column transforms, and `format_date`.

Shared modules:

- `Values`: Python values, results and exceptions.
- `PyStr`: `str.split`, `str.join`, `int()`.
- `Strptime`: the `strptime` directives the code uses.
- `Frames`: a DataFrame as column labels over positional rows.

The HTTP transport, the weather API, `json.dumps`, the date/time library
steps and the functions the code imports but does not define are function
parameters. Sleeps become a returned decision, and `sys.exit` becomes an
ending that the callers pass on, as `SystemExit` passes their
`except Exception` clauses.

## Model

| member | source | states |
|---|---|---|
| StravaApi.CheckRateLimit | src/api/strava_api.py:127-152 | no response means proceed with no sleep; a 429 sleeps five minutes first and only then are the headers read; daily usage of 1000 or more exits; otherwise short usage of 99 or more adds one fifteen-minute sleep and the caller proceeds |
| StravaApi.MissingHeaderIsZeroUsage | src/api/strava_api.py:137-140 | a response without `X-RateLimit-Usage` is judged as usage "0,0" |
| StravaApi.UsageHeaderRoundTrip | src/api/strava_api.py:137-140 | the header "s,d" reads back as the two counters s and d |
| StravaApi.ExitWinsOverPause | src/api/strava_api.py:146-152 | when the daily limit is reached the decision is Exit, even if the short window is also nearly used up |
| StravaApi.ShortWindowPausesOnce | src/api/strava_api.py:150-152 | short usage of 99 or more below the daily limit gives exactly one 900-second sleep, then Proceed |
| StravaApi.MakeRequest | src/api/strava_api.py:50-70 | a method other than GET/POST raises ValueError; a transport exception returns None; an answer runs the rate-limit check and then returns the body |
| StravaApi.TooManyRequestsIsNotRetried | src/api/strava_api.py:65-70 | a 429 answer below the daily limit is slept on for five minutes, then `raise_for_status` raises and the request ends as None; it is not sent again |
| StravaApi.FetchActivitiesShape | src/api/strava_api.py:83-103 | the loop stops at the first empty page, at the first page that reaches a truthy cap, or after the first short page; every earlier page was full and the cap was not yet reached |
| StravaApi.CapBoundsResult | src/api/strava_api.py:95-97 | with a positive cap the result has at most `max_activities` items |
| StravaApi.NoCapKeepsEverything | src/api/strava_api.py:92-95 | with a cap of None or 0, the result is the requested pages concatenated in order |
| StravaApi.GetActivities | src/api/strava_api.py:72-105 | the loop requests pages 1, 2, 3, … with the same `per_page`, one request per turn, and returns the fetch function's result for the pages it requested |
| Queries.AllowListHasEightNames | src/queries.py:3-12 | the allow-list has eight distinct names |
| Queries.SchemasCoverAllowList | src/queries.py:3-12 | `CREATE_ALL_TABLES` has a schema for exactly the allowed tables |
| Queries.SchemasValid | src/queries.py:19-115 | every schema has distinct columns and a primary key made of its own columns |
| Queries.PrimaryKeys | src/queries.py:22-112 | activities, weather, splits, streams and cache are keyed by `id`; gear by `gear_id`; best_efforts by (`id`, `name`); zones by (`id`, `zone_type`, `min_value`, `max_value`) |
| Queries.ApplyKeepsShape | src/queries.py:127-136 | in the model of SQLite's statements, every statement keeps its table's schema and leaves the table well formed with unique keys |
| Queries.ExecuteKeepsShape | src/queries.py:127-136 | in the model of SQLite's statements, every statement keeps each table well formed and touches no other table |
| Queries.ReadsChangeNothing | src/queries.py:132-142 | in the model of SQLite's statements, SELECT and COUNT leave the database as it was |
| Queries.InsertErrors | src/queries.py:127-129 | an INSERT that sqlite3 cannot prepare or bind (an unknown or repeated column, the wrong number of values, a list or dict value), or that puts a value other than an integer or NULL in an INTEGER PRIMARY KEY, is an error and changes nothing; every other INSERT stores a row |
| Queries.InsertOrIgnoreKeepsExisting | src/queries.py:127-129 | INSERT OR IGNORE of a row whose key holds no NULL and is already stored changes nothing; otherwise, a key holding a NULL included, the row is added after the stored ones |
| Queries.NullKeyAlwaysAdds | src/queries.py:110-114 | a key holding a NULL never collides, so every form of INSERT adds the row; in an INTEGER PRIMARY KEY table the row gets the next rowid, which no stored row has |
| Queries.NextRowidIsFresh | src/queries.py:110-114 | the rowid given to a NULL id is 1 in an empty table and otherwise one more than a stored rowid, and it differs from every stored rowid |
| Queries.InsertOrReplaceStoresRow | src/queries.py:13-16 | after INSERT OR REPLACE of a row whose key holds no NULL, that key reads the new row, every other key reads as before, and the table grows only when the key was new |
| Queries.InsertIdempotent | src/queries.py:13-16 | running the same INSERT OR IGNORE or INSERT OR REPLACE twice has the effect of running it once exactly when its key holds no NULL; a NULL key adds one more row each time |
| Queries.IntegerTextRoundTrip | src/queries.py:110-114 | a 64-bit integer written to a TEXT column becomes its decimal text, and that text converts back to the same integer in an INTEGER column |
| Queries.TextIdMatchesIntegerId | src/queries.py:110-114 | by INTEGER affinity the text "5" is the same cache key as the integer 5: INSERT OR IGNORE of "5" changes nothing, and `WHERE id = ?` with "5" finds the row 5 |
| Queries.SelectWhereFinds | src/database/db.py:152-153 | `SELECT ... WHERE column = ?` returns exactly the stored rows whose column equals the parameter after the column's conversion; a None parameter finds nothing |
| Queries.UnboundParameterFails | src/database/db.py:152-160 | a list or dict parameter makes a SELECT or an UPDATE an error that changes nothing |
| Queries.UpdateWhereEffect | src/database/db.py:156-171 | an UPDATE keeps the row count; a failing one changes nothing; a successful one assigns the listed columns of exactly the matching rows; a None parameter matches no row, so nothing changes |
| Queries.DeleteAllEmpties | src/queries.py:134 | DELETE leaves its table with no rows and fetches nothing |
| RecordStore.ValidateTable | src/db.py:44-46 | accepts exactly the allowed names; any other name is a ValueError |
| RecordStore.SelectIds | src/db.py:64-78 | the first column of a SELECT, or [] when the table or column is missing |
| RecordStore.MissingFromMembers | src/db.py:86-88 | an element is reported iff it is in the first list and not in the second |
| RecordStore.MissingFromAppend | src/db.py:86-88 | the comprehension keeps the order of the first list |
| RecordStore.InsertOrIgnoreGrows | src/db.py:151-152 | one INSERT OR IGNORE only appends to its table; afterwards the row is stored under its key or the statement failed, unless its key holds a NULL |
| RecordStore.InsertRowsSettles | src/db.py:150-152 | after the loop, every row whose key holds no NULL is stored under its key or fails; a failing row does not stop the later ones |
| RecordStore.InsertRowsAddsNullKeys | src/db.py:150-152 | a row whose key holds a NULL makes the table longer every time the loop runs |
| RecordStore.InsertRowsIdempotent | src/db.py:144-152 | inserting the same frame a second time changes nothing exactly when no row's key holds a NULL |
| RecordStore.InsertRowsKeepsExisting | src/db.py:144-152 | the loop touches only the named table and keeps its existing rows unchanged and in place |
| RecordStore.UnknownColumnChangesNothing | src/db.py:150-152 | a column the table lacks makes every row fail; errors are swallowed and nothing changes |
| RecordStore.DatabaseManager.ExecuteQuery | src/db.py:29-42 | the new database is SQLite's effect of the statement, and the rows are the fetched rows, or [] after an error |
| RecordStore.DatabaseManager.UpdateCache | src/db.py:60-62 | the database becomes the effect of `INSERT_ID_TO_CACHE` with the id |
| RecordStore.UpdateCacheIdempotent | src/db.py:60-62 | caching an id twice gives the same store as caching it once exactly when the id is not None |
| RecordStore.UpdateCacheAddsId | src/db.py:60-62 | caching changes no other table, and an id the INTEGER column stores as an integer joins the set of cached ids |
| RecordStore.UpdateCacheNull | src/db.py:60-62 | caching None appends the next rowid, which no cached id has |
| RecordStore.UpdateCacheRejected | src/db.py:60-62 | a list or dict id, or one the INTEGER column does not turn into an integer, is an error that is swallowed, and nothing changes |
| RecordStore.DatabaseManager.CheckDiscrepancies | src/db.py:80-88 | an id is reported missing from zones, splits or cache exactly when the activities getter returns it and that table's getter does not |
| RecordStore.DatabaseManager.CheckDiscrepanciesIntended | src/db.py:80-88 | with each getter reading its own table, an id is reported missing exactly when it is an activity id and not an id of that table |
| RecordStore.CheckDiscrepanciesReportsNothing | src/db.py:64-88 | as written, every getter reads the cache, so all three lists are empty |
| RecordStore.DatabaseManager.RowCount | src/db.py:100-103 | the row count of an existing table, and 0 when the query fails |
| RecordStore.DatabaseManager.ClearCache | src/db.py:105-116 | "y" or "Y" runs `DELETE FROM cache`; any other answer changes nothing |
| RecordStore.DatabaseManager.InsertDataFrame | src/db.py:123-155 | an unlisted table raises ValueError before the empty check; None or an empty frame writes nothing; otherwise the rows are inserted one by one with INSERT OR IGNORE |
| LegacyDb.CheckThenInsertEffect | src/database/db.py:104-108 | a parameter sqlite3 cannot bind raises; an id the SELECT finds leaves the table unchanged; otherwise the values' own error, or a failing INSERT, raises, or the row is appended |
| LegacyDb.CheckThenInsertIdempotent | src/database/db.py:104-108 | after a successful check-then-insert, a repeat changes nothing exactly when the id is not None |
| LegacyDb.ActivityInsertFails | src/database/db.py:110-139 | the activity INSERT fails exactly when a field is a list or a dict, or when the id is not None and does not convert to an integer |
| LegacyDb.StoreActivityEffect | src/database/db.py:100-143 | an unbindable id raises; an id found after INTEGER conversion leaves the table unchanged; otherwise a failing `int(indoor)` raises its error, a failing INSERT raises, or the activity row is appended |
| LegacyDb.StoredActivityRow | src/database/db.py:110-139 | the stored row holds the id as an integer, or the next rowid for None, `int(indoor)` in the `indoor` column, and every other field converted by its column's affinity |
| LegacyDb.StoreActivityAppends | src/database/db.py:108-139 | a successful insert of an id not yet present appends exactly the stored activity row |
| LegacyDb.IndoorStoredAsBit | src/database/db.py:126 | a boolean `indoor` is converted to 1 or 0 and stored as that number |
| LegacyDb.StoreActivityIdempotent | src/database/db.py:100-143 | after a successful insert, inserting the same activity again changes nothing exactly when the id is not None |
| LegacyDb.TextIdFindsActivity | src/database/db.py:105-108 | an id given as the decimal text of a stored integer id is found, so the activity is not added again |
| LegacyDb.WeatherInsertFails | src/database/db.py:205-220 | the weather INSERT fails exactly when a field is a list or a dict, or when the id is not None and does not convert to an integer |
| LegacyDb.StoreWeatherEffect | src/database/db.py:195-226 | an unbindable id raises; a found id leaves the table unchanged; otherwise a failing INSERT raises or the weather row is appended |
| LegacyDb.StoredWeatherRow | src/database/db.py:205-220 | the stored row holds the id as an integer, or the next rowid for None, and every other field converted by its column's affinity |
| LegacyDb.StoreWeatherIdempotent | src/database/db.py:195-226 | after a successful insert, inserting the same weather again changes nothing exactly when the id is not None |
| LegacyDb.GearUpdate | src/database/db.py:155-171 | a found gear id makes the UPDATE overwrite that one row with the gear row, or fail when a value cannot be bound |
| LegacyDb.GearInsert | src/database/db.py:173-188 | an absent gear id makes the INSERT append the gear row, or fail when a value cannot be bound |
| LegacyDb.StoreGearEffect | src/database/db.py:146-192 | an unbindable gear id raises; then a failing `int(retired)` raises its error; then an unbindable value raises; otherwise a gear id other than None reads the gear row, every other key reads as before, and the table grows only for a new id; a None gear id is never found and the row is appended |
| LegacyDb.StoreGearIdempotent | src/database/db.py:146-192 | after a successful call, storing the same gear again changes nothing exactly when the gear id is not None |
| LegacyDb.Store.constructor | src/database/db.py:26-97 | the three tables are created empty with their schemas |
| LegacyDb.Store.InsertActivity | src/database/db.py:100-143 | succeeds exactly when `StoreActivity` does; then the activities table becomes its result, and on an error it is unchanged; gear and weather are unchanged |
| LegacyDb.Store.InsertGear | src/database/db.py:146-192 | the gear table becomes `StoreGear` of the old one, or is unchanged on an error; the other tables are unchanged |
| LegacyDb.Store.InsertWeather | src/database/db.py:195-226 | the weather table becomes `StoreWeather` of the old one, or is unchanged on an error; the other tables are unchanged |
| WeatherGap.ExtractIds | src/database/queries.py:32-43 | the ids of the table, or [] when the read fails |
| WeatherGap.ExtractAndCompareIds | src/database/queries.py:29-71 | the set of activity ids that are not weather ids |
| WeatherGap.NoGapIffCovered | src/database/queries.py:55-63 | the result is empty iff every activity id is a weather id |
| WeatherGap.FailedWeatherReadReportsAll | src/database/queries.py:40-55 | a failed weather read reports every activity id |
| WeatherGap.AgreesWithMissingFrom | src/database/queries.py:55 | as a set, the result equals the order-keeping comprehension of `check_discrepancies` |
| WeatherGap.GapIdsAreStored | src/database/queries.py:55 | the result has no more ids than the activities table has rows, and every id in it is the `id` of a stored activity row |
| Sync.NewIdsInFrameOrder | main.py:33-35 | the new ids are the ids of the rows whose id is not cached, in frame order |
| Sync.NoNewIdsIffAllCached | main.py:33-37 | there are no new ids iff every id of the processed frame is cached |
| Sync.StoreNewActivities | main.py:37-39 | the activities table after a pass is the insert of exactly the new rows |
| Sync.AllCachedStoresNothing | main.py:37-42 | with no new ids, nothing is inserted and no detail is fetched |
| Sync.FalsyDetailSkipped | main.py:55-59 | an empty or None detail leaves the store as it was |
| Sync.IndividualTouchesOnlyDetails | main.py:68-83 | one activity's processing writes only to splits, zones and best_efforts |
| Sync.NewActivitiesTouchOnlyDetails | main.py:51-65 | the per-id loop writes only to those tables, whatever raises on the way |
| Sync.PassTouchesOnlyWrittenTables | main.py:17-48 | a pass writes only activities, splits, zones and best_efforts, and leaves the cache unchanged |
| Sync.MissingProcessStepStoresNothing | main.py:30-45 | when `process_activity_data` raises (it is missing from `Activity`), the pass stores nothing |
| Sync.ZonesCallStoresNoDetails | main.py:71-83 | when `Zones.process_zones` raises (it has one parameter, not two), no activity stores any details |
| Sync.ProcessIndividualActivity | main.py:68-83 | the new store is the activity's effect: splits, zones and best efforts are all built before the first insert, so a step that raises or a zones request that exits stores nothing; otherwise the three frames are inserted in that order; the exit is returned |
| Sync.ProcessNewActivities | main.py:51-65 | the new store is the fold of the per-id effect over the new ids, in order, up to the id that exits; a falsy detail is skipped, and a detail that is not a dict stores nothing because `process_splits` then raises on the missing `id` |
| Sync.ExitStoresNothing | main.py:53-62 | an id whose detail or zones request exits stores nothing, since both requests come before the first insert |
| Sync.ExitStopsTheLoop | main.py:51-65 | once an id exits, `SystemExit` passes the `except Exception` clause and no later id is processed: the store stays as it was before that id |
| Sync.ExitedAtOneId | main.py:51-65 | a finished loop met no exit; an exited loop exited at exactly one id and holds what the ids before it stored |
| Sync.DetailRequestEnds | main.py:53-65 | a detail request that raises stores nothing and the loop goes on; one that reaches the daily limit exits |
| Sync.RunPass | main.py:17-48 | the listing call is outside the try block, so an exit or an error there ends `main` with nothing stored and no report; otherwise the new store is the pass's effect, the pass exits exactly when an id's requests exit, and the discrepancy report is taken in the `finally` clause on every path |
| Zones.ParseActivityZones | src/models/zones.py:74-108 | returns the frame of the zone records; a non-list raises ValueError |
| Zones.ParsedCount | src/models/zones.py:90-106 | one record per bucket of every zone whose buckets are a list |
| Zones.ParsedPrefix | src/models/zones.py:90-106 | records are in zone order, then in bucket order |
| Zones.ParsedRecordsShape | src/models/zones.py:98-105 | every record has the five keys in order and carries the given activity id |
| Zones.SkippedZone | src/models/zones.py:92-96 | a zone whose buckets are not a list adds no record; a zone without buckets adds none |
| Zones.ZoneRecordsFromBuckets | src/models/zones.py:92-105 | a zone's records copy `min`, `max` and `time` from its buckets, in order, under the zone's type, which is "unknown" when the zone has none |
| Zones.NotAListRaises | src/models/zones.py:87-88 | a payload that is not a list raises ValueError |
| Zones.ParsedFrame | src/models/zones.py:108 | with at least one record, the frame has the five columns and row k holds record k |
| Zones.SavedKeysAreSavedRows | src/models/zones.py:51-62 | when no save raises, the returned keys are (`activity_id`, `zone_type`) of exactly the zones whose save returned true, in row order |
| Zones.SaveFailureSticks | src/models/zones.py:51-62 | a save that raises ends the loop with its error, and the zones after it are not saved |
| Zones.MissingInsertZoneRaises | src/models/zones.py:26-30 | `save_to_db` imports `insert_zone`, which the database module does not define, so the first zone raises ImportError and so does the loop |
| Zones.SaveZones | src/models/zones.py:51-62 | the loop returns the keys of the zones whose save returned true, or the error of the first save that raises |
| Zones.ProcessZones | src/models/zones.py:46-72 | an empty frame raises at the summary's row 0 (IndexError, or KeyError without `activity_id`); a missing column raises KeyError; otherwise the loop's result, saved keys or the first save's error, is returned |
| BestEfforts.FirstTen | src/models/best_efforts.py:40 | a string or list is cut to its first ten items; anything else cannot be sliced |
| BestEfforts.BestEffortsCount | src/models/best_efforts.py:37-49 | one row per effort, in input order |
| BestEfforts.BestEffortsErrors | src/models/best_efforts.py:37-49 | the call raises exactly when some effort lacks a subscripted field |
| BestEfforts.BestEffortsRows | src/models/best_efforts.py:39-46 | `id` is the nested `activity.id`, `date` the first ten characters, `time` the moving time, and a None rank becomes 0 |
| BestEfforts.ProcessList | src/models/best_efforts.py:31-54 | on a list whose efforts all have their subscripted fields, the result is the frame of the efforts' records in input order; the locally dumped list plays no part |
| BestEfforts.ProcessListFirstFailure | src/models/best_efforts.py:37-49 | the first effort that lacks a subscripted field decides the error, and the efforts after it are not looked at |
| Splits.SerializedIsScalar | src/models/splits.py:48-50 | a serialised cell is never a list or a dict; a cell changes exactly when it is one, and then holds its JSON text |
| Splits.SplitRowsAreKeptRows | src/models/splits.py:35-58 | output row k is built from the k-th row whose `splits_metric` is not None, so the output never has more rows than the input |
| Splits.ProcessSplits | src/models/splits.py:31-65 | the loop returns the frame of the kept rows under the five columns; a missing `id` or `sport_type` raises KeyError |
| StreamsRow.AssignKeyOrder | src/models/streams.py:34-36 | `d[k] = v` keeps an existing key in place and appends a new one |
| StreamsRow.AssignLookup | src/models/streams.py:34-36 | after the assignment k holds v and every other key is unchanged |
| StreamsRow.ParseStreamsCompact | src/models/streams.py:17-39 | the loop returns the one-row frame of the compact record; a non-dict response raises, and so does an id that `int()` refuses |
| StreamsRow.CompactKeySet | src/models/streams.py:28-36 | the row's keys are `activity_id` and the response keys |
| StreamsRow.CompactValues | src/models/streams.py:31-36 | each stream type holds its data when that is a list, and None otherwise |
| StreamsRow.CompactOneRow | src/models/streams.py:28-39 | the result is exactly one row carrying `int(activity_id)` |
| StreamsRow.CompactErrors | src/models/streams.py:28-31 | a non-dict response and an id `int()` refuses both raise |
| StreamClient.GetStreams | src/clients/streams_client.py:14-35 | a ValueError iff some requested type is not one of the eleven; otherwise one request for the comma-joined types |
| StreamClient.RejectedBeforeRequest | src/clients/streams_client.py:27-30 | an invalid type is refused whatever the API would answer |
| StreamClient.RequestCarriesTypes | src/clients/streams_client.py:32-35 | the `keys` text splits back into the requested types, in order |
| StreamClient.GettersOutcome | src/clients/streams_client.py:37-59 | each typed getter requests its one type; `get_pace_stream` always raises ValueError |
| StreamClient.LegacyGettersNeverRaise | src/clients/streams.py:35-54 | none of the seven getters of the older client raises |
| StreamClient.ExtractStreamData | src/clients/streams_client.py:66-75 | raises ValueError iff the streams are not a dict |
| StreamClient.ExtractStreamDataCases | src/clients/streams.py:57-66 | a missing, empty or non-dict entry gives []; a non-empty dict entry gives its "data", or [] when that is absent |
| StreamClient.BucketRow | src/clients/streams_client.py:88-95 | a bucket that is not a dict raises; otherwise the row has the four keys and the zone's type |
| StreamClient.ParseActivityZones | src/clients/streams_client.py:78-97 | the nested loop returns the frame the zone rows make; a non-list raises ValueError |
| StreamClient.GetParsedActivityZones | src/clients/streams_client.py:99-102 | parses the answer of the zones endpoint |
| StreamClient.ZonesRows | src/clients/streams_client.py:84-95 | every row the zones give has the four keys |
| StreamClient.ZoneTypeOfRows | src/clients/streams_client.py:85 | every row of a zone carries its type, None when the type is missing |
| StreamClient.ZonesFrameErrors | src/clients/streams_client.py:80-81 | a non-list raises ValueError; an empty list gives the empty frame |
| StreamClient.ZonesFrameRows | src/clients/streams_client.py:83-97 | the frame has one row per bucket, holding that bucket's record |
| StreamClient.AllStreamsKeys | src/clients/streams_client.py:104-121 | for a dict response, the keys are the valid types present in it, distinct and in list order, each holding its extracted data |
| StreamClient.AllStreamsEdges | src/clients/streams_client.py:109-111 | an empty response gives {}; an invalid type raises before any request |
| WeatherClient.RoundTime | src/clients/weather_client.py:53-63 | a ValueError iff the text is not a "%H:%M" time |
| WeatherClient.RoundsToNearestHour | src/clients/weather_client.py:58-63 | a minute of 30 or more rounds up, otherwise down; the hour wraps past 23 and the minutes are "00" |
| WeatherClient.LateEveningWraps | src/clients/weather_client.py:58-63 | 23:30 to 23:59 round to "00:00" |
| WeatherClient.RoundTimeIdempotent | src/clients/weather_client.py:58-63 | rounding a rounded time changes nothing |
| WeatherClient.WeatherAt | src/clients/weather_client.py:34-41 | the six values at one index, in order; it fails iff one of them cannot be read |
| WeatherClient.NoPayloadNoWeather | src/clients/weather_client.py:17-19 | no payload, a None payload, or a dict payload without "hourly" gives None |
| WeatherClient.UnparsedStartNoWeather | src/clients/weather_client.py:21-26 | a start that does not parse gives None |
| WeatherClient.MatchingHourWeather | src/clients/weather_client.py:28-46 | when the rounded start is among the hourly times, the values at its first index; otherwise None |
| WeatherClient.LatLngParts | src/clients/weather_client.py:66-72 | a non-string raises AttributeError; otherwise two parts exactly when the split on ", " has two pieces, and None otherwise |
| WeatherClient.LatLngRoundTrip | src/clients/weather_client.py:67 | "lat, lng" splits back into lat and lng |
| WeatherClient.LatLngEdges | src/clients/weather_client.py:65-72 | text without ", " gives None and no request; "0, 0" gives ("0", "0") |
| Processing.RenameByMap | src/models/processing.py:7-30 | a map with distinct sources renames exactly the listed labels, each to its target, and keeps every cell |
| Processing.RenameTargetsFresh | src/models/processing.py:9-29 | no target of either map is one of its sources |
| Processing.ActivityRenameExact | src/models/processing.py:7-18 | `rename_activity_columns` renames exactly its six labels and keeps the rest |
| Processing.WeatherRenameExact | src/models/processing.py:21-30 | `rename_weather_columns` renames exactly its four labels and keeps the rest |
| Processing.SetColumnCells | src/models/processing.py:56-63 | after `df[name] = values` the label reads the new cells and every other label reads the old ones |
| Processing.SplitNeedsDateAndDuration | src/models/processing.py:53-54 | a missing "date" or "duration" raises ValueError |
| Processing.SplitDatetimeShape | src/models/processing.py:56-63 | the existing columns keep their places and the four derived columns are added |
| Processing.SplitDatetimeCells | src/models/processing.py:56-63 | each row's five derived cells are the conversion of its own date and duration; the other cells are unchanged |
| Processing.ReplaceLatLng | src/models/processing.py:68-78 | a missing `lat_lng` raises KeyError; otherwise the shape is kept |
| Processing.ReplaceLatLngCells | src/models/processing.py:73-77 | a non-empty list becomes its items joined by ", ", anything else "0, 0"; no other cell changes |
| Processing.LatLngFeedsWeatherRequest | src/models/processing.py:73-77 | the text written splits back into its two coordinates for the weather request, or into ("0", "0") |
| Processing.SportFilter | src/models/processing.py:94 | a missing `sport_type` raises KeyError; the columns are kept |
| Processing.SportFilterRows | src/models/processing.py:94 | the kept rows are exactly the Ride and Run rows, in order |
| Processing.ActivityInputErrors | src/models/processing.py:92-94 | a non-DataFrame raises TypeError; a frame without `sport_type` raises KeyError |
| Processing.ActivityOutputShape | src/models/processing.py:96-131 | every one of the nineteen listed columns is in the frame the transforms leave and the row count is kept; the result has exactly those columns, in order, only when that frame's labels are distinct |
| Processing.WeatherMappingSkipped | src/models/processing.py:143-146 | without a `weather_code` column the code mapping is not applied |
| Processing.WeatherOutputShape | src/models/processing.py:134-153 | a non-DataFrame raises TypeError; on success every one of the eight listed columns is in the renamed frame and the row count is kept; the result has exactly those columns, in order, only when the renamed labels are distinct |
| Utils.FormatDate | src/utils.py:6-10 | a ValueError iff the date part is not a valid "%Y-%m-%d" |
| Utils.DatePartOfStamp | src/utils.py:8 | the date part is the text before the first "T" |
| Utils.DatePartWhole | src/utils.py:8 | without a "T" the whole text is the date part |
| Utils.TimeIgnored | src/utils.py:8-10 | the time of day never changes the result |
| Utils.FormatsValidDate | src/utils.py:9-10 | a valid date prints as "D. Mon YYYY", and the day has no leading zero |

## Left out

- HTTP, OAuth and the weather API: `refresh_access_token`, the `requests` calls, and `get_detailed_activity`, `get_activity_zones` and the other thin endpoints. Answers are parameters, and the `Transport` of `MakeRequest` stands for one request's outcome.
- `time.sleep` and `sys.exit`: `CheckRateLimit` returns the sleeps and the ending instead of performing them; `Sync` carries the exit up to `main` as a flag.
- SQLite's REAL and NUMERIC affinities and every conversion of a float: floats are text here, so the model gives REAL columns no conversion.
- Integer text with leading or trailing spaces: it stays text in the model, although SQLite's INTEGER affinity would convert it.
- Python integers beyond 64 bits: sqlite3 raises OverflowError when binding one, while the model binds it; integer text beyond 64 bits stays text, as in SQLite.
- The order of a SELECT without ORDER BY: it is taken to be storage order, which SQLite does not promise.
- An UPDATE that names a column twice: the first assignment wins in the model; nothing in the code sends one.
- INSERT OR REPLACE keeps the replaced row's place in the model; SQLite deletes the old row and adds a new one, which changes only the scan order.
- NaN: the NaN pandas puts where a record lacks a key is `Frames.NaN`, the float text "nan", and `Queries.Bind` passes it through unchanged, whereas sqlite3 stores a NaN as NULL. So a missing field is stored as that float rather than NULL, and two NaNs in a key column would collide in the model but not in SQLite. pandas' dtype inference (None becoming NaN, integers becoming floats in such columns) is not modelled either.
- The projection lists of `SELECT 1` and `SELECT *`: each `WHERE` query returns whole rows, and only whether a row came back is used.
- The `from models.gear import Gear` import at the top of `insert_gear`: its outcome is outside the modelled files, so it is taken to succeed.
- Connections and `commit`: each statement takes effect at once; an error leaves its table as it was.
- LegacyDb.IndoorStoredAsBit: it is stated about the stored row of a table with the activities schema; that the row is what gets appended is `StoreActivityAppends`.
- SQLite connections, file paths and DDL execution: `connect_db`, `create_*_table`, `create_all_tables` and `get_table_data`. The database is a value of `Queries.Database`, with the schemas of `CREATE_ALL_TABLES` as data.
- `get_weather_params_from_db` and `ADD_WEATHER_DATA`: nothing in the modelled core uses them.
- The interactive prompt of `clear_cache`: its answer is a parameter.
- `json.dumps`: an uninterpreted function parameter.
- Floating point: `convert_units`, `replace_nan_with_mean`, and the weather values. Floats are carried as their text and never computed with.
- `pd.to_datetime`, `strftime` and the weekday names in `split_datetime_columns`: one conversion per row (`toParts`), which can raise.
- `map_months`, `map_weather_codes`, `VALID_STREAM_TYPES` from `src.utils`, and `insert_zone`, `insert_split` and `insert_stream`: they are imported but not defined in the repository's files, so they are parameters. `AllStreams` takes the imported stream-type list as an argument.
- `Activity.process_activity_data` and the two-argument `Zones.process_zones` that `main.py` calls: both are missing or mismatched in the source, so they are `Services` parameters.
- `get_weather_data` and `extract_weather_info`: they mutate `self.df` column by column through pandas `apply`. The per-row functions they apply are modelled.
- `src/clients/strava_client.py`, `src/api/weather_api.py`, the record classes in `src/models/activity.py`, `weather.py`, `split.py` and `gear.py`, `src/constants.py` and `log_new_activity_details` are not part of this model.
- Logging throughout.
- Processing.SetColumn: a label that occurs twice is assigned through its first column only; pandas would assign every column with that label.
- Processing.SplitDatetimeColumns: it is modelled on values. The in-place update of the caller's DataFrame, and its aliasing, are not represented.
- Utils.FormatDate: the year is printed as glibc's `%Y` prints it, without padding below 1000; other C libraries pad it to four digits.
- Zones.ProcessZones: `save_to_db` is a parameter that answers per zone, with a result or an exception; `insert_zone` is not defined in the repository, so what it would write is not modelled (`MissingInsertZoneRaises` states the outcome with the files as they are).

## Findings

| source | as written | input that shows it | evidently intended | confidence | as-written member | corrected member |
|---|---|---|---|---|---|---|
| src/db.py:68-78 | `get_ids_from_zones`, `get_ids_from_splits` and `get_ids_from_activities` all run `GET_CACHED_IDS`, so `check_discrepancies` compares the cache with itself and never reports a gap | a store whose activities table holds activity 1, whose cache holds 1, and whose zones and splits tables are empty: nothing is reported | each getter reads its own table (`GET_ZONES_IDS`, `GET_SPLITS_IDS`, `GET_ACTIVITIES_IDS`), so activity 1 is reported as missing zones and splits | not executed | RecordStore.DiscrepancyMissed | RecordStore.DatabaseManager.CheckDiscrepanciesIntended |
