/**
 * `BestEfforts.process_best_efforts`: one record per effort, built by a list
 * comprehension and turned into a DataFrame. The `json.dumps` of the input and
 * the `activity_id` argument feed only a local list that is never used, so
 * neither appears here.
 */
module BestEfforts {
  import opened Values
  import opened PyStr
  import opened Frames

  const BestEffortColumns: seq<string> := ["id", "date", "name", "distance", "time", "pr_rank"]

  /** `v[:10]`: a str or a list is cut; anything else cannot be sliced. */
  function FirstTen(v: Value): (r: Result<Value>)
    ensures v.VStr? ==> r == Ok(VStr(Prefix(v.s, 10)))
    ensures v.VList? ==> r == Ok(VList(Prefix(v.items, 10)))
    ensures !(v.VStr? || v.VList?) ==> r == Err(TypeError)
  {
    match v
    case VStr(s) => Ok(VStr(Prefix(s, 10)))
    case VList(xs) => Ok(VList(Prefix(xs, 10)))
    case _ => Err(TypeError)
  }

  lemma BestEffortColumnsDistinct()
    ensures Distinct(BestEffortColumns)
  {
  }

  /** The record the dict display builds. */
  function EffortRow(id: Value, date: Value, name: Value, distance: Value, time: Value, prRank: Value): (r: Record)
    ensures Keys(r) == BestEffortColumns
  {
    var r := [("id", id), ("date", date), ("name", name), ("distance", distance), ("time", time), ("pr_rank", prRank)];
    assert Keys(r) == [r[0].0] + Keys(r[1..]);
    r
  }

  /** Every subscript the dict display makes succeeds. */
  predicate Fetchable(effort: Value)
  {
    && GetItem(effort, "activity").Ok?
    && GetItem(GetItem(effort, "activity").value, "id").Ok?
    && GetItem(effort, "start_date_local").Ok?
    && FirstTen(GetItem(effort, "start_date_local").value).Ok?
    && GetItem(effort, "name").Ok?
    && GetItem(effort, "distance").Ok?
    && GetItem(effort, "moving_time").Ok?
    && GetItem(effort, "pr_rank").Ok?
  }

  /** A None rank is stored as 0. */
  function RankOrZero(v: Value): Value
  {
    if v == VNone then VInt(0) else v
  }

  /** The record for one effort, its lookups in the order the dict display
      evaluates them; the first failing subscript raises. The id comes from the
      effort's own activity, the date is the first ten characters of the local
      start, and a None rank is stored as 0. */
  function EffortRecord(effort: Value): (r: Result<Record>)
    ensures r.Ok? <==> Fetchable(effort)
    ensures r.Ok? ==> Keys(r.value) == BestEffortColumns
    ensures r.Ok? ==> r.value == EffortRow(
              GetItem(GetItem(effort, "activity").value, "id").value,
              FirstTen(GetItem(effort, "start_date_local").value).value,
              GetItem(effort, "name").value,
              GetItem(effort, "distance").value,
              GetItem(effort, "moving_time").value,
              RankOrZero(GetItem(effort, "pr_rank").value))
  {
    var activity :- GetItem(effort, "activity");
    var id :- GetItem(activity, "id");
    var start :- GetItem(effort, "start_date_local");
    var date :- FirstTen(start);
    var name :- GetItem(effort, "name");
    var distance :- GetItem(effort, "distance");
    var time :- GetItem(effort, "moving_time");
    var prRank :- GetItem(effort, "pr_rank");
    Ok(EffortRow(id, date, name, distance, time, RankOrZero(prRank)))
  }

  /** `process_best_efforts`: iterating a non-iterable is a TypeError. */
  function ProcessBestEfforts(efforts: Value): Result<Frame>
  {
    var items :- Iterate(efforts);
    var records :- MapAll(EffortRecord, items);
    Ok(FromRecords(records))
  }

  /** On a list whose efforts all have their fields, the frame is built from
      the records of the efforts, in input order. */
  lemma ProcessList(efforts: seq<Value>)
    requires forall i :: 0 <= i < |efforts| ==> Fetchable(efforts[i])
    ensures ProcessBestEfforts(VList(efforts)) ==
              Ok(FromRecords(seq(|efforts|, i requires 0 <= i < |efforts| => EffortRecord(efforts[i]).value)))
  {
    var records := MapAll(EffortRecord, efforts).value;
    assert records == seq(|efforts|, i requires 0 <= i < |efforts| => EffortRecord(efforts[i]).value);
  }

  /** The first effort that lacks a subscripted field decides the error that
      is raised; the efforts after it are never looked at. */
  lemma ProcessListFirstFailure(efforts: seq<Value>, i: nat)
    requires i < |efforts| && !Fetchable(efforts[i])
    requires forall j :: 0 <= j < i ==> Fetchable(efforts[j])
    ensures ProcessBestEfforts(VList(efforts)) == Err(EffortRecord(efforts[i]).error)
  {
    MapAllFirstFailure(EffortRecord, efforts, i);
  }

  /** One row per effort, in input order, and an empty list gives the empty frame. */
  lemma BestEffortsCount(efforts: seq<Value>)
    requires ProcessBestEfforts(VList(efforts)).Ok?
    ensures WellFormed(ProcessBestEfforts(VList(efforts)).value)
    ensures |ProcessBestEfforts(VList(efforts)).value.rows| == |efforts|
    ensures |efforts| == 0 ==> ProcessBestEfforts(VList(efforts)).value == EmptyFrame()
  {
  }

  /** The call raises exactly when some effort lacks one of the subscripted
      fields, and a value that cannot be iterated is a TypeError. */
  lemma BestEffortsErrors(efforts: Value)
    ensures !(efforts.VList? || efforts.VDict? || efforts.VStr?) ==> ProcessBestEfforts(efforts) == Err(TypeError)
    ensures efforts.VList? ==>
              (ProcessBestEfforts(efforts).Err? <==> exists i :: 0 <= i < |efforts.items| && !Fetchable(efforts.items[i]))
  {
  }

  /** When every effort has its fields, the columns are the six keys and row i
      holds effort i's record, in input order. */
  lemma BestEffortsRows(efforts: seq<Value>)
    requires |efforts| > 0
    requires forall i :: 0 <= i < |efforts| ==> Fetchable(efforts[i])
    ensures ProcessBestEfforts(VList(efforts)).Ok?
    ensures ProcessBestEfforts(VList(efforts)).value.columns == BestEffortColumns
    ensures |ProcessBestEfforts(VList(efforts)).value.rows| == |efforts|
    ensures forall i :: 0 <= i < |efforts| ==>
              ProcessBestEfforts(VList(efforts)).value.rows[i] == FieldValues(EffortRecord(efforts[i]).value)
  {
    var records := MapAll(EffortRecord, efforts).value;
    forall i | 0 <= i < |records| ensures Keys(records[i]) == BestEffortColumns {
      assert EffortRecord(efforts[i]) == Ok(records[i]);
    }
    BestEffortColumnsDistinct();
    UniformFrame(records, BestEffortColumns);
  }
}
