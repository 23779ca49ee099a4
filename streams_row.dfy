/**
 * `Streams.parse_streams_to_dataframe_compact`: the stream payload of one
 * activity becomes a single row keyed by stream type. The row is built as a
 * dict, starting from the integer activity id and assigning one entry per
 * stream; a stream whose data is not a list is stored as None.
 */
module StreamsRow {
  import opened Values
  import opened PyStr
  import opened Frames

  /** `d[k] = v` on a dict: an existing key keeps its place and takes the new
      value, a new key goes at the end. */
  function Assign(fields: Record, k: string, v: Value): Record
  {
    if |fields| == 0 then [(k, v)]
    else if fields[0].0 == k then [(k, v)] + fields[1..]
    else [fields[0]] + Assign(fields[1..], k, v)
  }

  /** The keys after an assignment: unchanged when k was present, k appended otherwise. */
  lemma {:induction false} AssignKeyOrder(fields: Record, k: string, v: Value)
    ensures Keys(Assign(fields, k, v)) == if k in Keys(fields) then Keys(fields) else Keys(fields) + [k]
  {
    if |fields| > 0 {
      if fields[0].0 == k {
        AssignKeyOrderHere(fields, k, v);
      } else {
        AssignKeyOrder(fields[1..], k, v);
        AssignKeyOrderLater(fields, k, v);
      }
    }
  }

  /** Assigning to the first key leaves the keys as they are. */
  lemma AssignKeyOrderHere(fields: Record, k: string, v: Value)
    requires |fields| > 0 && fields[0].0 == k
    ensures Keys(Assign(fields, k, v)) == if k in Keys(fields) then Keys(fields) else Keys(fields) + [k]
  {
    assert Keys(fields)[0] == k;
    assert Keys(Assign(fields, k, v)) == Keys(fields);
  }

  /** Assigning past the first key keeps it in front of the rest's keys. */
  lemma AssignKeyOrderLater(fields: Record, k: string, v: Value)
    requires |fields| > 0 && fields[0].0 != k
    requires var rest := fields[1..];
             Keys(Assign(rest, k, v)) == if k in Keys(rest) then Keys(rest) else Keys(rest) + [k]
    ensures Keys(Assign(fields, k, v)) == if k in Keys(fields) then Keys(fields) else Keys(fields) + [k]
  {
    var rest := Assign(fields[1..], k, v);
    assert Assign(fields, k, v) == [fields[0]] + rest;
    KeysCons([fields[0]] + rest);
    KeysCons(fields);
    assert k in Keys(fields) <==> k in Keys(fields[1..]);
  }

  /** After the assignment k holds v and every other key is unchanged. */
  lemma {:induction false} AssignLookup(fields: Record, k: string, v: Value)
    ensures Lookup(Assign(fields, k, v), k) == Some(v)
    ensures forall j :: j != k ==> Lookup(Assign(fields, k, v), j) == Lookup(fields, j)
  {
    if |fields| > 0 && fields[0].0 != k {
      AssignLookup(fields[1..], k, v);
      var r := Assign(fields, k, v);
      assert r[0] == fields[0] && r[1..] == Assign(fields[1..], k, v);
    }
  }

  /** Assigning keeps the keys distinct, and adds k to them. */
  lemma AssignKeys(fields: Record, k: string, v: Value)
    ensures forall j :: j in Keys(Assign(fields, k, v)) <==> j in Keys(fields) || j == k
    ensures Distinct(Keys(fields)) ==> Distinct(Keys(Assign(fields, k, v)))
  {
    AssignKeyOrder(fields, k, v);
    var r := Assign(fields, k, v);
    if k !in Keys(fields) {
      assert Keys(r)[|fields|] == k;
    }
  }

  /** What a stream contributes: its data when that is a list, None otherwise. */
  function StreamCell(data: Value): (r: Value)
    ensures data.VList? ==> r == data
    ensures !data.VList? ==> r == VNone
  {
    if data.VList? then data else VNone
  }

  /** The row after the first n streams of the response have been assigned. */
  function CompactRecord(id: int, streams: Record, n: nat): (r: Record)
    requires n <= |streams|
  {
    if n == 0 then [("activity_id", VInt(id))]
    else Assign(CompactRecord(id, streams, n - 1), streams[n - 1].0, StreamCell(streams[n - 1].1))
  }

  /** What `parse_streams_to_dataframe_compact` returns: `int(activity_id)`
      raises first, then `.items()` needs a dict. */
  function CompactSpec(activityId: Value, response: Value): Result<Frame>
  {
    var id :- PyInt(activityId);
    if !response.VDict? then Err(AttributeError)
    else Ok(FromRecords([CompactRecord(id, response.fields, |response.fields|)]))
  }

  /** `parse_streams_to_dataframe_compact`. */
  method ParseStreamsCompact(activityId: Value, response: Value) returns (r: Result<Frame>)
    ensures r == CompactSpec(activityId, response)
  {
    var id := PyInt(activityId);
    if id.Err? {
      return Err(id.error);
    }
    if !response.VDict? {
      return Err(AttributeError);
    }
    var streams := response.fields;
    var parsed: Record := [("activity_id", VInt(id.value))];
    var i := 0;
    while i < |streams|
      invariant 0 <= i <= |streams|
      invariant parsed == CompactRecord(id.value, streams, i)
    {
      var streamType := streams[i].0;
      var streamData := streams[i].1;
      assert CompactRecord(id.value, streams, i + 1) == Assign(parsed, streamType, StreamCell(streamData));
      if streamData.VList? {
        parsed := Assign(parsed, streamType, streamData);
      } else {
        parsed := Assign(parsed, streamType, VNone);
      }
      i := i + 1;
    }
    assert streams == response.fields && parsed == CompactRecord(id.value, response.fields, |response.fields|);
    r := Ok(FromRecords([parsed]));
  }

  /** The row's keys are distinct. */
  lemma {:induction false} CompactKeysDistinct(id: int, streams: Record, n: nat)
    requires n <= |streams|
    ensures Distinct(Keys(CompactRecord(id, streams, n)))
  {
    if n > 0 {
      CompactKeysDistinct(id, streams, n - 1);
      AssignKeys(CompactRecord(id, streams, n - 1), streams[n - 1].0, StreamCell(streams[n - 1].1));
    }
  }

  /** The row's keys are "activity_id" together with the keys of the first n streams. */
  lemma CompactKeySet(id: int, streams: Record, n: nat)
    requires n <= |streams|
    ensures forall k :: k in Keys(CompactRecord(id, streams, n)) <==> k == "activity_id" || k in Keys(streams)[..n]
  {
    forall k ensures k in Keys(CompactRecord(id, streams, n)) <==> k == "activity_id" || k in Keys(streams)[..n] {
      CompactKeyIn(id, streams, n, k);
    }
  }

  /** The same, for one key. */
  lemma {:induction false} CompactKeyIn(id: int, streams: Record, n: nat, k: string)
    requires n <= |streams|
    ensures k in Keys(CompactRecord(id, streams, n)) <==> k == "activity_id" || k in Keys(streams)[..n]
  {
    var all := Keys(streams);
    if n > 0 {
      var prev := CompactRecord(id, streams, n - 1);
      var key := streams[n - 1].0;
      CompactKeyIn(id, streams, n - 1, k);
      AssignKeyOrder(prev, key, StreamCell(streams[n - 1].1));
      assert CompactRecord(id, streams, n) == Assign(prev, key, StreamCell(streams[n - 1].1));
      assert all[..n] == all[..n - 1] + [key];
    } else {
      assert Keys(CompactRecord(id, streams, 0)) == ["activity_id"];
    }
  }

  /** Each stream type maps to its data if that is a list and to None
      otherwise; "activity_id" is the integer id unless a stream of that name
      overwrote it. The response's keys are those of a dict, so distinct. */
  lemma CompactValues(id: int, streams: Record, n: nat)
    requires n <= |streams| && Distinct(Keys(streams))
    ensures forall j :: 0 <= j < n ==>
              Lookup(CompactRecord(id, streams, n), streams[j].0) == Some(StreamCell(streams[j].1))
    ensures (forall j :: 0 <= j < n ==> streams[j].0 != "activity_id") ==>
              Lookup(CompactRecord(id, streams, n), "activity_id") == Some(VInt(id))
  {
    forall j | 0 <= j < n
      ensures Lookup(CompactRecord(id, streams, n), streams[j].0) == Some(StreamCell(streams[j].1))
    {
      CompactValueAt(id, streams, n, j);
    }
    if forall j :: 0 <= j < n ==> streams[j].0 != "activity_id" {
      CompactIdKept(id, streams, n);
    }
  }

  /** Stream j's cell survives every later assignment, whose keys differ. */
  lemma CompactValueAt(id: int, streams: Record, n: nat, j: nat)
    requires n <= |streams| && Distinct(Keys(streams)) && j < n
    ensures Lookup(CompactRecord(id, streams, n), streams[j].0) == Some(StreamCell(streams[j].1))
  {
    var key := streams[j].0;
    var cell := StreamCell(streams[j].1);
    CompactSets(id, streams, j);
    var i := j + 1;
    while i < n
      invariant j < i <= n
      invariant Lookup(CompactRecord(id, streams, i), key) == Some(cell)
    {
      DistinctAt(Keys(streams), j, i);
      CompactKeeps(id, streams, i, key);
      i := i + 1;
    }
  }

  lemma DistinctAt(xs: seq<string>, a: nat, b: nat)
    requires Distinct(xs) && a < b < |xs|
    ensures xs[a] != xs[b]
  {
  }

  /** Without a stream named "activity_id" the id stays in place. */
  lemma CompactIdKept(id: int, streams: Record, n: nat)
    requires n <= |streams| && forall j :: 0 <= j < n ==> streams[j].0 != "activity_id"
    ensures Lookup(CompactRecord(id, streams, n), "activity_id") == Some(VInt(id))
  {
    assert CompactRecord(id, streams, 0)[0] == ("activity_id", VInt(id));
    var i := 0;
    while i < n
      invariant i <= n
      invariant Lookup(CompactRecord(id, streams, i), "activity_id") == Some(VInt(id))
    {
      CompactKeeps(id, streams, i, "activity_id");
      i := i + 1;
    }
  }

  /** Stream i's assignment sets its key to its cell... */
  lemma CompactSets(id: int, streams: Record, i: nat)
    requires i < |streams|
    ensures Lookup(CompactRecord(id, streams, i + 1), streams[i].0) == Some(StreamCell(streams[i].1))
  {
    AssignLookup(CompactRecord(id, streams, i), streams[i].0, StreamCell(streams[i].1));
  }

  /** ...and leaves every other key as it was. */
  lemma CompactKeeps(id: int, streams: Record, i: nat, key: string)
    requires i < |streams| && streams[i].0 != key
    ensures Lookup(CompactRecord(id, streams, i + 1), key) == Lookup(CompactRecord(id, streams, i), key)
  {
    AssignLookup(CompactRecord(id, streams, i), streams[i].0, StreamCell(streams[i].1));
  }

  /** The result is exactly one row, under the row's keys in order, holding its values. */
  lemma CompactOneRow(activityId: Value, response: Value)
    requires CompactSpec(activityId, response).Ok?
    ensures var rec := CompactRecord(PyInt(activityId).value, response.fields, |response.fields|);
            && |CompactSpec(activityId, response).value.rows| == 1
            && CompactSpec(activityId, response).value.columns == Keys(rec)
            && CompactSpec(activityId, response).value.rows[0] == FieldValues(rec)
  {
    var rec := CompactRecord(PyInt(activityId).value, response.fields, |response.fields|);
    CompactKeysDistinct(PyInt(activityId).value, response.fields, |response.fields|);
    UniformFrame([rec], Keys(rec));
  }

  /** A non-dict response raises, and so does an id `int()` refuses, first. */
  lemma CompactErrors(activityId: Value, response: Value)
    ensures PyInt(activityId).Err? ==> CompactSpec(activityId, response) == Err(PyInt(activityId).error)
    ensures PyInt(activityId).Ok? && !response.VDict? ==> CompactSpec(activityId, response) == Err(AttributeError)
  {
  }
}
