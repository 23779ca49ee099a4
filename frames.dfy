/**
 * A pandas DataFrame as the pipeline uses it: an ordered list of column labels
 * and rows of cells aligned with them. Labels need not be distinct (a rename
 * can make two columns share a name), so rows are positional.
 */
module Frames {
  import opened Values

  type Record = seq<(string, Value)>

  datatype Frame = Frame(columns: seq<string>, rows: seq<seq<Value>>)

  /** Every row has one cell per column. */
  predicate WellFormed(f: Frame) {
    forall i :: 0 <= i < |f.rows| ==> |f.rows[i]| == |f.columns|
  }

  /** `df.empty`: no rows or no columns. */
  predicate IsEmpty(f: Frame) { |f.rows| == 0 || |f.columns| == 0 }

  /** The frame `pd.DataFrame([])` builds. */
  function EmptyFrame(): (f: Frame)
    ensures IsEmpty(f) && WellFormed(f)
  {
    Frame([], [])
  }

  /** Position of the first column with this name. */
  function ColumnIndex(columns: seq<string>, name: string): (r: Option<nat>)
    ensures r.Some? ==> r.value < |columns| && columns[r.value] == name
    ensures r.Some? ==> forall j :: 0 <= j < r.value ==> columns[j] != name
    ensures r.None? <==> name !in columns
  {
    if |columns| == 0 then None
    else if columns[0] == name then Some(0)
    else match ColumnIndex(columns[1..], name)
      case None => None
      case Some(j) => Some(j + 1)
  }

  predicate HasColumn(f: Frame, name: string) { name in f.columns }

  /** `row[name]` for row number i; a KeyError when the name is absent. */
  function Cell(f: Frame, i: nat, name: string): (r: Result<Value>)
    requires WellFormed(f) && i < |f.rows|
    ensures r.Ok? <==> name in f.columns
    ensures r.Err? ==> r.error == KeyError
  {
    match ColumnIndex(f.columns, name)
    case None => Err(KeyError)
    case Some(j) => Ok(f.rows[i][j])
  }

  /** `row.get(name, default)`. */
  function CellOr(f: Frame, i: nat, name: string, default: Value): (r: Value)
    requires WellFormed(f) && i < |f.rows|
    ensures name !in f.columns ==> r == default
    ensures name in f.columns ==> Cell(f, i, name) == Ok(r)
  {
    match Cell(f, i, name)
    case Ok(v) => v
    case Err(_) => default
  }

  /** The name a rename map gives to one column: renamed if listed, kept otherwise. */
  function RenameLabel(mapping: seq<(string, string)>, name: string): (r: string)
    ensures (forall k :: 0 <= k < |mapping| ==> mapping[k].0 != name) ==> r == name
    ensures (exists k :: 0 <= k < |mapping| && mapping[k].0 == name) ==>
              exists k :: 0 <= k < |mapping| && mapping[k] == (name, r)
  {
    if |mapping| == 0 then name
    else if mapping[0].0 == name then mapping[0].1
    else RenameLabel(mapping[1..], name)
  }

  function RenameAll(mapping: seq<(string, string)>, labels: seq<string>): (r: seq<string>)
    ensures |r| == |labels|
    ensures forall i :: 0 <= i < |labels| ==> r[i] == RenameLabel(mapping, labels[i])
  {
    if |labels| == 0 then [] else [RenameLabel(mapping, labels[0])] + RenameAll(mapping, labels[1..])
  }

  /** `df.rename(columns=mapping)`: relabels columns, leaves every cell where it was. */
  function Rename(f: Frame, mapping: seq<(string, string)>): (r: Frame)
    ensures r.rows == f.rows && |r.columns| == |f.columns|
    ensures forall i :: 0 <= i < |f.columns| ==> r.columns[i] == RenameLabel(mapping, f.columns[i])
    ensures WellFormed(f) ==> WellFormed(r)
  {
    Frame(RenameAll(mapping, f.columns), f.rows)
  }

  /** Positions of all columns carrying `name`, left to right. */
  function Positions(columns: seq<string>, name: string): (r: seq<nat>)
    ensures forall k :: 0 <= k < |r| ==> r[k] < |columns| && columns[r[k]] == name
    ensures (|r| == 0) <==> name !in columns
  {
    if |columns| == 0 then []
    else
      var rest := Positions(columns[1..], name);
      var shifted := seq(|rest|, k requires 0 <= k < |rest| => rest[k] + 1);
      assert forall k :: 0 <= k < |shifted| ==> columns[shifted[k]] == columns[1..][rest[k]];
      if columns[0] == name then [0] + shifted
      else
        assert name in columns[1..] ==> |rest| > 0;
        shifted
  }

  /** Positions selected by `df[labels]`: for each name in order, every column with it. */
  function SelectPositions(columns: seq<string>, labels: seq<string>): (r: seq<nat>)
    ensures forall k :: 0 <= k < |r| ==> r[k] < |columns|
  {
    if |labels| == 0 then [] else Positions(columns, labels[0]) + SelectPositions(columns, labels[1..])
  }

  function Project<T>(row: seq<T>, positions: seq<nat>): (r: seq<T>)
    requires forall k :: 0 <= k < |positions| ==> positions[k] < |row|
    ensures |r| == |positions|
    ensures forall k :: 0 <= k < |positions| ==> r[k] == row[positions[k]]
  {
    seq(|positions|, k requires 0 <= k < |positions| => row[positions[k]])
  }

  /** `df[labels]`: a KeyError if some name is missing, otherwise the listed
      columns in the listed order, with every row kept. */
  function Select(f: Frame, labels: seq<string>): (r: Result<Frame>)
    requires WellFormed(f)
    ensures r.Ok? <==> forall k :: 0 <= k < |labels| ==> labels[k] in f.columns
    ensures r.Err? ==> r.error == KeyError
    ensures r.Ok? ==> WellFormed(r.value) && |r.value.rows| == |f.rows|
  {
    if exists k :: 0 <= k < |labels| && labels[k] !in f.columns then Err(KeyError)
    else
      var pos := SelectPositions(f.columns, labels);
      Ok(Frame(Project(f.columns, pos), seq(|f.rows|, i requires 0 <= i < |f.rows| => Project(f.rows[i], pos))))
  }

  /** With distinct column labels, `df[labels]` has exactly the listed labels. */
  lemma {:induction false} SelectDistinctColumns(columns: seq<string>, labels: seq<string>)
    requires forall i, j :: 0 <= i < j < |columns| ==> columns[i] != columns[j]
    requires forall k :: 0 <= k < |labels| ==> labels[k] in columns
    ensures Project(columns, SelectPositions(columns, labels)) == labels
    decreases |labels|
  {
    if |labels| > 0 {
      SelectDistinctColumns(columns, labels[1..]);
      PositionsDistinct(columns, labels[0]);
      var p := Positions(columns, labels[0]);
      var q := SelectPositions(columns, labels[1..]);
      assert SelectPositions(columns, labels) == p + q;
      assert Project(columns, p + q) == Project(columns, p) + Project(columns, q);
    }
  }

  lemma PositionsDistinct(columns: seq<string>, name: string)
    requires forall i, j :: 0 <= i < j < |columns| ==> columns[i] != columns[j]
    requires name in columns
    ensures |Positions(columns, name)| == 1
    ensures Project(columns, Positions(columns, name)) == [name]
  {
    var p := Positions(columns, name);
    if |p| > 1 {
      PositionsIncreasing(columns, name);
      assert false;
    }
  }

  lemma {:induction false} PositionsIncreasing(columns: seq<string>, name: string)
    ensures forall a, b :: 0 <= a < b < |Positions(columns, name)| ==>
              Positions(columns, name)[a] < Positions(columns, name)[b]
    decreases |columns|
  {
    if |columns| > 0 {
      PositionsIncreasing(columns[1..], name);
    }
  }

  /** The keys of a list of dicts, in first-seen order, without repeats. */
  function UnionKeys(records: seq<Record>, seen: seq<string>): (r: seq<string>)
    ensures seen <= r
    decreases |records|
  {
    if |records| == 0 then seen
    else UnionKeys(records[1..], AddKeys(records[0], seen))
  }

  function AddKeys(rec: Record, seen: seq<string>): (r: seq<string>)
    ensures seen <= r
    ensures forall k :: k in r <==> k in seen || exists i :: 0 <= i < |rec| && rec[i].0 == k
    decreases |rec|
  {
    if |rec| == 0 then seen
    else if rec[0].0 in seen then AddKeys(rec[1..], seen)
    else AddKeys(rec[1..], seen + [rec[0].0])
  }

  /** The NaN pandas puts where a record lacks a column. */
  const NaN := VFloat("nan")

  /** `pd.DataFrame(records)` for a list of dicts. */
  function FromRecords(records: seq<Record>): (f: Frame)
    ensures WellFormed(f) && |f.rows| == |records|
    ensures forall i, k :: 0 <= i < |records| && 0 <= k < |f.columns| ==>
              f.rows[i][k] == (match Lookup(records[i], f.columns[k]) case Some(v) => v case None => NaN)
  {
    var cols := UnionKeys(records, []);
    Frame(cols, seq(|records|, i requires 0 <= i < |records| =>
      seq(|cols|, k requires 0 <= k < |cols| =>
        match Lookup(records[i], cols[k]) case Some(v) => v case None => NaN)))
  }

  /** When every record has the same distinct keys in the same order, the
      frame's columns are those keys and row i holds record i's values. */
  lemma FromRecordsUniform(records: seq<Record>, keys: seq<string>)
    requires |records| > 0 && Distinct(keys)
    requires forall i :: 0 <= i < |records| ==> Keys(records[i]) == keys
    ensures FromRecords(records).columns == keys
    ensures forall i, k :: 0 <= i < |records| && 0 <= k < |keys| && k < |records[i]| ==>
              FromRecords(records).rows[i][k] == records[i][k].1
  {
    AddKeysDistinct(records[0]);
    UnionKeysSeen(records[1..], keys);
    forall i, k | 0 <= i < |records| && 0 <= k < |keys| && k < |records[i]|
      ensures FromRecords(records).rows[i][k] == records[i][k].1
    {
      LookupDistinct(records[i], k);
    }
  }

  /** The values of a record, in key order. */
  function FieldValues(rec: Record): (r: seq<Value>)
    ensures |r| == |rec| && forall k :: 0 <= k < |rec| ==> r[k] == rec[k].1
  {
    seq(|rec|, k requires 0 <= k < |rec| => rec[k].1)
  }

  /** Records that share the same distinct keys make a frame with those
      columns and one row per record holding its values. */
  lemma UniformFrame(records: seq<Record>, keys: seq<string>)
    requires |records| > 0 && Distinct(keys)
    requires forall i :: 0 <= i < |records| ==> Keys(records[i]) == keys
    ensures FromRecords(records).columns == keys
    ensures |FromRecords(records).rows| == |records|
    ensures forall i :: 0 <= i < |records| ==> FromRecords(records).rows[i] == FieldValues(records[i])
  {
    FromRecordsUniform(records, keys);
    var f := FromRecords(records);
    forall i | 0 <= i < |records| ensures f.rows[i] == FieldValues(records[i]) {
      assert |f.rows[i]| == |records[i]|;
    }
  }

  /** Adding distinct keys to none yet seen keeps them all, in order. */
  lemma AddKeysDistinct(rec: Record)
    requires Distinct(Keys(rec))
    ensures AddKeys(rec, []) == Keys(rec)
  {
    var keys := Keys(rec);
    var i := 0;
    assert rec[i..] == rec && keys[..i] == [];
    while i < |rec|
      invariant i <= |rec|
      invariant AddKeys(rec, []) == AddKeys(rec[i..], keys[..i])
    {
      KeyFresh(rec, i);
      AddFreshKey(rec, keys[..i], i);
      assert keys[..i] + [keys[i]] == keys[..i + 1];
      i := i + 1;
    }
    assert keys[..i] == keys;
  }

  /** A key of a record with distinct keys is not among the keys before it. */
  lemma KeyFresh(rec: Record, i: nat)
    requires Distinct(Keys(rec)) && i < |rec|
    ensures rec[i].0 !in Keys(rec)[..i]
  {
    var keys := Keys(rec);
    var before := keys[..i];
    forall j | 0 <= j < |before| ensures before[j] != keys[i] {
      assert before[j] == keys[j];
    }
  }

  lemma AddFreshKey(rec: Record, seen: seq<string>, i: nat)
    requires i < |rec| && rec[i].0 !in seen
    ensures AddKeys(rec[i..], seen) == AddKeys(rec[i + 1..], seen + [rec[i].0])
  {
    assert rec[i..][1..] == rec[i + 1..];
  }

  /** Records whose keys are all seen add nothing. */
  lemma {:induction false} UnionKeysSeen(records: seq<Record>, seen: seq<string>)
    requires forall i :: 0 <= i < |records| ==> Keys(records[i]) == seen
    ensures UnionKeys(records, seen) == seen
    decreases |records|
  {
    if |records| > 0 {
      AddKeysSeen(records[0], seen);
      UnionKeysSeen(records[1..], seen);
    }
  }

  lemma {:induction false} AddKeysSeen(rec: Record, seen: seq<string>)
    requires forall i :: 0 <= i < |rec| ==> rec[i].0 in seen
    ensures AddKeys(rec, seen) == seen
    decreases |rec|
  {
    if |rec| > 0 {
      AddKeysSeen(rec[1..], seen);
    }
  }

  /** With distinct keys, looking up the k-th key finds the k-th value. */
  lemma {:induction false} LookupDistinct(fields: seq<(string, Value)>, k: nat)
    requires Distinct(Keys(fields)) && k < |fields|
    ensures Lookup(fields, fields[k].0) == Some(fields[k].1)
    decreases k
  {
    if k > 0 {
      assert Keys(fields)[0] != Keys(fields)[k];
      assert Keys(fields[1..]) == Keys(fields)[1..];
      LookupDistinct(fields[1..], k - 1);
    }
  }
}
