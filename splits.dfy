/**
 * `Splits.process_splits`: one output row per input row that has a splits
 * metric, with list and dict cells serialised by `json.dumps`, which is a
 * parameter here. The client argument is not used by the source.
 */
module Splits {
  import opened Values
  import opened Frames

  const SplitsColumns: seq<string> := ["id", "sport_type", "splits_metric", "laps", "available_zones"]

  /** `json.dumps(v) if isinstance(v, (list, dict)) else v`. */
  function Serialized(v: Value, dumps: Value -> string): Value
  {
    if v.VList? || v.VDict? then VStr(dumps(v)) else v
  }

  /** A serialised cell is never a list or a dict, whatever it was; a cell is
      changed exactly when it is one of those, and then holds its JSON text. */
  lemma SerializedIsScalar(v: Value, dumps: Value -> string)
    ensures !Serialized(v, dumps).VList? && !Serialized(v, dumps).VDict?
    ensures Serialized(v, dumps) != v <==> v.VList? || v.VDict?
    ensures Serialized(v, dumps) != v ==> Serialized(v, dumps) == VStr(dumps(v))
  {
  }

  /** The row is kept: `row.get("splits_metric", None)` is not None. */
  predicate Kept(f: Frame, i: nat)
  {
    WellFormed(f) && i < |f.rows| && CellOr(f, i, "splits_metric", VNone) != VNone
  }

  /** The output row for input row i. */
  function SplitRow(f: Frame, i: nat, dumps: Value -> string): (r: seq<Value>)
    requires WellFormed(f) && i < |f.rows| && HasColumn(f, "id") && HasColumn(f, "sport_type")
    ensures |r| == |SplitsColumns|
  {
    [Cell(f, i, "id").value, Cell(f, i, "sport_type").value,
     Serialized(CellOr(f, i, "splits_metric", VNone), dumps),
     Serialized(CellOr(f, i, "laps", VNone), dumps),
     Serialized(CellOr(f, i, "available_zones", VNone), dumps)]
  }

  /** The rows gathered from input rows 0 to n - 1. */
  function SplitRows(f: Frame, n: nat, dumps: Value -> string): (r: seq<seq<Value>>)
    requires WellFormed(f) && n <= |f.rows|
    requires n > 0 ==> HasColumn(f, "id") && HasColumn(f, "sport_type")
    ensures |r| <= n
    ensures forall k :: 0 <= k < |r| ==> |r[k]| == |SplitsColumns|
  {
    if n == 0 then []
    else SplitRows(f, n - 1, dumps) + (if Kept(f, n - 1) then [SplitRow(f, n - 1, dumps)] else [])
  }

  /** `Kept` as the filter of a comprehension over row positions. */
  function KeptAt(f: Frame): nat -> bool
  {
    (i: nat) => Kept(f, i)
  }

  /** The output is exactly the kept input rows, in input order: its k-th row
      comes from the k-th input row that has a splits metric. */
  lemma {:induction false} SplitRowsAreKeptRows(f: Frame, n: nat, dumps: Value -> string)
    requires WellFormed(f) && n <= |f.rows|
    requires n > 0 ==> HasColumn(f, "id") && HasColumn(f, "sport_type")
    ensures var kept := FilterIndices(KeptAt(f), n);
            && |SplitRows(f, n, dumps)| == |kept|
            && forall k :: 0 <= k < |kept| ==> SplitRows(f, n, dumps)[k] == SplitRow(f, kept[k], dumps)
    decreases n
  {
    if n > 0 {
      SplitRowsAreKeptRows(f, n - 1, dumps);
      KeptRowsStep(f, n, dumps);
    }
  }

  /** The property for n rows follows from the one for n - 1. */
  lemma KeptRowsStep(f: Frame, n: nat, dumps: Value -> string)
    requires WellFormed(f) && 0 < n <= |f.rows| && HasColumn(f, "id") && HasColumn(f, "sport_type")
    requires var kept := FilterIndices(KeptAt(f), n - 1);
             && |SplitRows(f, n - 1, dumps)| == |kept|
             && forall k :: 0 <= k < |kept| ==> SplitRows(f, n - 1, dumps)[k] == SplitRow(f, kept[k], dumps)
    ensures var kept := FilterIndices(KeptAt(f), n);
            && |SplitRows(f, n, dumps)| == |kept|
            && forall k :: 0 <= k < |kept| ==> SplitRows(f, n, dumps)[k] == SplitRow(f, kept[k], dumps)
  {
    var prev := FilterIndices(KeptAt(f), n - 1);
    var rows := SplitRows(f, n - 1, dumps);
    var extra := if Kept(f, n - 1) then [n - 1] else [];
    assert KeptAt(f)(n - 1) == Kept(f, n - 1);
    FilterStep(KeptAt(f), n);
    SplitRowsLast(f, n, dumps);
    var kept := prev + extra;
    forall k | 0 <= k < |kept| ensures SplitRows(f, n, dumps)[k] == SplitRow(f, kept[k], dumps) {
      if k < |prev| {
        assert kept[k] == prev[k];
      }
    }
  }

  lemma SplitRowsLast(f: Frame, n: nat, dumps: Value -> string)
    requires WellFormed(f) && 0 < n <= |f.rows| && HasColumn(f, "id") && HasColumn(f, "sport_type")
    ensures SplitRows(f, n, dumps) == SplitRows(f, n - 1, dumps) + (if Kept(f, n - 1) then [SplitRow(f, n - 1, dumps)] else [])
  {
  }

  /** A row with a splits metric adds its output row... */
  lemma KeptRowStep(f: Frame, i: nat, dumps: Value -> string)
    requires WellFormed(f) && i < |f.rows| && HasColumn(f, "id") && HasColumn(f, "sport_type")
    requires CellOr(f, i, "splits_metric", VNone) != VNone
    ensures SplitRows(f, i + 1, dumps) == SplitRows(f, i, dumps) + [SplitRow(f, i, dumps)]
  {
  }

  /** ...and a row without one adds nothing. */
  lemma SkippedRowStep(f: Frame, i: nat, dumps: Value -> string)
    requires WellFormed(f) && i < |f.rows| && HasColumn(f, "id") && HasColumn(f, "sport_type")
    requires CellOr(f, i, "splits_metric", VNone) == VNone
    ensures SplitRows(f, i + 1, dumps) == SplitRows(f, i, dumps)
  {
  }

  /** The three serialised columns of every output row hold no list and no
      dict, so each of their cells can be bound as an SQL parameter. */
  lemma SplitRowsHaveNoContainers(f: Frame, dumps: Value -> string)
    requires WellFormed(f) && SplitsResult(f, dumps).Ok?
    ensures var rows := SplitsResult(f, dumps).value.rows;
            forall k: int, c: int :: 0 <= k < |rows| && 2 <= c < 5 ==> !rows[k][c].VList? && !rows[k][c].VDict?
  {
    var rows: seq<seq<Value>> := SplitsResult(f, dumps).value.rows;
    SplitRowsAreKeptRows(f, |f.rows|, dumps);
    var kept := FilterIndices(KeptAt(f), |f.rows|);
    forall k: int, c: int | 0 <= k < |rows| && 2 <= c < 5 ensures !rows[k][c].VList? && !rows[k][c].VDict? {
      assert rows[k] == SplitRow(f, kept[k], dumps);
      SerializedIsScalar(CellOr(f, kept[k], "splits_metric", VNone), dumps);
      SerializedIsScalar(CellOr(f, kept[k], "laps", VNone), dumps);
      SerializedIsScalar(CellOr(f, kept[k], "available_zones", VNone), dumps);
    }
  }

  /** What `process_splits` returns. */
  function SplitsResult(f: Frame, dumps: Value -> string): Result<Frame>
    requires WellFormed(f)
  {
    if |f.rows| > 0 && !(HasColumn(f, "id") && HasColumn(f, "sport_type")) then Err(KeyError)
    else Ok(Frame(SplitsColumns, SplitRows(f, |f.rows|, dumps)))
  }

  /** `process_splits`: a missing "id" or "sport_type" column is a KeyError at
      the first row; rows without a splits metric are skipped. */
  method ProcessSplits(f: Frame, dumps: Value -> string) returns (r: Result<Frame>)
    requires WellFormed(f)
    ensures r.Err? <==> |f.rows| > 0 && !(HasColumn(f, "id") && HasColumn(f, "sport_type"))
    ensures r.Err? ==> r.error == KeyError
    ensures r.Ok? ==> r.value.columns == SplitsColumns && WellFormed(r.value)
    ensures r.Ok? ==> r.value.rows == SplitRows(f, |f.rows|, dumps)
    ensures r == SplitsResult(f, dumps)
  {
    var data: seq<seq<Value>> := [];
    var i := 0;
    while i < |f.rows|
      invariant 0 <= i <= |f.rows|
      invariant i > 0 ==> HasColumn(f, "id") && HasColumn(f, "sport_type")
      invariant data == SplitRows(f, i, dumps)
    {
      var id := Cell(f, i, "id");
      if id.Err? {
        return Err(KeyError);
      }
      var sportType := Cell(f, i, "sport_type");
      if sportType.Err? {
        return Err(KeyError);
      }
      var metric := CellOr(f, i, "splits_metric", VNone);
      if metric != VNone {
        var laps := CellOr(f, i, "laps", VNone);
        var zones := CellOr(f, i, "available_zones", VNone);
        KeptRowStep(f, i, dumps);
        data := data + [[id.value, sportType.value, Serialized(metric, dumps), Serialized(laps, dumps), Serialized(zones, dumps)]];
      } else {
        SkippedRowStep(f, i, dumps);
      }
      i := i + 1;
    }
    r := Ok(Frame(SplitsColumns, data));
  }
}
