/**
 * The values the pipeline moves around: decoded JSON payloads, DataFrame
 * cells and SQLite column values, seen through Python's object model.
 * A Python dict keeps its insertion order, so it is an association list.
 * A float is carried by its repr text; the model does no float arithmetic.
 */
module Values {

  datatype Option<+T> = None | Some(value: T)

  /** The exceptions the modelled code raises or lets escape; `SqliteError`
      stands for any `sqlite3.Error`. */
  datatype PyError = ValueError | TypeError | KeyError | IndexError | AttributeError | ImportError | SqliteError

  datatype Result<+T> = Ok(value: T) | Err(error: PyError) {
    predicate IsFailure() { Err? }

    function PropagateFailure<U>(): Result<U>
      requires Err?
    {
      Err(error)
    }

    function Extract(): T
      requires Ok?
    {
      value
    }
  }

  datatype Value =
    | VNone
    | VBool(b: bool)
    | VInt(i: int)
    | VFloat(repr: string)
    | VStr(s: string)
    | VList(items: seq<Value>)
    | VDict(fields: seq<(string, Value)>)

  /** Concatenation is associative. */
  lemma ConcatAssoc<T>(x: seq<T>, y: seq<T>, z: seq<T>)
    ensures x + (y + z) == (x + y) + z
  {
  }

  /** No element occurs twice. */
  predicate Distinct<T(==)>(xs: seq<T>) {
    forall i, j :: 0 <= i < j < |xs| ==> xs[i] != xs[j]
  }

  /** The positions below n that `keep` selects, in increasing order. */
  function FilterIndices(keep: nat -> bool, n: nat): (r: seq<nat>)
    ensures |r| <= n
    ensures forall k :: 0 <= k < |r| ==> r[k] < n && keep(r[k])
    ensures forall i :: 0 <= i < n ==> (keep(i) <==> i in r)
    ensures forall a, b :: 0 <= a < b < |r| ==> r[a] < r[b]
  {
    if n == 0 then [] else FilterIndices(keep, n - 1) + (if keep(n - 1) then [n - 1] else [])
  }

  /** A filter nothing passes keeps no position. */
  lemma {:induction false} FilterNone(keep: nat -> bool, n: nat)
    requires forall i :: 0 <= i < n ==> !keep(i)
    ensures FilterIndices(keep, n) == []
  {
    if n > 0 {
      FilterNone(keep, n - 1);
    }
  }

  /** One more position adds itself when it passes the filter. */
  lemma FilterStep(keep: nat -> bool, n: nat)
    requires n > 0
    ensures FilterIndices(keep, n) == FilterIndices(keep, n - 1) + (if keep(n - 1) then [n - 1] else [])
  {
  }

  /** A comprehension whose element expression may raise: the first element
      that fails stops it with its error. */
  function MapAll<A, B>(f: A -> Result<B>, xs: seq<A>): (r: Result<seq<B>>)
    ensures r.Ok? ==> |r.value| == |xs|
    ensures r.Ok? ==> forall i :: 0 <= i < |xs| ==> f(xs[i]) == Ok(r.value[i])
    ensures r.Err? <==> exists i :: 0 <= i < |xs| && f(xs[i]).Err?
    ensures r.Err? ==> exists i :: 0 <= i < |xs| && f(xs[i]) == Err(r.error)
  {
    if |xs| == 0 then Ok([])
    else
      match f(xs[0])
      case Err(e) => Err(e)
      case Ok(first) =>
        match MapAll(f, xs[1..])
        case Err(e) =>
          assert forall i :: 1 <= i < |xs| ==> xs[i] == xs[1..][i - 1];
          Err(e)
        case Ok(rest) =>
          assert forall i :: 1 <= i < |xs| ==> xs[i] == xs[1..][i - 1];
          Ok([first] + rest)
  }

  /** Extending the input by one element: the earlier failure, else the new element's. */
  lemma {:induction false} MapAllSnoc<A, B>(f: A -> Result<B>, xs: seq<A>, x: A)
    ensures MapAll(f, xs + [x]) ==
              match MapAll(f, xs)
              case Err(e) => Err(e)
              case Ok(ys) => (match f(x) case Err(e) => Err(e) case Ok(y) => Ok(ys + [y]))
    decreases |xs|
  {
    if |xs| == 0 {
      assert [] + [x] == [x] && [x][1..] == [];
      if f(x).Ok? {
        assert [f(x).value] + [] == [] + [f(x).value];
      }
    } else {
      assert (xs + [x])[0] == xs[0] && (xs + [x])[1..] == xs[1..] + [x];
      MapAllSnoc(f, xs[1..], x);
      if f(xs[0]).Ok? && MapAll(f, xs[1..]).Ok? && f(x).Ok? {
        assert [f(xs[0]).value] + (MapAll(f, xs[1..]).value + [f(x).value]) ==
               ([f(xs[0]).value] + MapAll(f, xs[1..]).value) + [f(x).value];
      }
    }
  }

  /** A failure within a prefix is the failure of the whole comprehension. */
  lemma {:induction false} MapAllFailureSticks<A, B>(f: A -> Result<B>, xs: seq<A>, n: nat)
    requires n <= |xs| && MapAll(f, xs[..n]).Err?
    ensures MapAll(f, xs) == MapAll(f, xs[..n])
    decreases |xs| - n
  {
    if n < |xs| {
      MapAllSnoc(f, xs[..n], xs[n]);
      assert xs[..n + 1] == xs[..n] + [xs[n]];
      MapAllFailureSticks(f, xs, n + 1);
    } else {
      assert xs[..n] == xs;
    }
  }

  /** A comprehension that has succeeded so far, extended by one more
      successful element. */
  lemma MapAllStep<A, B>(f: A -> Result<B>, xs: seq<A>, j: nat, done: seq<B>)
    requires j < |xs| && MapAll(f, xs[..j]) == Ok(done) && f(xs[j]).Ok?
    ensures MapAll(f, xs[..j + 1]) == Ok(done + [f(xs[j]).value])
  {
    MapAllSnoc(f, xs[..j], xs[j]);
    assert xs[..j + 1] == xs[..j] + [xs[j]];
  }

  /** A failing element after a successful prefix is the failure of the
      whole comprehension. */
  lemma MapAllStepFails<A, B>(f: A -> Result<B>, xs: seq<A>, j: nat, done: seq<B>)
    requires j < |xs| && MapAll(f, xs[..j]) == Ok(done) && f(xs[j]).Err?
    ensures MapAll(f, xs) == Err(f(xs[j]).error)
  {
    var front := xs[..j + 1];
    assert front == xs[..j] + [xs[j]];
    MapAllSnoc(f, xs[..j], xs[j]);
    assert MapAll(f, front) == Err(f(xs[j]).error);
    MapAllFailureSticks(f, xs, j + 1);
  }

  /** The comprehension raises the error of the first element that fails. */
  lemma MapAllFirstFailure<A, B>(f: A -> Result<B>, xs: seq<A>, i: nat)
    requires i < |xs| && f(xs[i]).Err?
    requires forall j :: 0 <= j < i ==> f(xs[j]).Ok?
    ensures MapAll(f, xs) == Err(f(xs[i]).error)
  {
    assert forall j :: 0 <= j < i ==> xs[..i][j] == xs[j];
    MapAllStepFails(f, xs, i, MapAll(f, xs[..i]).value);
  }

  /** Python truthiness (`if x:` / `not x`). */
  predicate Truthy(v: Value) {
    match v
    case VNone => false
    case VBool(b) => b
    case VInt(i) => i != 0
    case VFloat(r) => r != "0.0" && r != "-0.0"
    case VStr(s) => s != []
    case VList(xs) => xs != []
    case VDict(fs) => fs != []
  }

  /** `d.get(k)` on a dict's fields: the value of the first entry with key k. */
  function Lookup(fields: seq<(string, Value)>, k: string): (r: Option<Value>)
  {
    if |fields| == 0 then None
    else if fields[0].0 == k then Some(fields[0].1)
    else Lookup(fields[1..], k)
  }

  function Keys(fields: seq<(string, Value)>): (r: seq<string>)
    ensures |r| == |fields|
    ensures forall i :: 0 <= i < |fields| ==> r[i] == fields[i].0
  {
    seq(|fields|, i requires 0 <= i < |fields| => fields[i].0)
  }

  lemma KeysCons(fields: seq<(string, Value)>)
    requires |fields| > 0
    ensures Keys(fields) == [fields[0].0] + Keys(fields[1..])
  {
  }

  predicate IsDict(v: Value) { v.VDict? }
  predicate IsList(v: Value) { v.VList? }

  /** `v.get(k, default)`: only a dict has `.get`. */
  function DictGet(v: Value, k: string, default: Value): (r: Result<Value>)
    ensures r.Err? <==> !v.VDict?
    ensures r.Err? ==> r.error == AttributeError
    ensures v.VDict? && Lookup(v.fields, k).Some? ==> r == Ok(Lookup(v.fields, k).value)
    ensures v.VDict? && Lookup(v.fields, k).None? ==> r == Ok(default)
  {
    match v
    case VDict(fs) => (match Lookup(fs, k) case Some(x) => Ok(x) case None => Ok(default))
    case _ => Err(AttributeError)
  }

  /** `v[k]` with a string subscript. */
  function GetItem(v: Value, k: string): (r: Result<Value>)
    ensures v.VDict? && Lookup(v.fields, k).Some? <==> r.Ok?
    ensures r.Ok? ==> r.value == Lookup(v.fields, k).value
    ensures v.VDict? && r.Err? ==> r.error == KeyError
    ensures !v.VDict? ==> r == Err(TypeError)
  {
    match v
    case VDict(fs) => (match Lookup(fs, k) case Some(x) => Ok(x) case None => Err(KeyError))
    case _ => Err(TypeError)
  }

  /** The items `for x in v` visits: list elements, dict keys, the characters of a str. */
  function Iterate(v: Value): (r: Result<seq<Value>>)
    ensures v.VList? ==> r == Ok(v.items)
    ensures r.Err? <==> !(v.VList? || v.VDict? || v.VStr?)
    ensures r.Err? ==> r.error == TypeError
  {
    match v
    case VList(xs) => Ok(xs)
    case VDict(fs) => Ok(seq(|fs|, i requires 0 <= i < |fs| => VStr(fs[i].0)))
    case VStr(s) => Ok(seq(|s|, i requires 0 <= i < |s| => VStr([s[i]])))
    case _ => Err(TypeError)
  }

  /** `sub` occurs in `s` starting at position j. */
  predicate OccursAt(s: string, sub: string, j: int) {
    0 <= j && j + |sub| <= |s| && s[j..j + |sub|] == sub
  }

  predicate IsSubstring(sub: string, s: string) {
    exists j :: 0 <= j <= |s| - |sub| && OccursAt(s, sub, j)
  }

  /** `k in v` for a string k: key membership for a dict, element membership for a
      list, substring for a str; other objects are not containers. */
  function Contains(v: Value, k: string): (r: Result<bool>)
    ensures v.VDict? ==> r == Ok(Lookup(v.fields, k).Some?)
    ensures v.VList? ==> r == Ok(VStr(k) in v.items)
    ensures v.VStr? ==> r == Ok(IsSubstring(k, v.s))
    ensures r.Err? <==> !(v.VDict? || v.VList? || v.VStr?)
  {
    match v
    case VDict(fs) => Ok(Lookup(fs, k).Some?)
    case VList(xs) => Ok(VStr(k) in xs)
    case VStr(s) => Ok(IsSubstring(k, s))
    case _ => Err(TypeError)
  }

  /** The character of one decimal digit. */
  function DigitChar(d: nat): (c: char)
    requires d < 10
    ensures '0' <= c <= '9' && c as int - '0' as int == d
  {
    ('0' as int + d) as char
  }

  /** Decimal text of an integer, as `str(n)` writes it. */
  function DecimalText(n: int): (r: string)
    ensures |r| > 0
    decreases if n < 0 then 1 - n else n
  {
    if n < 0 then "-" + DecimalText(-n)
    else if n < 10 then [DigitChar(n)]
    else DecimalText(n / 10) + [DigitChar(n % 10)]
  }

  /** `repr` of a str, simplified to single quotes without escaping. */
  function QuoteText(s: string): string { "'" + s + "'" }

  /** `str(v)`; containers render their elements with `repr`. */
  function Str(v: Value): string
  {
    match v
    case VStr(s) => s
    case _ => Repr(v)
  }

  function Repr(v: Value): string
    decreases v
  {
    match v
    case VNone => "None"
    case VBool(b) => if b then "True" else "False"
    case VInt(i) => DecimalText(i)
    case VFloat(r) => r
    case VStr(s) => QuoteText(s)
    case VList(xs) => "[" + ReprItems(v, xs) + "]"
    case VDict(fs) => "{" + ReprFields(v, fs) + "}"
  }

  function ReprItems(parent: Value, xs: seq<Value>): string
    requires forall i :: 0 <= i < |xs| ==> xs[i] < parent
    decreases parent, |xs|
  {
    if |xs| == 0 then ""
    else if |xs| == 1 then Repr(xs[0])
    else Repr(xs[0]) + ", " + ReprItems(parent, xs[1..])
  }

  function ReprFields(parent: Value, fs: seq<(string, Value)>): string
    requires forall i :: 0 <= i < |fs| ==> fs[i].1 < parent
    decreases parent, |fs|
  {
    if |fs| == 0 then ""
    else
      var entry := QuoteText(fs[0].0) + ": " + Repr(fs[0].1);
      if |fs| == 1 then entry else entry + ", " + ReprFields(parent, fs[1..])
  }
}
