/**
 * The few `str` operations the pipeline relies on: `str.split(sep)`,
 * `sep.join(parts)` and `int(text)` on ASCII input.
 */
module PyStr {
  import opened Values

  /** The first position at or after `from` where `sep` occurs in `s`. */
  function IndexFrom(s: string, sep: string, from: nat): (r: Option<nat>)
    requires |sep| > 0
    ensures r.Some? ==> from <= r.value && OccursAt(s, sep, r.value)
    ensures r.Some? ==> forall j :: from <= j < r.value ==> !OccursAt(s, sep, j)
    ensures r.None? ==> forall j :: from <= j ==> !OccursAt(s, sep, j)
    decreases |s| - from
  {
    if from + |sep| > |s| then None
    else if s[from..from + |sep|] == sep then Some(from)
    else IndexFrom(s, sep, from + 1)
  }

  /** `s.find(sep)` as an option. */
  function IndexOf(s: string, sep: string): (r: Option<nat>)
    requires |sep| > 0
    ensures r.Some? ==> OccursAt(s, sep, r.value) && forall j :: 0 <= j < r.value ==> !OccursAt(s, sep, j)
    ensures r.None? ==> forall j :: 0 <= j ==> !OccursAt(s, sep, j)
  {
    IndexFrom(s, sep, 0)
  }

  /** `s.split(sep)` for a non-empty separator: cut at each occurrence, left to right. */
  function Split(s: string, sep: string): (r: seq<string>)
    requires |sep| > 0
    ensures |r| >= 1
    decreases |s|
  {
    match IndexOf(s, sep)
    case None => [s]
    case Some(i) => [s[..i]] + Split(s[i + |sep|..], sep)
  }

  /** `sep.join(parts)`. */
  function Join(parts: seq<string>, sep: string): string
  {
    if |parts| == 0 then ""
    else if |parts| == 1 then parts[0]
    else parts[0] + sep + Join(parts[1..], sep)
  }

  lemma JoinCons(head: string, tail: seq<string>, sep: string)
    requires |tail| >= 1
    ensures Join([head] + tail, sep) == head + sep + Join(tail, sep)
  {
    assert ([head] + tail)[1..] == tail;
  }

  /** Splitting and re-joining with the same separator gives the text back. */
  lemma {:induction false} JoinSplit(s: string, sep: string)
    requires |sep| > 0
    ensures Join(Split(s, sep), sep) == s
    decreases |s|
  {
    match IndexOf(s, sep)
    case None =>
    case Some(i) =>
      var rest := s[i + |sep|..];
      var tail := Split(rest, sep);
      JoinSplit(rest, sep);
      assert Split(s, sep) == [s[..i]] + tail;
      JoinCons(s[..i], tail, sep);
      assert s[i..i + |sep|] == sep;
      assert s == s[..i] + s[i..i + |sep|] + rest;
  }

  /** No piece produced by `split` contains the separator. */
  lemma {:induction false} SplitPiecesFree(s: string, sep: string)
    requires |sep| > 0
    ensures forall k :: 0 <= k < |Split(s, sep)| ==> IndexOf(Split(s, sep)[k], sep).None?
    decreases |s|
  {
    match IndexOf(s, sep)
    case None =>
    case Some(i) =>
      var rest := s[i + |sep|..];
      SplitPiecesFree(rest, sep);
      var head := s[..i];
      forall j | 0 <= j < |head| ensures !OccursAt(head, sep, j) {
        assert !OccursAt(s, sep, j);
        if j + |sep| <= |head| {
          assert head[j..j + |sep|] == s[j..j + |sep|];
        }
      }
      assert Split(s, sep) == [head] + Split(rest, sep);
  }

  /** The search stops at the first occurrence at or after `from`. */
  lemma {:induction false} IndexFromFirst(s: string, sep: string, from: nat, k: nat)
    requires |sep| > 0 && from <= k && OccursAt(s, sep, k)
    requires forall j :: from <= j < k ==> !OccursAt(s, sep, j)
    ensures IndexFrom(s, sep, from) == Some(k)
    decreases k - from
  {
    if from < k {
      assert !OccursAt(s, sep, from);
      IndexFromFirst(s, sep, from + 1, k);
    }
  }

  /** Joining two separator-free pieces with `", "` and splitting again gives the
      two pieces back. */
  lemma SplitCommaPair(a: string, b: string)
    requires IndexOf(a, ", ").None? && IndexOf(b, ", ").None?
    ensures Split(a + ", " + b, ", ") == [a, b]
  {
    var s := a + ", " + b;
    assert s[|a|..|a| + 2] == ", ";
    assert OccursAt(s, ", ", |a|);
    forall j | 0 <= j < |a| ensures !OccursAt(s, ", ", j) {
      if j + 2 <= |a| {
        assert s[j..j + 2] == a[j..j + 2];
        assert !OccursAt(a, ", ", j);
      } else {
        assert s[j + 1] == ',';
      }
    }
    IndexFromFirst(s, ", ", 0, |a|);
    assert s[..|a|] == a;
    assert s[|a| + 2..] == b;
    assert Split(b, ", ") == [b];
  }

  /** A one-character separator that a text does not contain is never found in it. */
  lemma NotFound(s: string, sep: string)
    requires |sep| == 1 && sep[0] !in s
    ensures IndexOf(s, sep).None?
  {
  }

  /** Joining pieces free of a one-character separator and splitting again
      gives the pieces back. */
  lemma {:induction false} SplitJoin(parts: seq<string>, sep: string)
    requires |sep| == 1 && |parts| >= 1
    requires forall k :: 0 <= k < |parts| ==> sep[0] !in parts[k]
    ensures Split(Join(parts, sep), sep) == parts
    decreases |parts|
  {
    if |parts| == 1 {
      NotFound(parts[0], sep);
    } else {
      var a := parts[0];
      var rest := Join(parts[1..], sep);
      var s := Join(parts, sep);
      assert s == a + sep + rest;
      forall j | 0 <= j < |a| ensures !OccursAt(s, sep, j) {
        assert s[j] == a[j];
      }
      assert s[|a|..|a| + 1] == sep;
      IndexFromFirst(s, sep, 0, |a|);
      assert s[..|a|] == a && s[|a| + 1..] == rest;
      SplitJoin(parts[1..], sep);
      assert parts == [a] + parts[1..];
    }
  }

  predicate IsDigit(c: char) { '0' <= c <= '9' }

  predicate AllDigits(s: string) { forall i :: 0 <= i < |s| ==> IsDigit(s[i]) }

  /** The value of a string of decimal digits. */
  function DigitsValue(s: string): (n: nat)
    requires AllDigits(s)
    decreases |s|
  {
    if |s| == 0 then 0 else 10 * DigitsValue(s[..|s| - 1]) + (s[|s| - 1] as int - '0' as int)
  }

  predicate IsSpace(c: char) { c == ' ' || c == '\t' || c == '\n' || c == '\r' || c == 11 as char || c == 12 as char }

  function StripLeft(s: string): (r: string)
    ensures |r| <= |s| && (|r| > 0 ==> !IsSpace(r[0]))
    ensures r == s[|s| - |r|..]
  {
    if |s| > 0 && IsSpace(s[0]) then StripLeft(s[1..]) else s
  }

  function StripRight(s: string): (r: string)
    ensures |r| <= |s| && (|r| > 0 ==> !IsSpace(r[|r| - 1]))
    ensures r == s[..|r|]
  {
    if |s| > 0 && IsSpace(s[|s| - 1]) then StripRight(s[..|s| - 1]) else s
  }

  /** `s.strip()` for ASCII whitespace. */
  function Strip(s: string): string { StripRight(StripLeft(s)) }

  /** `int(text)`: optional surrounding whitespace, an optional sign, then one or
      more decimal digits; anything else is a ValueError (None here). */
  function ParseInt(text: string): (r: Option<int>)
    ensures AllDigits(text) && |text| > 0 ==> r == Some(DigitsValue(text))
  {
    var t := Strip(text);
    if AllDigits(text) && |text| > 0 then Some(DigitsValue(text))
    else if |t| > 0 && (t[0] == '-' || t[0] == '+') then
      var body := t[1..];
      if |body| > 0 && AllDigits(body) then
        var magnitude: int := DigitsValue(body);
        Some(if t[0] == '-' then -magnitude else magnitude)
      else None
    else if |t| > 0 && AllDigits(t) then Some(DigitsValue(t))
    else None
  }

  /** `int(v)` for the values a record field can hold. A float is truncated
      toward zero through its repr ("nan" and "inf" do not convert). */
  function PyInt(v: Value): (r: Result<int>)
    ensures v.VBool? ==> r == Ok(if v.b then 1 else 0)
    ensures v.VInt? ==> r == Ok(v.i)
    ensures v.VNone? || v.VList? || v.VDict? ==> r == Err(TypeError)
    ensures v.VStr? ==> (r.Ok? <==> ParseInt(v.s).Some?)
    ensures r.Err? && !(v.VNone? || v.VList? || v.VDict?) ==> r.error == ValueError
  {
    match v
    case VBool(b) => Ok(if b then 1 else 0)
    case VInt(i) => Ok(i)
    case VStr(s) => (match ParseInt(s) case Some(n) => Ok(n) case None => Err(ValueError))
    case VFloat(text) =>
      (match ParseInt(Split(text, ".")[0]) case Some(n) => Ok(n) case None => Err(ValueError))
    case _ => Err(TypeError)
  }

  /** The value `int` gives back for the text `str` writes. */
  lemma {:induction false} DecimalRoundTrip(n: nat)
    ensures AllDigits(DecimalText(n)) && DigitsValue(DecimalText(n)) == n
    decreases n
  {
    if n >= 10 {
      var q, d := n / 10, n % 10;
      DecimalRoundTrip(q);
      var t := DecimalText(q) + [DigitChar(d)];
      assert DecimalText(n) == t;
      assert t[..|t| - 1] == DecimalText(q);
      assert t[|t| - 1] as int - '0' as int == d;
      assert DigitsValue(t) == 10 * q + d;
    }
  }

  /** `s[:n]` for n >= 0. */
  function Prefix<T>(s: seq<T>, n: nat): (r: seq<T>)
    ensures |r| == if n < |s| then n else |s|
    ensures r <= s
  {
    if n < |s| then s[..n] else s
  }
}
