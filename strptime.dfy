/**
 * `datetime.strptime` for the four formats the pipeline parses:
 * "%Y-%m-%d", "%Y-%m-%dT%H:%M:%S", "%Y-%m-%dT%H:%M" and "%H:%M".
 *
 * Python matches a format with a regular expression: %Y is exactly four
 * digits, %m is `1[0-2]|0[1-9]|[1-9]`, %d is `3[01]|[12]\d|0[1-9]|[1-9]| [1-9]`,
 * %H is `2[0-3]|[0-1]\d|\d`, %M is `[0-5]\d|\d`, %S is `6[0-1]|[0-5]\d|\d`;
 * literals match without regard to case, and the whole text must be used.
 * In these formats every field is followed by a non-digit literal or by the
 * end of the text, so trying the two-character form first and the
 * one-character form second accepts exactly what the expression accepts.
 * The matched fields then go through `datetime`'s range checks.
 */
module Strptime {
  import opened Values
  import opened PyStr

  datatype Directive = Year | Month | Day | Hour | Minute | Second | Lit(c: char)

  datatype Stamp = Stamp(year: int, month: int, day: int, hour: int, minute: int, second: int)

  const DateFormat: seq<Directive> := [Year, Lit('-'), Month, Lit('-'), Day]
  const DateTimeFormat: seq<Directive> := DateFormat + [Lit('T'), Hour, Lit(':'), Minute, Lit(':'), Second]
  const DateHourMinuteFormat: seq<Directive> := DateFormat + [Lit('T'), Hour, Lit(':'), Minute]
  const ClockFormat: seq<Directive> := [Hour, Lit(':'), Minute]

  /** The defaults strptime uses for absent fields: 1900-01-01 00:00:00. */
  const Defaults := Stamp(1900, 1, 1, 0, 0, 0)

  datatype Scan = Scan(value: nat, next: nat)

  function DigitAt(s: string, p: nat): (d: nat)
    requires p < |s| && IsDigit(s[p])
    ensures d <= 9
  {
    s[p] as int - '0' as int
  }

  /** Exactly four digits. */
  function Four(s: string, p: nat): (r: Option<Scan>)
    ensures r.Some? ==> r.value.next == p + 4 <= |s|
  {
    if p + 4 <= |s| && IsDigit(s[p]) && IsDigit(s[p + 1]) && IsDigit(s[p + 2]) && IsDigit(s[p + 3]) then
      Some(Scan(1000 * DigitAt(s, p) + 100 * DigitAt(s, p + 1) + 10 * DigitAt(s, p + 2) + DigitAt(s, p + 3), p + 4))
    else None
  }

  /** A two-digit form with value in [lo2, hi2], else a one-digit form of at least
      lo1, else (when spaced) a blank followed by a digit 1-9. */
  function TwoOrOne(s: string, p: nat, lo2: nat, hi2: nat, lo1: nat, spaced: bool): (r: Option<Scan>)
    ensures r.Some? ==> p < r.value.next <= p + 2 && r.value.next <= |s|
    ensures r.Some? && r.value.next == p + 2 && IsDigit(s[p]) ==> lo2 <= r.value.value <= hi2
    ensures r.Some? ==> r.value.value <= 99
  {
    if p + 2 <= |s| && IsDigit(s[p]) && IsDigit(s[p + 1]) && lo2 <= 10 * DigitAt(s, p) + DigitAt(s, p + 1) <= hi2 then
      Some(Scan(10 * DigitAt(s, p) + DigitAt(s, p + 1), p + 2))
    else if spaced && p + 2 <= |s| && s[p] == ' ' && IsDigit(s[p + 1]) && DigitAt(s, p + 1) >= 1 then
      Some(Scan(DigitAt(s, p + 1), p + 2))
    else if p < |s| && IsDigit(s[p]) && DigitAt(s, p) >= lo1 then
      Some(Scan(DigitAt(s, p), p + 1))
    else None
  }

  function Lower(c: char): char {
    if 'A' <= c <= 'Z' then (c as int + 32) as char else c
  }

  function ScanField(s: string, p: nat, d: Directive): (r: Option<Scan>)
    requires !d.Lit?
    ensures r.Some? ==> p < r.value.next <= |s|
  {
    match d
    case Year => Four(s, p)
    case Month => TwoOrOne(s, p, 1, 12, 1, false)
    case Day => TwoOrOne(s, p, 1, 31, 1, true)
    case Hour => TwoOrOne(s, p, 0, 23, 0, false)
    case Minute => TwoOrOne(s, p, 0, 59, 0, false)
    case Second => TwoOrOne(s, p, 0, 61, 0, false)
  }

  function Store(acc: Stamp, d: Directive, v: int): Stamp {
    match d
    case Year => acc.(year := v)
    case Month => acc.(month := v)
    case Day => acc.(day := v)
    case Hour => acc.(hour := v)
    case Minute => acc.(minute := v)
    case Second => acc.(second := v)
    case Lit(_) => acc
  }

  /** Match the directives from position p on; the text must be used up. */
  function MatchFrom(s: string, p: nat, fmt: seq<Directive>, acc: Stamp): Option<Stamp>
    decreases |fmt|
  {
    if |fmt| == 0 then (if p == |s| then Some(acc) else None)
    else match fmt[0]
      case Lit(c) =>
        if p < |s| && Lower(s[p]) == Lower(c) then MatchFrom(s, p + 1, fmt[1..], acc) else None
      case _ =>
        match ScanField(s, p, fmt[0])
        case None => None
        case Some(sc) => MatchFrom(s, sc.next, fmt[1..], Store(acc, fmt[0], sc.value))
  }

  predicate IsLeap(y: int) { y % 4 == 0 && (y % 100 != 0 || y % 400 == 0) }

  function DaysInMonth(y: int, m: int): int
    requires 1 <= m <= 12
  {
    if m == 2 then (if IsLeap(y) then 29 else 28)
    else if m == 4 || m == 6 || m == 9 || m == 11 then 30
    else 31
  }

  /** `datetime`'s range checks. */
  predicate ValidStamp(t: Stamp) {
    && 1 <= t.year <= 9999
    && 1 <= t.month <= 12
    && 1 <= t.day <= DaysInMonth(t.year, t.month)
    && 0 <= t.hour <= 23 && 0 <= t.minute <= 59 && 0 <= t.second <= 59
  }

  /** `datetime.strptime(s, fmt)`; None stands for the ValueError. */
  function Parse(s: string, fmt: seq<Directive>): (r: Option<Stamp>)
    ensures r.Some? ==> ValidStamp(r.value)
  {
    match MatchFrom(s, 0, fmt, Defaults)
    case Some(t) => if ValidStamp(t) then Some(t) else None
    case None => None
  }

  /** Two-digit, zero-padded rendering (`%H`, `%m`, `%d` in strftime). */
  function Pad2(n: nat): (r: string)
    requires n <= 99
    ensures |r| == 2 && IsDigit(r[0]) && IsDigit(r[1])
    ensures DigitAt(r, 0) == n / 10 && DigitAt(r, 1) == n % 10
  {
    [DigitChar(n / 10), DigitChar(n % 10)]
  }

  function Pad4(n: nat): (r: string)
    requires n <= 9999
    ensures |r| == 4 && forall i :: 0 <= i < 4 ==> IsDigit(r[i])
    ensures 1000 * DigitAt(r, 0) + 100 * DigitAt(r, 1) + 10 * DigitAt(r, 2) + DigitAt(r, 3) == n
  {
    var hi, lo := n / 100, n % 100;
    var r := Pad2(hi) + Pad2(lo);
    assert DigitAt(r, 0) == hi / 10 && DigitAt(r, 1) == hi % 10;
    assert DigitAt(r, 2) == lo / 10 && DigitAt(r, 3) == lo % 10;
    assert 10 * (hi / 10) + hi % 10 == hi;
    assert 10 * (lo / 10) + lo % 10 == lo;
    r
  }

  /** The canonical "YYYY-MM-DD" text of a date. */
  function IsoDate(y: nat, m: nat, d: nat): string
    requires y <= 9999 && m <= 99 && d <= 99
  {
    Pad4(y) + "-" + Pad2(m) + "-" + Pad2(d)
  }

  /** Every valid date written as "YYYY-MM-DD" parses back to itself. */
  lemma IsoDateParses(y: nat, m: nat, d: nat)
    requires ValidStamp(Stamp(y, m, d, 0, 0, 0))
    ensures Parse(IsoDate(y, m, d), DateFormat) == Some(Stamp(y, m, d, 0, 0, 0))
  {
    var s := IsoDate(y, m, d);
    assert s[..4] == Pad4(y) && s[4] == '-' && s[5..7] == Pad2(m) && s[7] == '-' && s[8..10] == Pad2(d);
    assert Four(s, 0) == Some(Scan(y, 4));
    assert ScanField(s, 5, Month) == Some(Scan(m, 7));
    assert ScanField(s, 8, Day) == Some(Scan(d, 10));
    var t1 := Defaults.(year := y);
    var t2 := t1.(month := m);
    var t3 := t2.(day := d);
    assert MatchFrom(s, 10, [], t3) == Some(t3);
    assert MatchFrom(s, 8, DateFormat[4..], t2) == Some(t3);
    assert MatchFrom(s, 7, DateFormat[3..], t2) == Some(t3);
    assert MatchFrom(s, 5, DateFormat[2..], t1) == Some(t3);
    assert MatchFrom(s, 4, DateFormat[1..], t1) == Some(t3);
    assert MatchFrom(s, 0, DateFormat, Defaults) == Some(t3);
  }

  /** "HH:MM" written with two digits each parses back under "%H:%M". */
  lemma ClockParses(h: nat, m: nat)
    requires h <= 23 && m <= 59
    ensures Parse(Pad2(h) + ":" + Pad2(m), ClockFormat) == Some(Defaults.(hour := h, minute := m))
  {
    var s := Pad2(h) + ":" + Pad2(m);
    assert s[..2] == Pad2(h) && s[2] == ':' && s[3..5] == Pad2(m) && |s| == 5;
    assert 10 * (h / 10) + h % 10 == h;
    assert 10 * (m / 10) + m % 10 == m;
    assert ScanField(s, 0, Hour) == Some(Scan(h, 2));
    assert ScanField(s, 3, Minute) == Some(Scan(m, 5));
    var t1 := Defaults.(hour := h);
    var t2 := t1.(minute := m);
    assert MatchFrom(s, 5, [], t2) == Some(t2);
    assert MatchFrom(s, 3, ClockFormat[2..], t1) == Some(t2);
    assert MatchFrom(s, 2, ClockFormat[1..], t1) == Some(t2);
    assert MatchFrom(s, 0, ClockFormat, Defaults) == Some(t2);
  }
}
