/**
 * `format_date`: the date part of an ISO timestamp as "D. Mon YYYY", used when
 * logging a new activity.
 */
module Utils {
  import opened Values
  import opened PyStr
  import opened Strptime

  /** `%b` in the C locale. */
  function MonthAbbrev(m: int): (r: string)
    requires 1 <= m <= 12
    ensures |r| == 3
  {
    ["Jan", "Feb", "Mar", "Apr", "May", "Jun", "Jul", "Aug", "Sep", "Oct", "Nov", "Dec"][m - 1]
  }

  /** The text before the first "T", or all of it. */
  function DatePart(dateStr: string): string
  {
    Split(dateStr, "T")[0]
  }

  /** `format_date`: a ValueError unless the date part is a valid
      "%Y-%m-%d"; the day is printed without a leading zero, and the year as
      `%Y` prints it on Linux (no padding below 1000). */
  function FormatDate(dateStr: string): (r: Result<string>)
    ensures r.Err? <==> Parse(DatePart(dateStr), DateFormat).None?
    ensures r.Err? ==> r.error == ValueError
  {
    match Parse(DatePart(dateStr), DateFormat)
    case None => Err(ValueError)
    case Some(t) => Ok(DecimalText(t.day) + ". " + MonthAbbrev(t.month) + " " + DecimalText(t.year))
  }

  /** A "T" after a T-free date part ends it, whatever follows. */
  lemma {:induction false} DatePartOfStamp(d: string, rest: string)
    requires 'T' !in d
    ensures DatePart(d + "T" + rest) == d
  {
    var s := d + "T" + rest;
    forall j | 0 <= j < |d| ensures !OccursAt(s, "T", j) {
      assert s[j] == d[j];
    }
    assert s[|d|..|d| + 1] == "T";
    IndexFromFirst(s, "T", 0, |d|);
    assert s[..|d|] == d;
  }

  /** Without a "T" the whole text is the date part. */
  lemma DatePartWhole(d: string)
    requires 'T' !in d
    ensures DatePart(d) == d
  {
    NotFound(d, "T");
  }

  /** The time of day never changes the result. */
  lemma TimeIgnored(d: string, rest: string)
    requires 'T' !in d
    ensures FormatDate(d + "T" + rest) == FormatDate(d)
  {
    DatePartOfStamp(d, rest);
    DatePartWhole(d);
  }

  lemma IsoDateHasNoT(y: nat, m: nat, d: nat)
    requires y <= 9999 && m <= 99 && d <= 99
    ensures 'T' !in IsoDate(y, m, d)
  {
    var s := IsoDate(y, m, d);
    assert s == Pad4(y) + "-" + Pad2(m) + "-" + Pad2(d);
    forall i | 0 <= i < |s| ensures s[i] != 'T' {
      if i < 4 {
        assert s[i] == Pad4(y)[i];
      } else if 5 <= i < 7 {
        assert s[i] == Pad2(m)[i - 5];
      } else if 8 <= i {
        assert s[i] == Pad2(d)[i - 8];
      }
    }
  }

  /** A valid stamp "YYYY-MM-DDThh:mm:ss" prints as its day, month name and year;
      the printed day reads back as the day and has no leading zero. */
  lemma FormatsValidDate(y: nat, m: nat, d: nat, rest: string)
    requires ValidStamp(Stamp(y, m, d, 0, 0, 0))
    ensures FormatDate(IsoDate(y, m, d) + "T" + rest) == Ok(DecimalText(d) + ". " + MonthAbbrev(m) + " " + DecimalText(y))
    ensures AllDigits(DecimalText(d)) && DigitsValue(DecimalText(d)) == d && DecimalText(d)[0] != '0'
  {
    IsoDateHasNoT(y, m, d);
    DatePartOfStamp(IsoDate(y, m, d), rest);
    IsoDateParses(y, m, d);
    DecimalRoundTrip(d);
    LeadingDigit(d);
  }

  /** The decimal text of a positive number does not start with 0. */
  lemma {:induction false} LeadingDigit(n: nat)
    requires n >= 1
    ensures DecimalText(n)[0] != '0'
    decreases n
  {
    if n >= 10 {
      LeadingDigit(n / 10);
      assert DecimalText(n)[0] == DecimalText(n / 10)[0];
    }
  }
}
