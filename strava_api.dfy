/**
 * The activity API client: the rate-limit decision taken after every
 * response, the outcome of one request, and the paginated activity listing.
 * The HTTP transport, the sleeps and the process exit are not performed:
 * a response is an input and the rate-limit check returns what it would do.
 */
module StravaApi {
  import opened Values
  import opened PyStr

  const ShortLimit: int := 100
  const DailyLimit: int := 1000
  /** Seconds slept after a 429 answer and when the 15-minute window is nearly used. */
  const TooManyRequestsPause: nat := 5 * 60
  const ShortWindowPause: nat := 15 * 60

  /** What a response carries that the client looks at. */
  datatype Response = Response(status: int, usageHeader: Option<string>, body: Option<Value>)

  /** How the rate-limit check ends: the caller goes on, the process exits, or
      the usage header does not hold two integers (a ValueError). */
  datatype Verdict = Proceed | ExitRun | BadHeader

  /** The sleeps (in seconds, in order) `check_rate_limit` performs, and how it ends. */
  datatype RateDecision = RateDecision(sleeps: seq<nat>, verdict: Verdict)

  /** `headers.get("X-RateLimit-Usage", "0,0").split(",")` mapped through `int`,
      unpacked into exactly two values. */
  function ParseUsage(header: Option<string>): Option<(int, int)>
  {
    var text := match header case Some(h) => h case None => "0,0";
    var parts := Split(text, ",");
    if |parts| != 2 then None
    else match (ParseInt(parts[0]), ParseInt(parts[1]))
      case (Some(s), Some(d)) => Some((s, d))
      case _ => None
  }

  /** `check_rate_limit`: the daily limit is checked before the short window. */
  function CheckRateLimit(response: Option<Response>): (d: RateDecision)
    ensures response.None? ==> d == RateDecision([], Proceed)
    ensures response.Some? && response.value.status == 429 ==> |d.sleeps| >= 1 && d.sleeps[0] == TooManyRequestsPause
    ensures response.Some? && response.value.status != 429 ==> TooManyRequestsPause !in d.sleeps
    ensures response.Some? ==>
      match ParseUsage(response.value.usageHeader)
      case None => d.verdict == BadHeader && ShortWindowPause !in d.sleeps
      case Some(u) =>
        && (d.verdict == ExitRun <==> u.1 >= DailyLimit)
        && (d.verdict == Proceed <==> u.1 < DailyLimit)
        && (ShortWindowPause in d.sleeps <==> u.1 < DailyLimit && u.0 >= ShortLimit - 1)
        && (ShortWindowPause in d.sleeps ==> d.sleeps[|d.sleeps| - 1] == ShortWindowPause)
  {
    match response
    case None => RateDecision([], Proceed)
    case Some(r) =>
      var before := if r.status == 429 then [TooManyRequestsPause] else [];
      match ParseUsage(r.usageHeader)
      case None => RateDecision(before, BadHeader)
      case Some((shortUsage, dailyUsage)) =>
        if dailyUsage >= DailyLimit then RateDecision(before, ExitRun)
        else if shortUsage >= ShortLimit - 1 then RateDecision(before + [ShortWindowPause], Proceed)
        else RateDecision(before, Proceed)
  }

  /** A response without the usage header is treated as usage "0,0": only the
      429 pause, if any, and the run goes on. */
  lemma MissingHeaderIsZeroUsage(status: int, body: Option<Value>)
    ensures CheckRateLimit(Some(Response(status, None, body))) ==
            RateDecision(if status == 429 then [TooManyRequestsPause] else [], Proceed)
  {
    DefaultUsage();
  }

  /** The default header "0,0" reads as no usage at all. */
  lemma DefaultUsage()
    ensures ParseUsage(None) == Some((0, 0))
  {
    var text := "0,0";
    assert text == "0" + "," + "0";
    SplitCommaFree("0", "0");
    var parts := Split(text, ",");
    assert parts == ["0", "0"];
    assert AllDigits("0") && DigitsValue("0") == 0;
    assert ParseInt(parts[0]) == Some(0) && ParseInt(parts[1]) == Some(0);
  }

  /** The header as the API writes it, "<short>,<daily>", reads back as both counters. */
  lemma UsageHeaderRoundTrip(shortUsage: nat, dailyUsage: nat)
    ensures ParseUsage(Some(DecimalText(shortUsage) + "," + DecimalText(dailyUsage))) == Some((shortUsage, dailyUsage))
  {
    DecimalRoundTrip(shortUsage);
    DecimalRoundTrip(dailyUsage);
    SplitCommaFree(DecimalText(shortUsage), DecimalText(dailyUsage));
  }

  /** Two comma-free pieces joined by "," split back into those pieces. */
  lemma SplitCommaFree(a: string, b: string)
    requires AllDigits(a) && AllDigits(b)
    ensures Split(a + "," + b, ",") == [a, b]
  {
    var s := a + "," + b;
    assert OccursAt(s, ",", |a|);
    forall j | 0 <= j < |a| ensures !OccursAt(s, ",", j) {
      assert s[j..j + 1] == [a[j]];
    }
    assert IndexOf(s, ",").Some?;
    assert IndexOf(s, ",").value == |a|;
    assert s[..|a|] == a && s[|a| + 1..] == b;
    forall j | 0 <= j < |b| ensures !OccursAt(b, ",", j) {
      assert b[j..j + 1] == [b[j]];
    }
    assert IndexOf(b, ",").None?;
  }

  /** When the daily limit is reached the run exits, and the 15-minute pause
      never happens, whatever the short-window usage. */
  lemma ExitWinsOverPause(status: int, shortUsage: nat, dailyUsage: nat, body: Option<Value>)
    requires dailyUsage >= DailyLimit
    ensures var d := CheckRateLimit(Some(Response(status, Some(DecimalText(shortUsage) + "," + DecimalText(dailyUsage)), body)));
            d.verdict == ExitRun && ShortWindowPause !in d.sleeps
  {
    UsageHeaderRoundTrip(shortUsage, dailyUsage);
  }

  /** A short-window usage of 99 or more below the daily limit gives one
      15-minute pause, after which the run goes on. */
  lemma ShortWindowPausesOnce(shortUsage: nat, dailyUsage: nat, body: Option<Value>)
    requires shortUsage >= ShortLimit - 1 && dailyUsage < DailyLimit
    ensures CheckRateLimit(Some(Response(200, Some(DecimalText(shortUsage) + "," + DecimalText(dailyUsage)), body)))
            == RateDecision([ShortWindowPause], Proceed)
  {
    UsageHeaderRoundTrip(shortUsage, dailyUsage);
  }

  /** What the transport did: raised a RequestException, or answered. */
  datatype Transport = TransportFailed | Answered(response: Response)

  /** How `make_request` ends: it returns the decoded body or None, the process
      exits, or an exception escapes. */
  datatype Reply = Returned(data: Option<Value>) | SystemExit | Raised(error: PyError)

  datatype Outcome = Outcome(sleeps: seq<nat>, reply: Reply)

  /** `make_request`: an unsupported method is a ValueError that escapes; a
      RequestException (transport failure, an HTTP error status from
      `raise_for_status`, a body that is not JSON) is logged and gives None.
      The rate-limit check runs before the status is checked. */
  function MakeRequest(httpMethod: string, transport: Transport): (o: Outcome)
    ensures httpMethod != "GET" && httpMethod != "POST" ==> o == Outcome([], Raised(ValueError))
    ensures (httpMethod == "GET" || httpMethod == "POST") && transport.TransportFailed? ==> o == Outcome([], Returned(None))
    ensures (httpMethod == "GET" || httpMethod == "POST") && transport.Answered? ==>
      var d := CheckRateLimit(Some(transport.response));
      && o.sleeps == d.sleeps
      && (d.verdict == ExitRun ==> o.reply == SystemExit)
      && (d.verdict == BadHeader ==> o.reply == Raised(ValueError))
      && (d.verdict == Proceed && 400 <= transport.response.status < 600 ==> o.reply == Returned(None))
      && (d.verdict == Proceed && !(400 <= transport.response.status < 600) ==> o.reply == Returned(transport.response.body))
  {
    if httpMethod != "GET" && httpMethod != "POST" then Outcome([], Raised(ValueError))
    else match transport
      case TransportFailed => Outcome([], Returned(None))
      case Answered(r) =>
        var d := CheckRateLimit(Some(r));
        match d.verdict
        case ExitRun => Outcome(d.sleeps, SystemExit)
        case BadHeader => Outcome(d.sleeps, Raised(ValueError))
        case Proceed =>
          if 400 <= r.status < 600 then Outcome(d.sleeps, Returned(None))
          else Outcome(d.sleeps, Returned(r.body))
  }

  /** A 429 answer below the daily limit is slept on for five minutes and then
      ends as None: the request is not sent again. */
  lemma TooManyRequestsIsNotRetried(r: Response)
    requires r.status == 429
    requires ParseUsage(r.usageHeader).Some? && ParseUsage(r.usageHeader).value.1 < DailyLimit
    ensures var o := MakeRequest("GET", Answered(r));
            o.sleeps[0] == TooManyRequestsPause && o.reply == Returned(None)
  {
  }

  // ---------------------------------------------------------------------
  // Pagination

  /** The listing endpoint, as the finite sequence of pages it serves: page
      number p (from 1) is pages[p - 1]; an empty list stands both for an
      empty page and for a request that gave None; pages past the end are empty. */
  function PageAt(pages: seq<seq<Value>>, page: nat): (r: seq<Value>)
    ensures |r| > 0 ==> 1 <= page <= |pages|
  {
    if 1 <= page <= |pages| then pages[page - 1] else []
  }

  /** `max_activities` is truthy: present and non-zero. */
  predicate CapActive(cap: Option<int>) { cap.Some? && cap.value != 0 }

  /** `s[:m]` with Python's meaning for a negative bound. */
  function SliceTo<T>(s: seq<T>, m: int): (r: seq<T>)
    ensures r <= s
    ensures m >= 0 ==> |r| == if m < |s| then m else |s|
  {
    if m >= 0 then Prefix(s, m)
    else if |s| + m > 0 then s[..|s| + m]
    else []
  }

  /** One listing request: its `per_page` and `page` parameters. */
  datatype PageRequest = PageRequest(perPage: int, page: nat)

  /** Pages 1 to n concatenated in order. */
  function ConcatPages(pages: seq<seq<Value>>, n: nat): seq<Value>
  {
    if n == 0 then [] else ConcatPages(pages, n - 1) + PageAt(pages, n)
  }

  /** The loop of `get_activities` from page number `page` on, with `acc`
      gathered so far: the activities returned and the last page requested. */
  function FetchFrom(pages: seq<seq<Value>>, perPage: int, cap: Option<int>, page: nat, acc: seq<Value>): (seq<Value>, nat)
    requires page >= 1
    decreases |pages| + 1 - page
  {
    var data := PageAt(pages, page);
    if |data| == 0 then (acc, page)
    else
      var gathered := acc + data;
      if CapActive(cap) && |gathered| >= cap.value then (SliceTo(gathered, cap.value), page)
      else if |data| < perPage then (gathered, page)
      else FetchFrom(pages, perPage, cap, page + 1, gathered)
  }

  function FetchActivities(pages: seq<seq<Value>>, perPage: int, cap: Option<int>): (seq<Value>, nat)
  {
    FetchFrom(pages, perPage, cap, 1, [])
  }

  /** The loop went on after page p: the page was non-empty, full, and the cap
      was not reached. */
  predicate ContinuedAfter(pages: seq<seq<Value>>, perPage: int, cap: Option<int>, p: nat) {
    && |PageAt(pages, p)| > 0
    && |PageAt(pages, p)| >= perPage
    && !(CapActive(cap) && |ConcatPages(pages, p)| >= cap.value)
  }

  /** Page n is where the loop stops: empty, the cap is reached, or short. */
  predicate StopsAt(pages: seq<seq<Value>>, perPage: int, cap: Option<int>, n: nat) {
    || |PageAt(pages, n)| == 0
    || (CapActive(cap) && |ConcatPages(pages, n)| >= cap.value)
    || |PageAt(pages, n)| < perPage
  }

  /** The activities a stop at page n leaves: the pages so far, cut at the cap
      when the cap is what stopped the loop. */
  function Gathered(pages: seq<seq<Value>>, cap: Option<int>, n: nat): seq<Value> {
    var all := ConcatPages(pages, n);
    if |PageAt(pages, n)| > 0 && CapActive(cap) && |all| >= cap.value then SliceTo(all, cap.value) else all
  }

  lemma {:induction false} FetchFromShape(pages: seq<seq<Value>>, perPage: int, cap: Option<int>, page: nat)
    requires page >= 1
    ensures var (r, n) := FetchFrom(pages, perPage, cap, page, ConcatPages(pages, page - 1));
            && n >= page
            && (forall p :: page <= p < n ==> ContinuedAfter(pages, perPage, cap, p))
            && StopsAt(pages, perPage, cap, n)
            && r == Gathered(pages, cap, n)
    decreases |pages| + 1 - page
  {
    var acc := ConcatPages(pages, page - 1);
    var data := PageAt(pages, page);
    assert ConcatPages(pages, page) == acc + data;
    if |data| > 0 && !(CapActive(cap) && |acc + data| >= cap.value) && |data| >= perPage {
      FetchFromShape(pages, perPage, cap, page + 1);
    }
  }

  /** The loop stops at the first empty page, at the first page that brings the
      total to the cap, or right after the first short page; every page before
      the last was non-empty and held at least `per_page` activities; the result
      is the pages in order, cut to the cap when the cap stopped the loop. */
  lemma FetchActivitiesShape(pages: seq<seq<Value>>, perPage: int, cap: Option<int>)
    ensures var (r, n) := FetchActivities(pages, perPage, cap);
            && n >= 1
            && (forall p :: 1 <= p < n ==> ContinuedAfter(pages, perPage, cap, p))
            && StopsAt(pages, perPage, cap, n)
            && r == Gathered(pages, cap, n)
  {
    FetchFromShape(pages, perPage, cap, 1);
  }

  /** With a positive cap the result never holds more than the cap. */
  lemma CapBoundsResult(pages: seq<seq<Value>>, perPage: int, cap: Option<int>)
    requires cap.Some? && cap.value > 0
    ensures |FetchActivities(pages, perPage, cap).0| <= cap.value
  {
    FetchActivitiesShape(pages, perPage, cap);
    var (r, n) := FetchActivities(pages, perPage, cap);
    var all := ConcatPages(pages, n);
    if !(|PageAt(pages, n)| > 0 && |all| >= cap.value) {
      if n > 1 {
        assert ContinuedAfter(pages, perPage, cap, n - 1);
        assert all == ConcatPages(pages, n - 1) + PageAt(pages, n);
      }
    }
  }

  /** Without a cap (None or 0) the result is every page requested, concatenated in order. */
  lemma NoCapKeepsEverything(pages: seq<seq<Value>>, perPage: int, cap: Option<int>)
    requires !CapActive(cap)
    ensures var (r, n) := FetchActivities(pages, perPage, cap); r == ConcatPages(pages, n)
  {
    FetchActivitiesShape(pages, perPage, cap);
  }

  /** `get_activities`: requests pages 1, 2, 3, ... with the same `per_page`,
      one request per iteration, and returns what the loop gathered. */
  method GetActivities(pages: seq<seq<Value>>, perPage: int, cap: Option<int>)
    returns (activities: seq<Value>, requests: seq<PageRequest>)
    ensures |requests| >= 1
    ensures forall i :: 0 <= i < |requests| ==> requests[i] == PageRequest(perPage, i + 1)
    ensures (activities, |requests|) == FetchActivities(pages, perPage, cap)
  {
    activities := [];
    requests := [];
    var page: nat := 1;
    while true
      invariant 1 <= page <= |pages| + 1
      invariant |requests| == page - 1
      invariant forall i :: 0 <= i < |requests| ==> requests[i] == PageRequest(perPage, i + 1)
      invariant FetchFrom(pages, perPage, cap, page, activities) == FetchActivities(pages, perPage, cap)
      decreases |pages| + 1 - page
    {
      requests := requests + [PageRequest(perPage, page)];
      var data := PageAt(pages, page);
      if |data| == 0 {
        break;
      }
      activities := activities + data;
      if CapActive(cap) && |activities| >= cap.value {
        activities := SliceTo(activities, cap.value);
        break;
      }
      if |data| < perPage {
        break;
      }
      page := page + 1;
    }
  }
}
