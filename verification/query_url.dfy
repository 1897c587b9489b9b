/**
 * The data-service URL for one selected month: the first day of the month up to,
 * but excluding, the first day of the following month, with zero-padded months
 * and a December-to-January year rollover.
 */
module QueryUrl {
  import opened Optional
  import opened Decimal

  /** The fixed endpoint of the bike counter dataset. */
  const DataUrl: string := "http://data.seattle.gov/resource/65db-xm6k.json?"

  /**
   * The `$where` template `date >= '{start}' AND date < '{end}'`, URL-encoded, cut at
   * its two placeholders. Each placeholder occurs once, so replacing the first
   * occurrence of each amounts to splicing the dates between these pieces.
   */
  const WhereOpen: string := "$where=date%3E%3D%27"
  const WhereMiddle: string := "%27+AND+date%3C%27"
  const WhereClose: string := "%27"

  /** A string made only of digits and minus signs, as every rendered date is. */
  predicate DateChars(s: string)
  {
    forall k :: 0 <= k < |s| ==> IsDigit(s[k]) || s[k] == '-'
  }

  /** The month rendered with a leading '0' when it is below 10. */
  function PadMonth(month: int): (s: string)
    ensures |s| >= 2 && DateChars(s)
    ensures s[0] == '0' <==> month < 10
    ensures 0 <= month < 100 ==> |s| == 2 && AllDigits(s) && DigitsToNat(s) == month
  {
    if month < 10 then
      var s := "0" + IntToString(month);
      if month >= 0 then
        LeadingZero(IntToString(month));
        NatToStringRoundTrip(month);
        s
      else s
    else
      NatToStringRoundTrip(month);
      IntToString(month)
  }

  /** The start and end dates of one query. */
  datatype DateRange = DateRange(start: string, end: string)

  /** Year, month and day of an ISO 8601 calendar date. */
  datatype CalendarDate = CalendarDate(year: int, month: int, day: int)

  /** Months counted from January of year 0; consecutive months differ by one. */
  function MonthIndex(d: CalendarDate): int
  {
    d.year * 12 + (d.month - 1)
  }

  /**
   * Reads `YYYY-MM-DD`: a year of one or more digits, with a leading '-' when it is
   * negative, then a two-digit month and a two-digit day.
   */
  function ParseIsoDate(s: string): Option<CalendarDate>
  {
    if |s| < 7 then None
    else
      var y, m, d := ReadInt(s[..|s| - 6]), s[|s| - 5..|s| - 3], s[|s| - 2..];
      if s[|s| - 6] == '-' && s[|s| - 3] == '-' && y.Some? && AllDigits(m) && AllDigits(d)
      then Some(CalendarDate(y.value, DigitsToNat(m), DigitsToNat(d)))
      else None
  }

  /** The first day of a month, written as the chart writes it. */
  function FirstOfMonth(year: int, month: int): (s: string)
    ensures DateChars(s)
  {
    IntToString(year) + "-" + PadMonth(month) + "-01"
  }

  /** The date reader sees a string through its year, month and day fields. */
  lemma {:induction false} ParseIsoDateFields(s: string, y: string, m: string, d: string)
    requires |s| >= 7 && s[|s| - 6] == '-' && s[|s| - 3] == '-'
    requires s[..|s| - 6] == y && s[|s| - 5..|s| - 3] == m && s[|s| - 2..] == d
    ensures ParseIsoDate(s) ==
              if ReadInt(y).Some? && AllDigits(m) && AllDigits(d)
              then Some(CalendarDate(ReadInt(y).value, DigitsToNat(m), DigitsToNat(d)))
              else None
  {
  }

  /** Any signed year and two-digit month, spliced into `Y-MM-01`, read back as day 1. */
  lemma {:induction false} ParseFirstSpliced(y: string, m: string, year: int)
    requires ReadInt(y) == Some(year) && |m| == 2 && AllDigits(m)
    ensures ParseIsoDate(y + "-" + m + "-01") == Some(CalendarDate(year, DigitsToNat(m), 1))
  {
    var s := y + "-" + m + "-01";
    assert |y| > 0 && |s| == |y| + 6;
    assert s[|s| - 6] == '-' && s[|s| - 3] == '-';
    assert s[..|s| - 6] == y;
    assert s[|s| - 5..|s| - 3] == m;
    assert s[|s| - 2..] == "01";
    ParseIsoDateFields(s, y, m, "01");
    DigitsOfOne();
  }

  lemma {:induction false} DigitsOfOne()
    ensures AllDigits("01") && DigitsToNat("01") == 1
  {
    assert "01"[..1] == "0";
    assert "0"[..0] == "";
  }

  /** Reading back a first-of-month date written for a real month gives that date. */
  lemma {:induction false} FirstOfMonthParses(year: int, month: int)
    requires 1 <= month <= 12
    ensures ParseIsoDate(FirstOfMonth(year, month)) == Some(CalendarDate(year, month, 1))
  {
    IntToStringRoundTrip(year);
    ParseFirstSpliced(IntToString(year), PadMonth(month), year);
  }

  /** January's first day, written as the chart writes it for a December rollover. */
  lemma {:induction false} NewYearsDay(year: int)
    ensures FirstOfMonth(year, 1) == IntToString(year) + "-01-01"
  {
    assert PadMonth(1) == "01";
  }

  /**
   * The query's date range: from the first of `month` to the first of the next
   * month, where December rolls over into January of the next year.
   */
  function QueryRange(month: int, year: int): (r: DateRange)
    ensures r.end == if month == 12 then FirstOfMonth(year + 1, 1) else FirstOfMonth(year, month + 1)
    ensures DateChars(r.start) && DateChars(r.end)
  {
    var start := FirstOfMonth(year, month);
    var end := if month == 12 then IntToString(year + 1) + "-01-01" else FirstOfMonth(year, month + 1);
    NewYearsDay(year + 1);
    DateRange(start, end)
  }

  /** December's range ends on the first of January of the following year. */
  lemma {:induction false} DecemberRollsOver(year: int)
    ensures QueryRange(12, year).end == FirstOfMonth(year + 1, 1)
  {
    assert PadMonth(1) == "01";
  }

  /**
   * For a real month, the range starts on the first of that month and ends on the
   * first of the calendar month right after it.
   */
  lemma {:induction false} QueryRangeIsOneMonth(month: int, year: int)
    requires 1 <= month <= 12
    ensures ParseIsoDate(QueryRange(month, year).start) == Some(CalendarDate(year, month, 1))
    ensures ParseIsoDate(QueryRange(month, year).end).Some?
    ensures var e := ParseIsoDate(QueryRange(month, year).end).value;
            && e.day == 1
            && 1 <= e.month <= 12
            && MonthIndex(e) == MonthIndex(CalendarDate(year, month, 1)) + 1
  {
    var r := QueryRange(month, year);
    assert r.start == FirstOfMonth(year, month);
    FirstOfMonthParses(year, month);
    if month == 12 {
      DecemberRollsOver(year);
      FirstOfMonthParses(year + 1, 1);
    } else {
      assert r.end == FirstOfMonth(year, month + 1);
      FirstOfMonthParses(year, month + 1);
    }
  }

  /** The position of the first `c` in `s`, if any. */
  function FirstIndexOf(s: string, c: char): (k: Option<int>)
    ensures k.None? ==> forall i :: 0 <= i < |s| ==> s[i] != c
    ensures k.Some? ==> 0 <= k.value < |s| && s[k.value] == c && forall i :: 0 <= i < k.value ==> s[i] != c
  {
    if |s| == 0 then None
    else if s[0] == c then Some(0)
    else match FirstIndexOf(s[1..], c)
      case None => None
      case Some(k) => Some(k + 1)
  }

  /** `s` begins with `p`. */
  predicate StartsWith(s: string, p: string)
  {
    |p| <= |s| && s[..|p|] == p
  }

  /** The text between a known `head` and a known `tail`, if `s` has both. */
  function Unframe(s: string, head: string, tail: string): Option<string>
  {
    if |s| < |head| + |tail| || !StartsWith(s, head) || s[|s| - |tail|..] != tail then None
    else Some(s[|head|..|s| - |tail|])
  }

  lemma {:induction false} UnframeFramed(s: string, head: string, body: string, tail: string)
    requires s == head + body + tail
    ensures Unframe(s, head, tail) == Some(body)
  {
    assert s[..|head|] == head;
    assert s[|s| - |tail|..] == tail;
    assert s[|head|..|s| - |tail|] == body;
  }

  /** Splits `body` at its first '%', which must open `middle`. */
  function SplitAtPercent(body: string, middle: string): Option<DateRange>
  {
    match FirstIndexOf(body, '%')
    case None => None
    case Some(k) =>
      if StartsWith(body[k..], middle) then Some(DateRange(body[..k], body[k + |middle|..])) else None
  }

  lemma {:induction false} SplitAtPercentSpliced(start: string, middle: string, end: string)
    requires DateChars(start)
    requires |middle| > 0 && middle[0] == '%'
    ensures SplitAtPercent(start + middle + end, middle) == Some(DateRange(start, end))
  {
    var body := start + middle + end;
    assert body[|start|] == '%';
    var k := FirstIndexOf(body, '%');
    assert k == Some(|start|);
    assert body[|start|..][..|middle|] == middle;
    assert body[..|start|] == start;
    assert body[|start| + |middle|..] == end;
  }

  /**
   * Recovers the date range from a query URL: strips the endpoint and the fixed
   * pieces of the `$where` clause, splitting at the first '%' after the start date.
   */
  function ParseUrl(url: string): Option<DateRange>
  {
    match Unframe(url, DataUrl + WhereOpen, WhereClose)
    case None => None
    case Some(body) => SplitAtPercent(body, WhereMiddle)
  }

  /** Any start date free of '%' and any end date read back from the URL built around them. */
  lemma {:induction false} ParseUrlSpliced(start: string, end: string)
    requires DateChars(start)
    ensures ParseUrl(DataUrl + WhereOpen + start + WhereMiddle + end + WhereClose) == Some(DateRange(start, end))
  {
    var head, body := DataUrl + WhereOpen, start + WhereMiddle + end;
    UnframeFramed(DataUrl + WhereOpen + start + WhereMiddle + end + WhereClose, head, body, WhereClose);
    assert WhereMiddle[0] == '%';
    SplitAtPercentSpliced(start, WhereMiddle, end);
  }

  /**
   * The URL for a month and year: the endpoint followed by the `$where` clause of
   * `QueryRange`. Its date range reads back unchanged, for every month and year.
   */
  function FormatUrl(month: int, year: int): (url: string)
    ensures ParseUrl(url) == Some(QueryRange(month, year))
  {
    var r := QueryRange(month, year);
    ParseUrlSpliced(r.start, r.end);
    DataUrl + WhereOpen + r.start + WhereMiddle + r.end + WhereClose
  }
}
