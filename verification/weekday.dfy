/** The weekday statistic shown under the chart: the busiest weekday's name and its total. */
module Weekday {
  import opened Optional
  import opened Argmax
  import opened Decimal

  /** The weekday names in `getUTCDay` order: index 0 is Sunday, 6 is Saturday. */
  const WeekdayNames: seq<string> :=
    ["Sunday", "Monday", "Tuesday", "Wednesday", "Thursday", "Friday", "Saturday"]

  /**
   * The English name of weekday `day`, 0 being Sunday. `None` stands for the
   * `undefined` the scan leaves when no weekday is positive; it and every number
   * outside 0..6 fall through to "Unknown".
   */
  function Day2String(day: Option<int>): (name: string)
    ensures name == "Unknown" <==> day.None? || !(0 <= day.value < 7)
    ensures |name| >= 6 && name[|name| - 3..] == "day" <==> day.Some? && 0 <= day.value < 7
    ensures day.Some? && 0 <= day.value < 7 ==> name == WeekdayNames[day.value]
  {
    match day
    case None => "Unknown"
    case Some(d) =>
      if d == 0 then "Sunday"
      else if d == 1 then "Monday"
      else if d == 2 then "Tuesday"
      else if d == 3 then "Wednesday"
      else if d == 4 then "Thursday"
      else if d == 5 then "Friday"
      else if d == 6 then "Saturday"
      else "Unknown"
  }

  /** Different weekdays get different names. */
  lemma {:induction false} Day2StringInjective(a: int, b: int)
    requires 0 <= a < 7 && 0 <= b < 7
    requires Day2String(Some(a)) == Day2String(Some(b))
    ensures a == b
  {
  }

  /** The busiest weekday: the lowest index holding the strictly largest positive total. */
  function BusiestWeekday(dailyTotals: seq<int>): (p: Pick)
    ensures IsFirstStrictMax(dailyTotals, p)
  {
    FirstStrictMax(dailyTotals)
  }

  /**
   * The statistic text: the name of the first weekday holding the strictly largest
   * positive total, followed by that total in parentheses.
   */
  function BusiestWeekdayText(dailyTotals: seq<int>): (text: string)
    ensures (forall i :: 0 <= i < |dailyTotals| ==> dailyTotals[i] <= 0) ==> text == "Unknown (0)"
    ensures |dailyTotals| == 7 && (exists i :: 0 <= i < 7 && dailyTotals[i] > 0) ==>
              exists d :: 0 <= d < 7 && text == Day2String(Some(d)) + " (" + IntToString(dailyTotals[d]) + ")"
    ensures forall p :: IsFirstStrictMax(dailyTotals, p) ==>
              text == Day2String(p.index) + " (" + IntToString(p.max) + ")"
  {
    var p := BusiestWeekday(dailyTotals);
    FirstStrictMaxOnly(dailyTotals);
    Day2String(p.index) + " (" + IntToString(p.max) + ")"
  }
}
