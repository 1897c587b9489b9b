/**
 * The aggregation behind the bar chart: a left-to-right fold over hourly counter
 * records that fills 24 per-hour slots and 7 per-weekday slots, sums all rides and
 * tracks the "busiest date" with a day-of-month grouping whose groups are only
 * judged when the next day begins.
 */
module BikeData {
  import opened Optional
  import opened Sums

  /** The UTC hour of a record, 0..23. */
  type Hour = h: int | 0 <= h < 24

  /** The UTC day of the week of a record, 0 (Sunday) .. 6 (Saturday). */
  type WeekdayIndex = d: int | 0 <= d < 7

  /** The UTC day of the month of a record, 1..31; never the sentinel 0. */
  type DayOfMonth = d: int | 1 <= d <= 31 witness 1

  /** A point in time in milliseconds, standing for the record's decoded `Date`. */
  datatype Stamp = Stamp(millis: int)

  /**
   * One hourly record of the Fremont Bridge counter, already decoded. `nb` and `sb`
   * are the results of reading the northbound and southbound counts as integers,
   * `None` when the reading fails. `hour`, `weekday` and `dayOfMonth` are the
   * UTC calendar fields of `stamp`.
   */
  datatype Record = Record(
    stamp: Stamp,
    nb: Option<int>,
    sb: Option<int>,
    hour: Hour,
    weekday: WeekdayIndex,
    dayOfMonth: DayOfMonth)

  /**
   * A record takes part in the aggregation only when both counts are numbers; the
   * sum of two numbers is then a number as well.
   */
  predicate IsValid(r: Record)
  {
    r.nb.Some? && r.sb.Some?
  }

  /** Northbound plus southbound riders in the record's hour. */
  function HourlyTotal(r: Record): int
    requires IsValid(r)
  {
    r.nb.value + r.sb.value
  }

  /**
   * The aggregation's output. `dailyTotals` is indexed by weekday, not by date;
   * `busiestDate` is `None` where the chart holds `null`.
   */
  datatype Summary = Summary(
    monthlyTotalsPerHour: seq<int>,
    dailyTotals: seq<int>,
    totalRides: int,
    busiestDate: Option<Stamp>,
    busiestDateCount: int)

  /** 24 hour slots and 7 weekday slots. */
  predicate WellShaped(s: Summary)
  {
    |s.monthlyTotalsPerHour| == 24 && |s.dailyTotals| == 7
  }

  /**
   * The loop state: the output so far, the day of month of the group being summed
   * (0 until the first valid record) and that group's running total.
   */
  datatype FoldState = FoldState(output: Summary, previousDay: int, dailyTotal: int)

  /** The state before the first record: every slot and total 0, no busiest date. */
  const Initial: FoldState :=
    FoldState(Summary(Zeros(24), Zeros(7), 0, None, 0), 0, 0)

  /**
   * Judges the group that just closed with `dailyTotal` riders: it becomes the
   * busiest when it beats the best so far strictly, and `date` is then recorded.
   */
  function CloseDay(out: Summary, dailyTotal: int, date: Stamp): (r: Summary)
    ensures r.busiestDateCount >= out.busiestDateCount
    ensures r.monthlyTotalsPerHour == out.monthlyTotalsPerHour && r.dailyTotals == out.dailyTotals
    ensures r.totalRides == out.totalRides
  {
    if dailyTotal > out.busiestDateCount then out.(busiestDate := Some(date), busiestDateCount := dailyTotal)
    else out
  }

  /**
   * One iteration of the loop. An invalid record leaves the state as it is. A valid
   * record first adopts its day as the current one if none is set; if its day
   * differs from the current one, the current group is closed (recording this
   * record's date if the group wins) and a new group begins. Then the record's
   * total is added to the group, to the ride total, to its hour's slot and to its
   * weekday's slot.
   */
  function Step(s: FoldState, r: Record): (t: FoldState)
    requires WellShaped(s.output)
    ensures WellShaped(t.output)
    ensures !IsValid(r) ==> t == s
    ensures IsValid(r) ==> t.previousDay == r.dayOfMonth
    ensures IsValid(r) ==> t.output.totalRides == s.output.totalRides + HourlyTotal(r)
    ensures IsValid(r) ==>
              t.output.monthlyTotalsPerHour ==
                s.output.monthlyTotalsPerHour[r.hour := s.output.monthlyTotalsPerHour[r.hour] + HourlyTotal(r)]
    ensures IsValid(r) ==>
              t.output.dailyTotals == s.output.dailyTotals[r.weekday := s.output.dailyTotals[r.weekday] + HourlyTotal(r)]
    ensures t.output.busiestDateCount >= s.output.busiestDateCount
  {
    if !IsValid(r) then s
    else
      var total := HourlyTotal(r);
      var previousDay := if s.previousDay == 0 then r.dayOfMonth else s.previousDay;
      var boundary := r.dayOfMonth != previousDay;
      var out := if boundary then CloseDay(s.output, s.dailyTotal, r.stamp) else s.output;
      var dailyTotal := if boundary then 0 else s.dailyTotal;
      FoldState(
        out.(monthlyTotalsPerHour := out.monthlyTotalsPerHour[r.hour := out.monthlyTotalsPerHour[r.hour] + total],
             dailyTotals := out.dailyTotals[r.weekday := out.dailyTotals[r.weekday] + total],
             totalRides := out.totalRides + total),
        r.dayOfMonth,
        dailyTotal + total)
  }

  /** The state after the loop has run over all of `rs`, in order. */
  function Fold(rs: seq<Record>): (s: FoldState)
    ensures WellShaped(s.output)
    ensures s.output.busiestDateCount >= 0
    ensures s.output.busiestDate.None? <==> s.output.busiestDateCount == 0
    ensures s.previousDay == 0 <==> forall i :: 0 <= i < |rs| ==> !IsValid(rs[i])
  {
    if |rs| == 0 then Initial else Step(Fold(rs[..|rs| - 1]), rs[|rs| - 1])
  }

  /** Appending a record runs one more iteration of the loop. */
  lemma {:induction false} FoldSnoc(rs: seq<Record>, r: Record)
    ensures Fold(rs + [r]) == Step(Fold(rs), r)
  {
    assert (rs + [r])[..|rs|] == rs;
  }

  /** The aggregated output for the records `rs`. */
  function ProcessBikeData(rs: seq<Record>): (out: Summary)
    ensures |out.monthlyTotalsPerHour| == 24 && |out.dailyTotals| == 7
    ensures out.busiestDateCount >= 0
    ensures out.busiestDate.None? <==> out.busiestDateCount == 0
  {
    Fold(rs).output
  }
}
