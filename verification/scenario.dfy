/**
 * A worked input: twenty-four hourly records of a Monday the 1st with one rider
 * each way, followed by the first record of Tuesday the 2nd with three northbound
 * and four southbound riders.
 */
module Scenario {
  import opened Optional
  import opened BikeData
  import opened Aggregates
  import opened DayGroups
  import opened BusiestRules
  import opened Argmax
  import opened BusiestFixed

  /** Milliseconds in one hour; stamps count from midnight UTC of the 1st. */
  const HourMillis: int := 3600000

  /** The Monday-the-1st record of hour `h`: one rider each way. */
  function MondayRecord(h: Hour): Record
  {
    Record(Stamp(h * HourMillis), Some(1), Some(1), h, 1, 1)
  }

  /** The Monday records of the first `n` hours, in order. */
  function Monday(n: nat): seq<Record>
    requires n <= 24
  {
    if n == 0 then [] else Monday(n - 1) + [MondayRecord(n - 1)]
  }

  /** The first record of Tuesday the 2nd, at midnight. */
  const TuesdayOpener: Record := Record(Stamp(24 * HourMillis), Some(3), Some(4), 0, 2, 2)

  /** The first `n` Monday hours: all valid, all on the 1st, two riders per hour present. */
  lemma {:induction false} MondaySums(n: nat)
    requires n <= 24
    ensures |Monday(n)| == n
    ensures forall i :: 0 <= i < n ==> Monday(n)[i] == MondayRecord(i)
    ensures RideSum(Monday(n)) == 2 * n
    ensures forall h :: 0 <= h < 24 ==> HourSum(Monday(n), h) == if h < n then 2 else 0
    ensures forall d :: 0 <= d < 7 ==> WeekdaySum(Monday(n), d) == if d == 1 then 2 * n else 0
  {
    if n > 0 {
      MondaySums(n - 1);
      SlotSumsSnoc(Monday(n - 1), MondayRecord(n - 1));
    }
  }

  /**
   * The whole day counts 48 and is judged busiest when Tuesday begins, but the
   * date recorded is Tuesday's first record; each hour slot holds 2, plus
   * Tuesday's 7 at midnight.
   */
  lemma {:induction false} MondayThenTuesday()
    ensures var out := ProcessBikeData(Monday(24) + [TuesdayOpener]);
            && out.busiestDateCount == 48
            && out.busiestDate == Some(TuesdayOpener.stamp)
            && out.totalRides == 55
            && out.monthlyTotalsPerHour[0] == 9
            && (forall h :: 1 <= h < 24 ==> out.monthlyTotalsPerHour[h] == 2)
            && out.dailyTotals == [0, 48, 7, 0, 0, 0, 0]
  {
    var out := ProcessBikeData(Monday(24) + [TuesdayOpener]);
    MondayThenTuesdaySlots();
    assert out.dailyTotals == [0, 48, 7, 0, 0, 0, 0];
    MondaySums(24);
    DayClosedByNextRecord(Monday(24), TuesdayOpener);
  }

  /** The slots and ride total of the worked input, read off the sums over its records. */
  lemma {:induction false} MondayThenTuesdaySlots()
    ensures var out := ProcessBikeData(Monday(24) + [TuesdayOpener]);
            && |out.dailyTotals| == 7
            && out.totalRides == 55
            && out.monthlyTotalsPerHour[0] == 9
            && (forall h :: 1 <= h < 24 ==> out.monthlyTotalsPerHour[h] == 2)
            && (forall d :: 0 <= d < 7 ==> out.dailyTotals[d] == [0, 48, 7, 0, 0, 0, 0][d])
  {
    var day := Monday(24);
    var v := day + [TuesdayOpener];
    MondaySums(24);
    SlotsAreSums(v);
    SlotSumsSnoc(day, TuesdayOpener);
  }

  lemma {:induction false} OnePositiveTotal(y: int)
    requires y > 0
    ensures FirstStrictMax([y]) == Pick(Some(0), y)
  {
    assert [y][..0] == [];
  }

  /**
   * Monday alone: 48 riders, yet the chart reports no busiest date and a count of 0,
   * because its only day group is never judged.
   */
  lemma {:induction false} MondayAloneHasNoBusiestDate()
    ensures RideSum(Monday(24)) == 48
    ensures ProcessBikeData(Monday(24)).busiestDate == None
    ensures ProcessBikeData(Monday(24)).busiestDateCount == 0
  {
    MondaySums(24);
    LastDayNeverJudged(Monday(24));
  }

  /** The corrected statistic picks Monday with 48 riders, dated at Monday's first record. */
  lemma {:induction false} FixedMondayAlone()
    ensures ProcessBikeDataFixed(Monday(24)).busiestDateCount == 48
    ensures ProcessBikeDataFixed(Monday(24)).busiestDate == Some(MondayRecord(0).stamp)
  {
    var day := Monday(24);
    MondaySums(24);
    OneDayIsOneGroup(day);
    FixedJudgesAllGroups(day);
    assert GroupTotals([day]) == [48];
    OnePositiveTotal(48);
  }

  /**
   * With Tuesday's first record appended, the corrected statistic still picks
   * Monday, dated at Monday's first record rather than Tuesday's.
   */
  lemma {:induction false} FixedMondayThenTuesday()
    ensures ProcessBikeDataFixed(Monday(24) + [TuesdayOpener]).busiestDateCount == 48
    ensures ProcessBikeDataFixed(Monday(24) + [TuesdayOpener]).busiestDate == Some(MondayRecord(0).stamp)
  {
    MondaySums(24);
    FixedDayThenNext(Monday(24), TuesdayOpener);
  }
}
