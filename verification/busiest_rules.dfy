/**
 * The busiest-date rules of the aggregation as the chart's loop applies them:
 * when the statistic may change, that it never decreases, which date it records,
 * and that the final day group is never judged.
 */
module BusiestRules {
  import opened Optional
  import opened BikeData
  import opened Aggregates
  import opened DayGroups

  /**
   * Appending one record changes the busiest date or count exactly when the record
   * is valid, a day is already under way, the record's day differs from it, and
   * that day's total beats the count strictly; the new count is then that day's
   * total and the new date is the appended record's own date.
   */
  lemma {:induction false} BusiestChangesOnlyAtBoundary(rs: seq<Record>, r: Record)
    ensures var before, after := Fold(rs), Fold(rs + [r]);
            var changed := after.output.busiestDateCount != before.output.busiestDateCount
                           || after.output.busiestDate != before.output.busiestDate;
            && after.output.busiestDateCount >= before.output.busiestDateCount
            && (changed <==>
                  && IsValid(r)
                  && before.previousDay != 0
                  && r.dayOfMonth != before.previousDay
                  && before.dailyTotal > before.output.busiestDateCount)
            && (changed ==>
                  after.output.busiestDate == Some(r.stamp) && after.output.busiestDateCount == before.dailyTotal)
  {
    assert (rs + [r])[..|rs|] == rs;
  }

  /** The busiest count of a prefix never exceeds that of the whole input. */
  lemma {:induction false} BusiestCountNeverDecreases(rs: seq<Record>, k: int)
    requires 0 <= k <= |rs|
    ensures ProcessBikeData(rs[..k]).busiestDateCount <= ProcessBikeData(rs).busiestDateCount
  {
    if k < |rs| {
      var rs' := rs[..|rs| - 1];
      assert rs'[..k] == rs[..k];
      BusiestCountNeverDecreases(rs', k);
      assert rs == rs' + [rs[|rs| - 1]];
      BusiestChangesOnlyAtBoundary(rs', rs[|rs| - 1]);
    } else {
      assert rs[..k] == rs;
    }
  }

  /**
   * When every valid record falls on the same day of the month, no group is ever
   * closed: there is no busiest date and the count stays 0, however many riders
   * that day had.
   */
  lemma {:induction false} LastDayNeverJudged(rs: seq<Record>)
    requires forall i, j :: 0 <= i < |rs| && 0 <= j < |rs| && IsValid(rs[i]) && IsValid(rs[j]) ==>
               rs[i].dayOfMonth == rs[j].dayOfMonth
    ensures ProcessBikeData(rs).busiestDate == None
    ensures ProcessBikeData(rs).busiestDateCount == 0
  {
    var v := ValidRecords(rs);
    var gs := Groups(v);
    if |gs| >= 2 {
      assert DayChanges(gs[0], gs[1]);
      var a, b := Last(gs[0]), gs[1][0];
      InFlatten(gs, 0, a);
      InFlatten(gs, 1, b);
    }
    BusiestDateIsFirstBestClosedDay(rs);
  }

  /**
   * A day of valid records with a positive total, followed by one valid record of
   * another day: the day is judged busiest with its total, and the date recorded
   * is that of the following record.
   */
  lemma {:induction false} DayClosedByNextRecord(day: seq<Record>, next: Record)
    requires SameDay(day)
    requires forall i :: 0 <= i < |day| ==> IsValid(day[i])
    requires IsValid(next) && next.dayOfMonth != day[0].dayOfMonth
    requires RideSum(day) > 0
    ensures ProcessBikeData(day + [next]).busiestDateCount == RideSum(day)
    ensures ProcessBikeData(day + [next]).busiestDate == Some(next.stamp)
    ensures ProcessBikeData(day + [next]).totalRides == RideSum(day) + HourlyTotal(next)
  {
    var v := day + [next];
    OneDayIsOneGroup(day);
    GroupsSnoc(day, next);
    assert Groups(v) == [day, [next]];
    assert ClosedDays(Groups(v)) == [ClosedDay(RideSum(day), next.stamp)];
    assert Totals(ClosedDays(Groups(v))) == [RideSum(day)];
    FirstStrictMaxSnoc([], RideSum(day));
    assert [] + [RideSum(day)] == [RideSum(day)];
    FoldTracksGroups(v);
    SlotsAreSums(v);
    RideSumSnoc(day, next);
  }
}
