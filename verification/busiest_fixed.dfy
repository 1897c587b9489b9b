/**
 * The busiest-date statistic as the chart evidently means it: every day group is
 * judged, the last one included, and the date recorded for the winner is that of
 * its own first record. Slots and ride total are those of the chart's loop.
 */
module BusiestFixed {
  import opened Optional
  import opened Argmax
  import opened BikeData
  import opened Aggregates
  import opened DayGroups

  /** The loop state plus the date of the first record of the current day group. */
  datatype FixedState = FixedState(fold: FoldState, dayOpener: Stamp)

  /**
   * One iteration: slots, ride total, current day and group total advance as in
   * `Step`; at a day boundary the closing group is judged with its own opener's
   * date, and the record that opens a group becomes the new opener.
   */
  function FixedStep(s: FixedState, r: Record): (t: FixedState)
    requires WellShaped(s.fold.output)
    ensures WellShaped(t.fold.output)
  {
    if !IsValid(r) then s
    else
      var t := Step(s.fold, r);
      var boundary := s.fold.previousDay != 0 && r.dayOfMonth != s.fold.previousDay;
      var judged := if boundary then CloseDay(s.fold.output, s.fold.dailyTotal, s.dayOpener) else s.fold.output;
      FixedState(
        t.(output := t.output.(busiestDate := judged.busiestDate, busiestDateCount := judged.busiestDateCount)),
        if s.fold.previousDay == 0 || boundary then r.stamp else s.dayOpener)
  }

  /** The corrected loop state after all of `rs`. */
  function FixedFold(rs: seq<Record>): (s: FixedState)
    ensures WellShaped(s.fold.output)
    ensures s.fold.output.busiestDateCount >= 0
    ensures s.fold.output.busiestDate.None? <==> s.fold.output.busiestDateCount == 0
  {
    if |rs| == 0 then FixedState(Initial, Stamp(0))
    else FixedStep(FixedFold(rs[..|rs| - 1]), rs[|rs| - 1])
  }

  /** The corrected aggregation: after the loop, the last day group is judged as well. */
  function ProcessBikeDataFixed(rs: seq<Record>): (out: Summary)
    ensures |out.monthlyTotalsPerHour| == 24 && |out.dailyTotals| == 7
    ensures out.busiestDateCount >= 0
    ensures out.busiestDate.None? <==> out.busiestDateCount == 0
  {
    var s := FixedFold(rs);
    if s.fold.previousDay == 0 then s.fold.output
    else CloseDay(s.fold.output, s.fold.dailyTotal, s.dayOpener)
  }

  /** The totals of all day groups, in order. */
  function GroupTotals(gs: seq<seq<Record>>): (t: seq<int>)
    ensures |t| == |gs|
    ensures forall j :: 0 <= j < |gs| ==> t[j] == RideSum(gs[j])
  {
    seq(|gs|, j requires 0 <= j < |gs| => RideSum(gs[j]))
  }

  /** The date of each group's first record, in order. */
  function GroupOpeners(gs: seq<seq<Record>>): (o: seq<Stamp>)
    requires NonEmptyGroups(gs)
    ensures |o| == |gs|
    ensures forall j :: 0 <= j < |gs| ==> o[j] == gs[j][0].stamp
  {
    seq(|gs|, j requires 0 <= j < |gs| => gs[j][0].stamp)
  }

  /** The groups already judged: all but the current one. */
  function Judged(gs: seq<seq<Record>>): seq<seq<Record>>
  {
    if |gs| == 0 then [] else gs[..|gs| - 1]
  }

  /** Like `FoldSeesOnlyValid`: invalid records leave the corrected state alone. */
  lemma {:induction false} FixedFoldSeesOnlyValid(rs: seq<Record>)
    ensures FixedFold(rs) == FixedFold(ValidRecords(rs))
  {
    if |rs| > 0 {
      var rs', r := rs[..|rs| - 1], rs[|rs| - 1];
      FixedFoldSeesOnlyValid(rs');
      var v := ValidRecords(rs');
      if IsValid(r) {
        assert (v + [r])[..|v + [r]| - 1] == v;
      }
    }
  }

  /** Two loop states that agree on everything but the busiest date and count. */
  predicate SameProgress(a: FoldState, b: FoldState)
  {
    && a.output.monthlyTotalsPerHour == b.output.monthlyTotalsPerHour
    && a.output.dailyTotals == b.output.dailyTotals
    && a.output.totalRides == b.output.totalRides
    && a.previousDay == b.previousDay
    && a.dailyTotal == b.dailyTotal
  }

  /** The corrected loop advances slots, totals and day tracking exactly as the chart's. */
  lemma {:induction false} FixedFoldProgress(rs: seq<Record>)
    ensures SameProgress(FixedFold(rs).fold, Fold(rs))
  {
    if |rs| > 0 {
      var rs', r := rs[..|rs| - 1], rs[|rs| - 1];
      FixedFoldProgress(rs');
      SameProgressStep(FixedFold(rs'), Fold(rs'), r);
    }
  }

  /** One iteration of each loop keeps two states that agree on their progress in agreement. */
  lemma {:induction false} SameProgressStep(a: FixedState, b: FoldState, r: Record)
    requires WellShaped(a.fold.output) && WellShaped(b.output)
    requires SameProgress(a.fold, b)
    ensures SameProgress(FixedStep(a, r).fold, Step(b, r))
  {
  }

  /**
   * The busiest part of the corrected state after the valid records `v`: the
   * current group's opener, and the first strict maximum over the judged groups
   * with the date of its own first record.
   */
  ghost predicate FixedTracks(v: seq<Record>, s: FixedState)
  {
    && (|v| > 0 ==> s.dayOpener == Last(Groups(v))[0].stamp)
    && var judged := Judged(Groups(v));
       var p := FirstStrictMax(GroupTotals(judged));
       && s.fold.output.busiestDateCount == p.max
       && s.fold.output.busiestDate == (if p.index.Some? then Some(judged[p.index.value][0].stamp) else None)
  }

  /** At a day boundary the closing group is judged with its own opener, and `x` opens the next. */
  lemma {:induction false} FixedStepAtBoundary(s: FixedState, x: Record)
    requires WellShaped(s.fold.output) && IsValid(x)
    requires s.fold.previousDay != 0 && x.dayOfMonth != s.fold.previousDay
    ensures var t, out := FixedStep(s, x), s.fold.output;
            && t.dayOpener == x.stamp
            && t.fold.output.busiestDateCount ==
                 (if s.fold.dailyTotal > out.busiestDateCount then s.fold.dailyTotal else out.busiestDateCount)
            && t.fold.output.busiestDate ==
                 (if s.fold.dailyTotal > out.busiestDateCount then Some(s.dayOpener) else out.busiestDate)
  {
  }

  lemma {:induction false} FixedTracksFirst(x: Record, s: FixedState)
    requires IsValid(x) && WellShaped(s.fold.output) && s.fold.previousDay == 0
    requires FixedTracks([], s)
    ensures FixedTracks([x], FixedStep(s, x))
  {
    assert Groups([x]) == [[x]] by {
      assert [x][..0] == [];
    }
    assert Judged([[x]]) == [];
    assert GroupTotals([]) == [];
    assert FixedStep(s, x).dayOpener == x.stamp;
  }

  lemma {:induction false} FixedTracksSameDay(w: seq<Record>, x: Record, s: FixedState)
    requires FixedTracks(w, s) && WellShaped(s.fold.output) && IsValid(x)
    requires |w| > 0 && s.fold.previousDay == Last(w).dayOfMonth == x.dayOfMonth
    ensures FixedTracks(w + [x], FixedStep(s, x))
  {
    var gw := Groups(w);
    GroupsSnoc(w, x);
    assert Judged(Groups(w + [x])) == Judged(gw);
  }

  lemma {:induction false} FixedTracksNewDay(w: seq<Record>, x: Record, s: FixedState)
    requires FixedTracks(w, s) && WellShaped(s.fold.output) && IsValid(x)
    requires |w| > 0 && s.fold.previousDay == Last(w).dayOfMonth != x.dayOfMonth
    requires s.fold.dailyTotal == RideSum(Last(Groups(w)))
    ensures FixedTracks(w + [x], FixedStep(s, x))
  {
    var gw := Groups(w);
    GroupsSnoc(w, x);
    assert |gw| > 0;
    var jw := Judged(gw);
    var t := FixedStep(s, x);
    assert Judged(Groups(w + [x])) == gw;
    assert Last(Groups(w + [x])) == [x];
    JudgeOneMore(gw, s.fold.output, s.dayOpener, t.fold.output);
    FixedStepAtBoundary(s, x);
  }

  /**
   * Judging the current group `Last(gs)` with its opener's date extends the
   * first strict maximum over the judged groups to one over all groups.
   */
  lemma {:induction false} JudgeOneMore(gs: seq<seq<Record>>, out: Summary, opener: Stamp, out': Summary)
    requires |gs| > 0 && NonEmptyGroups(gs) && opener == Last(gs)[0].stamp
    requires var p := FirstStrictMax(GroupTotals(Judged(gs)));
             && out.busiestDateCount == p.max
             && out.busiestDate == (if p.index.Some? then Some(Judged(gs)[p.index.value][0].stamp) else None)
    requires out'.busiestDateCount ==
               (if RideSum(Last(gs)) > out.busiestDateCount then RideSum(Last(gs)) else out.busiestDateCount)
    requires out'.busiestDate ==
               (if RideSum(Last(gs)) > out.busiestDateCount then Some(opener) else out.busiestDate)
    ensures var p := FirstStrictMax(GroupTotals(gs));
            && out'.busiestDateCount == p.max
            && out'.busiestDate == (if p.index.Some? then Some(gs[p.index.value][0].stamp) else None)
  {
    var js := Judged(gs);
    assert gs == js + [Last(gs)];
    assert GroupTotals(gs) == GroupTotals(js) + [RideSum(Last(gs))];
    FirstStrictMaxSnoc(GroupTotals(js), RideSum(Last(gs)));
  }

  lemma {:induction false} FixedFoldTracksGroups(v: seq<Record>)
    requires forall i :: 0 <= i < |v| ==> IsValid(v[i])
    ensures FixedTracks(v, FixedFold(v))
  {
    if |v| > 0 {
      var w, x := v[..|v| - 1], v[|v| - 1];
      assert v == w + [x];
      FixedFoldTracksGroups(w);
      FixedFoldProgress(w);
      FoldTracksGroups(w);
      if |w| == 0 {
        assert v == [x];
        FixedTracksFirst(x, FixedFold(w));
      } else if Last(w).dayOfMonth == x.dayOfMonth {
        FixedTracksSameDay(w, x, FixedFold(w));
      } else {
        FixedTracksNewDay(w, x, FixedFold(w));
      }
    }
  }

  /** After the final judgement, the corrected statistic is the first strict maximum over all groups. */
  lemma {:induction false} FixedJudgesAllGroups(v: seq<Record>)
    requires forall i :: 0 <= i < |v| ==> IsValid(v[i])
    ensures var out, gs := ProcessBikeDataFixed(v), Groups(v);
            var p := FirstStrictMax(GroupTotals(gs));
            && out.busiestDateCount == p.max
            && out.busiestDate == (if p.index.Some? then Some(gs[p.index.value][0].stamp) else None)
  {
    var s, gs := FixedFold(v), Groups(v);
    if |v| > 0 {
      assert |gs| > 0;
      assert s.fold.previousDay != 0 && s.fold.dailyTotal == RideSum(Last(gs)) by {
        FixedFoldProgress(v);
        FoldTracksGroups(v);
      }
      assert FixedTracks(v, s) by {
        FixedFoldTracksGroups(v);
      }
      GroupsNonEmpty(v);
      JudgeOneMore(gs, s.fold.output, s.dayOpener, ProcessBikeDataFixed(v));
    } else {
      assert gs == [];
      assert FixedTracks(v, s) by {
        FixedFoldTracksGroups(v);
      }
      assert FixedFold(v) == FixedState(Initial, Stamp(0));
    }
  }

  /**
   * The corrected statistic: the count is the largest day-group total (or 0 when
   * none is positive), the last group included; the date is the first record's
   * date of the first group reaching it.
   */
  lemma {:induction false} FixedBusiestIsBestDay(rs: seq<Record>)
    ensures var out, gs := ProcessBikeDataFixed(rs), Groups(ValidRecords(rs));
            && (forall j :: 0 <= j < |gs| ==> RideSum(gs[j]) <= out.busiestDateCount)
            && (out.busiestDate.None? <==> forall j :: 0 <= j < |gs| ==> RideSum(gs[j]) <= 0)
            && (out.busiestDate.None? ==> out.busiestDateCount == 0)
            && (out.busiestDate.Some? ==>
                  exists j :: 0 <= j < |gs|
                    && RideSum(gs[j]) == out.busiestDateCount
                    && gs[j][0].stamp == out.busiestDate.value
                    && forall i :: 0 <= i < j ==> RideSum(gs[i]) < out.busiestDateCount)
  {
    var v := ValidRecords(rs);
    assert ProcessBikeDataFixed(rs) == ProcessBikeDataFixed(v) by {
      FixedFoldSeesOnlyValid(rs);
    }
    FixedBestOfValid(v);
  }

  /** `FixedBusiestIsBestDay` for records that are all valid. */
  lemma {:induction false} FixedBestOfValid(v: seq<Record>)
    requires forall i :: 0 <= i < |v| ==> IsValid(v[i])
    ensures var out, gs := ProcessBikeDataFixed(v), Groups(v);
            && (forall j :: 0 <= j < |gs| ==> RideSum(gs[j]) <= out.busiestDateCount)
            && (out.busiestDate.None? <==> forall j :: 0 <= j < |gs| ==> RideSum(gs[j]) <= 0)
            && (out.busiestDate.None? ==> out.busiestDateCount == 0)
            && (out.busiestDate.Some? ==>
                  exists j :: 0 <= j < |gs|
                    && RideSum(gs[j]) == out.busiestDateCount
                    && gs[j][0].stamp == out.busiestDate.value
                    && forall i :: 0 <= i < j ==> RideSum(gs[i]) < out.busiestDateCount)
  {
    var out := ProcessBikeDataFixed(v);
    FixedJudgesAllGroups(v);
    ReadBestGroup(Groups(v), out.busiestDateCount, out.busiestDate);
  }

  /** `ReadFirstStrictMax` over the groups' totals, tagged with their first records' dates. */
  lemma {:induction false} ReadBestGroup(gs: seq<seq<Record>>, count: int, date: Option<Stamp>)
    requires NonEmptyGroups(gs)
    requires var p := FirstStrictMax(GroupTotals(gs));
             && count == p.max
             && date == (if p.index.Some? then Some(gs[p.index.value][0].stamp) else None)
    ensures forall j :: 0 <= j < |gs| ==> RideSum(gs[j]) <= count
    ensures date.None? <==> forall j :: 0 <= j < |gs| ==> RideSum(gs[j]) <= 0
    ensures date.None? ==> count == 0
    ensures date.Some? ==>
              exists j :: 0 <= j < |gs|
                && RideSum(gs[j]) == count
                && gs[j][0].stamp == date.value
                && forall i :: 0 <= i < j ==> RideSum(gs[i]) < count
  {
    var t, openers := GroupTotals(gs), GroupOpeners(gs);
    ReadFirstStrictMax(t, openers, count, date);
    if date.Some? {
      var j :| 0 <= j < |t| && t[j] == count && openers[j] == date.value
               && forall i :: 0 <= i < j ==> t[i] < count;
      assert RideSum(gs[j]) == count;
    }
  }

  /** The correction touches only the busiest date and count: slots and ride total are the chart's. */
  lemma {:induction false} FixedKeepsSlots(rs: seq<Record>)
    ensures ProcessBikeDataFixed(rs).monthlyTotalsPerHour == ProcessBikeData(rs).monthlyTotalsPerHour
    ensures ProcessBikeDataFixed(rs).dailyTotals == ProcessBikeData(rs).dailyTotals
    ensures ProcessBikeDataFixed(rs).totalRides == ProcessBikeData(rs).totalRides
  {
    FixedFoldProgress(rs);
  }

  /**
   * A day of valid records followed by one valid record of another day, no larger:
   * the corrected statistic picks the first day, dated at its own first record.
   */
  lemma {:induction false} FixedDayThenNext(day: seq<Record>, next: Record)
    requires SameDay(day)
    requires forall i :: 0 <= i < |day| ==> IsValid(day[i])
    requires IsValid(next) && next.dayOfMonth != day[0].dayOfMonth
    requires RideSum(day) > 0 && HourlyTotal(next) <= RideSum(day)
    ensures ProcessBikeDataFixed(day + [next]).busiestDateCount == RideSum(day)
    ensures ProcessBikeDataFixed(day + [next]).busiestDate == Some(day[0].stamp)
  {
    var v := day + [next];
    OneDayIsOneGroup(day);
    GroupsSnoc(day, next);
    assert Groups(v) == [day, [next]];
    RideSumSnoc([], next);
    assert [] + [next] == [next];
    var t := GroupTotals(Groups(v));
    assert t == [RideSum(day)] + [HourlyTotal(next)];
    assert [RideSum(day)][..0] == [];
    FirstStrictMaxSnoc([RideSum(day)], HourlyTotal(next));
    FixedJudgesAllGroups(v);
  }
}
