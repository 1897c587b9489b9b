/**
 * The "busiest date" statistic explained through day groups. The valid records,
 * in order, fall into maximal runs that share a day of the month. A group is
 * judged only when the next group begins, so every group but the last is a
 * closed day; the statistic is the first closed day with the strictly largest
 * positive total, and the date recorded for it is that of the first record of
 * the group after it.
 */
module DayGroups {
  import opened Optional
  import opened Argmax
  import opened BikeData
  import opened Aggregates

  function Last<T>(s: seq<T>): T
    requires |s| > 0
  {
    s[|s| - 1]
  }

  /** All records of a non-empty group share the first one's day of the month. */
  predicate SameDay(g: seq<Record>)
  {
    |g| > 0 && forall i :: 0 <= i < |g| ==> g[i].dayOfMonth == g[0].dayOfMonth
  }

  /** Group `b` follows group `a` on a different day of the month. */
  predicate DayChanges(a: seq<Record>, b: seq<Record>)
  {
    |a| > 0 && |b| > 0 && Last(a).dayOfMonth != b[0].dayOfMonth
  }

  /** The groups laid end to end. */
  function Flatten(gs: seq<seq<Record>>): seq<Record>
  {
    if |gs| == 0 then [] else Flatten(gs[..|gs| - 1]) + gs[|gs| - 1]
  }

  /** Every record of a group is a record of the flattened sequence. */
  lemma {:induction false} InFlatten(gs: seq<seq<Record>>, j: int, x: Record)
    requires 0 <= j < |gs| && x in gs[j]
    ensures x in Flatten(gs)
  {
    if j < |gs| - 1 {
      InFlatten(gs[..|gs| - 1], j, x);
    }
  }

  /**
   * Splits `v` into maximal runs of consecutive records with the same day of the
   * month. Two runs of the same day are kept apart when another day lies between.
   */
  function Groups(v: seq<Record>): (gs: seq<seq<Record>>)
    ensures Flatten(gs) == v
    ensures forall j :: 0 <= j < |gs| ==> SameDay(gs[j])
    ensures forall j :: 0 < j < |gs| ==> DayChanges(gs[j - 1], gs[j])
  {
    if |v| == 0 then []
    else
      var gs := Groups(v[..|v| - 1]);
      var x := v[|v| - 1];
      assert v == v[..|v| - 1] + [x];
      if |gs| > 0 && Last(Last(gs)).dayOfMonth == x.dayOfMonth then
        ExtendLastGroup(gs, x);
        gs[..|gs| - 1] + [Last(gs) + [x]]
      else
        OpenNewGroup(gs, x);
        gs + [[x]]
  }

  /** Appending a record of the last group's day to that group keeps a grouping. */
  lemma {:induction false} ExtendLastGroup(gs: seq<seq<Record>>, x: Record)
    requires |gs| > 0 && forall j :: 0 <= j < |gs| ==> SameDay(gs[j])
    requires forall j :: 0 < j < |gs| ==> DayChanges(gs[j - 1], gs[j])
    requires SameDay(Last(gs)) && Last(Last(gs)).dayOfMonth == x.dayOfMonth
    ensures var gs' := gs[..|gs| - 1] + [Last(gs) + [x]];
            && Flatten(gs') == Flatten(gs) + [x]
            && (forall j :: 0 <= j < |gs'| ==> SameDay(gs'[j]))
            && (forall j :: 0 < j < |gs'| ==> DayChanges(gs'[j - 1], gs'[j]))
  {
    var gs' := gs[..|gs| - 1] + [Last(gs) + [x]];
    assert gs'[..|gs'| - 1] == gs[..|gs| - 1];
    assert Flatten(gs) == Flatten(gs[..|gs| - 1]) + Last(gs);
    assert SameDay(Last(gs) + [x]);
    forall j | 0 < j < |gs'|
      ensures DayChanges(gs'[j - 1], gs'[j])
    {
      assert DayChanges(gs[j - 1], gs[j]);
    }
  }

  /** Appending a record as a group of its own keeps a grouping when its day differs. */
  lemma {:induction false} OpenNewGroup(gs: seq<seq<Record>>, x: Record)
    requires forall j :: 0 <= j < |gs| ==> SameDay(gs[j])
    requires forall j :: 0 < j < |gs| ==> DayChanges(gs[j - 1], gs[j])
    requires |gs| > 0 ==> SameDay(Last(gs)) && Last(Last(gs)).dayOfMonth != x.dayOfMonth
    ensures var gs' := gs + [[x]];
            && Flatten(gs') == Flatten(gs) + [x]
            && (forall j :: 0 <= j < |gs'| ==> SameDay(gs'[j]))
            && (forall j :: 0 < j < |gs'| ==> DayChanges(gs'[j - 1], gs'[j]))
  {
    var gs' := gs + [[x]];
    assert gs'[..|gs'| - 1] == gs;
  }

  /** The last record is the last record of the last group. */
  lemma {:induction false} LastOfFlatten(gs: seq<seq<Record>>)
    requires |gs| > 0 && |Last(gs)| > 0
    ensures |Flatten(gs)| > 0 && Last(Flatten(gs)) == Last(Last(gs))
  {
  }

  /** Appending a record extends the last group when the day stays, else opens a new group. */
  lemma {:induction false} GroupsSnoc(w: seq<Record>, x: Record)
    ensures |w| > 0 && Last(w).dayOfMonth == x.dayOfMonth ==>
              |Groups(w)| > 0 && Groups(w + [x]) == Groups(w)[..|Groups(w)| - 1] + [Last(Groups(w)) + [x]]
    ensures |w| == 0 || Last(w).dayOfMonth != x.dayOfMonth ==> Groups(w + [x]) == Groups(w) + [[x]]
  {
    var v := w + [x];
    assert v[..|v| - 1] == w;
    var gw := Groups(w);
    if |w| > 0 {
      assert |gw| > 0;
      LastOfFlatten(gw);
    }
  }

  /** Records that all share one day form a single group. */
  lemma {:induction false} OneDayIsOneGroup(day: seq<Record>)
    requires SameDay(day)
    ensures Groups(day) == [day]
  {
    if |day| > 1 {
      var w, x := day[..|day| - 1], day[|day| - 1];
      assert day == w + [x];
      OneDayIsOneGroup(w);
      GroupsSnoc(w, x);
    } else {
      assert day == [] + [day[0]];
      GroupsSnoc([], day[0]);
    }
  }

  /** A group judged at a day boundary: its total and the date recorded if it wins. */
  datatype ClosedDay = ClosedDay(total: int, opener: Stamp)

  predicate NonEmptyGroups(gs: seq<seq<Record>>)
  {
    forall j :: 0 <= j < |gs| ==> |gs[j]| > 0
  }

  /**
   * Every group but the last, with its total and the date of the first record of
   * the group that follows it.
   */
  function ClosedDays(gs: seq<seq<Record>>): (c: seq<ClosedDay>)
    requires NonEmptyGroups(gs)
    ensures |c| == if |gs| < 2 then 0 else |gs| - 1
    ensures forall j {:trigger c[j]} :: 0 <= j < |c| ==> c[j] == ClosedDay(RideSum(gs[j]), gs[j + 1][0].stamp)
  {
    if |gs| < 2 then []
    else ClosedDays(gs[..|gs| - 1]) + [ClosedDay(RideSum(gs[|gs| - 2]), gs[|gs| - 1][0].stamp)]
  }

  /** The totals of the closed days, in order. */
  function Totals(c: seq<ClosedDay>): (t: seq<int>)
    ensures |t| == |c|
    ensures forall j :: 0 <= j < |c| ==> t[j] == c[j].total
  {
    seq(|c|, j requires 0 <= j < |c| => c[j].total)
  }

  /** The dates recorded for the closed days, in order. */
  function Openers(c: seq<ClosedDay>): (o: seq<Stamp>)
    ensures |o| == |c|
    ensures forall j :: 0 <= j < |c| ==> o[j] == c[j].opener
  {
    seq(|c|, j requires 0 <= j < |c| => c[j].opener)
  }

  /** The closed days of the valid records of `rs`. */
  function ClosedDaysOf(rs: seq<Record>): seq<ClosedDay>
  {
    var gs := Groups(ValidRecords(rs));
    ClosedDays(gs)
  }

  lemma {:induction false} RideSumSnoc(a: seq<Record>, x: Record)
    requires IsValid(x)
    ensures RideSum(a + [x]) == RideSum(a) + HourlyTotal(x)
  {
    assert (a + [x])[..|a|] == a;
  }

  lemma {:induction false} FirstStrictMaxSnoc(xs: seq<int>, y: int)
    ensures FirstStrictMax(xs + [y]) ==
              if y > FirstStrictMax(xs).max then Pick(Some(|xs|), y) else FirstStrictMax(xs)
  {
    assert (xs + [y])[..|xs|] == xs;
  }

  /**
   * What the loop state `s` holds after the valid records `v`: the current day is
   * the last record's, the running group total is the last group's total, and the
   * busiest date and count are the first strict maximum among the closed days.
   */
  ghost predicate Tracks(v: seq<Record>, s: FoldState)
  {
    && (forall i :: 0 <= i < |v| ==> IsValid(v[i]))
    && s.previousDay == (if |v| == 0 then 0 else Last(v).dayOfMonth)
    && s.dailyTotal == (if |v| == 0 then 0 else RideSum(Last(Groups(v))))
    && BestOfClosed(ClosedDays(Groups(v)), s.output)
  }

  /**
   * The busiest count and date of `out` are the first strict maximum among the
   * closed days' totals, dated at the opener recorded for it.
   */
  ghost predicate BestOfClosed(c: seq<ClosedDay>, out: Summary)
  {
    var p := FirstStrictMax(Totals(c));
    && out.busiestDateCount == p.max
    && out.busiestDate == (if p.index.Some? then Some(c[p.index.value].opener) else None)
  }

  /** The first valid record opens the current day with its own total; nothing is judged. */
  lemma {:induction false} StepFirst(s: FoldState, x: Record)
    requires WellShaped(s.output) && IsValid(x) && s.previousDay == 0 && s.dailyTotal == 0
    ensures var t := Step(s, x);
            && t.previousDay == x.dayOfMonth
            && t.dailyTotal == HourlyTotal(x)
            && t.output.busiestDate == s.output.busiestDate
            && t.output.busiestDateCount == s.output.busiestDateCount
  {
  }

  /** A record of the current day adds to its total and judges nothing. */
  lemma {:induction false} StepSameDay(s: FoldState, x: Record)
    requires WellShaped(s.output) && IsValid(x) && s.previousDay == x.dayOfMonth
    ensures var t := Step(s, x);
            && t.previousDay == x.dayOfMonth
            && t.dailyTotal == s.dailyTotal + HourlyTotal(x)
            && t.output.busiestDate == s.output.busiestDate
            && t.output.busiestDateCount == s.output.busiestDateCount
  {
  }

  /** A record of another day judges the current day at its own date and opens a new one. */
  lemma {:induction false} StepNewDay(s: FoldState, x: Record)
    requires WellShaped(s.output) && IsValid(x)
    requires s.previousDay != 0 && s.previousDay != x.dayOfMonth
    ensures var t, out := Step(s, x), CloseDay(s.output, s.dailyTotal, x.stamp);
            && t.previousDay == x.dayOfMonth
            && t.dailyTotal == HourlyTotal(x)
            && t.output.busiestDate == out.busiestDate
            && t.output.busiestDateCount == out.busiestDateCount
  {
  }

  /** Judging one more closed day extends the first strict maximum by that day. */
  lemma {:induction false} BestOfClosedSnoc(c: seq<ClosedDay>, out: Summary, total: int, opener: Stamp)
    requires BestOfClosed(c, out)
    ensures BestOfClosed(c + [ClosedDay(total, opener)], CloseDay(out, total, opener))
  {
    var c' := c + [ClosedDay(total, opener)];
    assert Totals(c') == Totals(c) + [total];
    FirstStrictMaxSnoc(Totals(c), total);
  }

  lemma {:induction false} TracksFirst(x: Record, s: FoldState)
    requires Tracks([], s) && WellShaped(s.output) && IsValid(x)
    ensures Tracks([x], Step(s, x))
  {
    assert BestOfClosed([], s.output) by {
      assert Groups([]) == [];
      assert ClosedDays([]) == [];
    }
    assert Totals([]) == [];
    StepFirst(s, x);
    TracksOneRecord(x, Step(s, x));
  }

  /** A state that holds one valid record's day and total, and no busiest date, tracks it. */
  lemma {:induction false} TracksOneRecord(x: Record, t: FoldState)
    requires IsValid(x) && t.previousDay == x.dayOfMonth && t.dailyTotal == HourlyTotal(x)
    requires t.output.busiestDate == None && t.output.busiestDateCount == 0
    ensures Tracks([x], t)
  {
    assert Groups([x]) == [[x]] by {
      GroupsSnoc([], x);
      assert [] + [x] == [x];
    }
    assert t.dailyTotal == RideSum([x]) by {
      RideSumSnoc([], x);
      assert [] + [x] == [x];
    }
    assert BestOfClosed(ClosedDays([[x]]), t.output) by {
      assert ClosedDays([[x]]) == [];
      assert Totals([]) == [];
    }
  }

  lemma {:induction false} TracksSameDay(w: seq<Record>, x: Record, s: FoldState)
    requires Tracks(w, s) && WellShaped(s.output) && IsValid(x)
    requires |w| > 0 && Last(w).dayOfMonth == x.dayOfMonth
    ensures Tracks(w + [x], Step(s, x))
  {
    StepSameDay(s, x);
    TracksGrowDay(w, x, s, Step(s, x));
  }

  /** A state that adds `x` to the current day's total and keeps the busiest date tracks `w + [x]`. */
  lemma {:induction false} TracksGrowDay(w: seq<Record>, x: Record, s: FoldState, t: FoldState)
    requires Tracks(w, s) && IsValid(x)
    requires |w| > 0 && Last(w).dayOfMonth == x.dayOfMonth
    requires t.previousDay == x.dayOfMonth && t.dailyTotal == s.dailyTotal + HourlyTotal(x)
    requires t.output.busiestDate == s.output.busiestDate
    requires t.output.busiestDateCount == s.output.busiestDateCount
    ensures Tracks(w + [x], t)
  {
    var v := w + [x];
    var gw := Groups(w);
    GroupsSnoc(w, x);
    var front := gw[..|gw| - 1];
    assert Groups(v) == front + [Last(gw) + [x]];
    assert t.dailyTotal == RideSum(Last(Groups(v))) by {
      RideSumSnoc(Last(gw), x);
    }
    assert ClosedDays(Groups(v)) == ClosedDays(gw) by {
      GroupsNonEmpty(w);
      ClosedDaysKeepOpener(gw, Last(gw) + [x]);
    }
    assert BestOfClosed(ClosedDays(gw), s.output);
  }

  lemma {:induction false} TracksNewDay(w: seq<Record>, x: Record, s: FoldState)
    requires Tracks(w, s) && WellShaped(s.output) && IsValid(x)
    requires |w| > 0 && Last(w).dayOfMonth != x.dayOfMonth
    ensures Tracks(w + [x], Step(s, x))
  {
    StepNewDay(s, x);
    TracksOpenDay(w, x, s, Step(s, x));
  }

  /**
   * A state that judges the current day at `x`'s date and opens a new day with
   * `x`'s total tracks `w + [x]`.
   */
  lemma {:induction false} TracksOpenDay(w: seq<Record>, x: Record, s: FoldState, t: FoldState)
    requires Tracks(w, s) && IsValid(x)
    requires |w| > 0 && Last(w).dayOfMonth != x.dayOfMonth
    requires t.previousDay == x.dayOfMonth && t.dailyTotal == HourlyTotal(x)
    requires var out := CloseDay(s.output, s.dailyTotal, x.stamp);
             && t.output.busiestDate == out.busiestDate
             && t.output.busiestDateCount == out.busiestDateCount
    ensures Tracks(w + [x], t)
  {
    var v := w + [x];
    var gw := Groups(w);
    GroupsSnoc(w, x);
    assert Groups(v) == gw + [[x]];
    assert t.dailyTotal == RideSum(Last(Groups(v))) by {
      RideSumSnoc([], x);
      assert [] + [x] == [x];
    }
    assert BestOfClosed(ClosedDays(Groups(v)), t.output) by {
      GroupsNonEmpty(w);
      ClosedDaysSnoc(gw, [x]);
      BestOfClosedSnoc(ClosedDays(gw), s.output, s.dailyTotal, x.stamp);
    }
  }

  /** Appending a group closes the previous last group, dated at the new group's first record. */
  lemma {:induction false} ClosedDaysSnoc(front: seq<seq<Record>>, g: seq<Record>)
    requires NonEmptyGroups(front) && |g| > 0
    ensures NonEmptyGroups(front + [g])
    ensures ClosedDays(front + [g]) ==
              if |front| == 0 then [] else ClosedDays(front) + [ClosedDay(RideSum(Last(front)), g[0].stamp)]
  {
    var hs := front + [g];
    assert hs[..|hs| - 1] == front;
  }

  /** Growing the last group leaves the closed days alone: its first record stays. */
  lemma {:induction false} ClosedDaysKeepOpener(gs: seq<seq<Record>>, b: seq<Record>)
    requires NonEmptyGroups(gs) && |gs| > 0 && |b| > 0 && b[0] == Last(gs)[0]
    ensures NonEmptyGroups(gs[..|gs| - 1] + [b])
    ensures ClosedDays(gs[..|gs| - 1] + [b]) == ClosedDays(gs)
  {
    var front := gs[..|gs| - 1];
    assert gs == front + [Last(gs)];
    ClosedDaysSnoc(front, Last(gs));
    ClosedDaysSnoc(front, b);
  }

  /** Every group holds at least one record. */
  lemma {:induction false} GroupsNonEmpty(v: seq<Record>)
    ensures NonEmptyGroups(Groups(v))
  {
    var gs := Groups(v);
    forall j | 0 <= j < |gs|
      ensures |gs[j]| > 0
    {
      assert SameDay(gs[j]);
    }
  }

  /** One more valid record keeps the description: the three cases of the loop body. */
  lemma {:induction false} TracksSnoc(w: seq<Record>, x: Record, s: FoldState)
    requires Tracks(w, s) && WellShaped(s.output) && IsValid(x)
    ensures Tracks(w + [x], Step(s, x))
  {
    if |w| == 0 {
      assert w == [];
      TracksFirst(x, s);
    } else if Last(w).dayOfMonth == x.dayOfMonth {
      TracksSameDay(w, x, s);
    } else {
      TracksNewDay(w, x, s);
    }
  }

  /** The loop state after any sequence of valid records is the one `Tracks` describes. */
  lemma {:induction false} FoldTracksGroups(v: seq<Record>)
    requires forall i :: 0 <= i < |v| ==> IsValid(v[i])
    ensures Tracks(v, Fold(v))
  {
    if |v| > 0 {
      var w, x := v[..|v| - 1], v[|v| - 1];
      assert v == w + [x];
      FoldTracksGroups(w);
      FoldSnoc(w, x);
      TracksSnoc(w, x, Fold(w));
    } else {
      assert Groups(v) == [];
      assert ClosedDays([]) == [];
      assert Totals([]) == [];
    }
  }

  /**
   * The busiest date and count, for any records: the count is at least every
   * closed day's total; there is no busiest date exactly when no closed day has a
   * positive total; otherwise the date is the opener recorded for the first closed
   * day whose total equals the count, every earlier closed day being smaller.
   */
  lemma {:induction false} BusiestDateIsFirstBestClosedDay(rs: seq<Record>)
    ensures var out, c := ProcessBikeData(rs), ClosedDaysOf(rs);
            && (forall j :: 0 <= j < |c| ==> c[j].total <= out.busiestDateCount)
            && (out.busiestDate.None? <==> forall j :: 0 <= j < |c| ==> c[j].total <= 0)
            && (out.busiestDate.None? ==> out.busiestDateCount == 0)
            && (out.busiestDate.Some? ==>
                  exists j :: 0 <= j < |c|
                    && c[j].total == out.busiestDateCount
                    && c[j].opener == out.busiestDate.value
                    && forall i :: 0 <= i < j ==> c[i].total < out.busiestDateCount)
  {
    var v := ValidRecords(rs);
    assert ProcessBikeData(rs) == ProcessBikeData(v) by {
      FoldSeesOnlyValid(rs);
    }
    assert ClosedDaysOf(rs) == ClosedDays(Groups(v));
    BestClosedDayOfValid(v);
  }

  /** `BusiestDateIsFirstBestClosedDay` for records that are all valid. */
  lemma {:induction false} BestClosedDayOfValid(v: seq<Record>)
    requires forall i :: 0 <= i < |v| ==> IsValid(v[i])
    ensures var out, c := ProcessBikeData(v), ClosedDays(Groups(v));
            && (forall j :: 0 <= j < |c| ==> c[j].total <= out.busiestDateCount)
            && (out.busiestDate.None? <==> forall j :: 0 <= j < |c| ==> c[j].total <= 0)
            && (out.busiestDate.None? ==> out.busiestDateCount == 0)
            && (out.busiestDate.Some? ==>
                  exists j :: 0 <= j < |c|
                    && c[j].total == out.busiestDateCount
                    && c[j].opener == out.busiestDate.value
                    && forall i :: 0 <= i < j ==> c[i].total < out.busiestDateCount)
  {
    var c := ClosedDays(Groups(v));
    assert BestOfClosed(c, ProcessBikeData(v)) by {
      FoldTracksGroups(v);
    }
    ReadBestClosedDay(c, ProcessBikeData(v));
  }

  /** `ReadFirstStrictMax` over the closed days' totals, tagged with their openers. */
  lemma {:induction false} ReadBestClosedDay(c: seq<ClosedDay>, out: Summary)
    requires BestOfClosed(c, out)
    ensures forall j :: 0 <= j < |c| ==> c[j].total <= out.busiestDateCount
    ensures out.busiestDate.None? <==> forall j :: 0 <= j < |c| ==> c[j].total <= 0
    ensures out.busiestDate.None? ==> out.busiestDateCount == 0
    ensures out.busiestDate.Some? ==>
              exists j :: 0 <= j < |c|
                && c[j].total == out.busiestDateCount
                && c[j].opener == out.busiestDate.value
                && forall i :: 0 <= i < j ==> c[i].total < out.busiestDateCount
  {
    var t, openers := Totals(c), Openers(c);
    var count, date := out.busiestDateCount, out.busiestDate;
    ReadFirstStrictMax(t, openers, count, date);
    if date.Some? {
      var j :| 0 <= j < |t| && t[j] == count && openers[j] == date.value
               && forall i :: 0 <= i < j ==> t[i] < count;
      assert c[j].total == count;
    }
  }

}
