/**
 * What the per-hour slots, per-weekday slots and ride total of the aggregation
 * mean, stated independently of the loop: sums over the valid records. Invalid
 * records are shown to have no influence on any part of the output.
 */
module Aggregates {
  import opened Optional
  import opened Sums
  import opened BikeData

  /** The records of `rs` whose counts both parse, in their original order. */
  function ValidRecords(rs: seq<Record>): (v: seq<Record>)
    ensures |v| <= |rs|
    ensures forall i :: 0 <= i < |v| ==> IsValid(v[i])
    ensures forall r :: r in v <==> r in rs && IsValid(r)
    ensures |rs| == 1 ==> v == if IsValid(rs[0]) then rs else []
    ensures (forall i :: 0 <= i < |rs| ==> IsValid(rs[i])) ==> v == rs
    ensures (forall i :: 0 <= i < |rs| ==> !IsValid(rs[i])) ==> v == []
  {
    if |rs| == 0 then []
    else
      var v := ValidRecords(rs[..|rs| - 1]);
      var r := rs[|rs| - 1];
      assert rs == rs[..|rs| - 1] + [r];
      if IsValid(r) then v + [r] else v
  }

  /** Filtering commutes with concatenation. */
  lemma {:induction false} ValidRecordsAppend(a: seq<Record>, b: seq<Record>)
    ensures ValidRecords(a + b) == ValidRecords(a) + ValidRecords(b)
    decreases |b|
  {
    if |b| > 0 {
      var b' := b[..|b| - 1];
      assert (a + b)[..|a + b| - 1] == a + b';
      ValidRecordsAppend(a, b');
    } else {
      assert a + b == a;
    }
  }

  /** The whole loop state depends only on the valid records, in order. */
  lemma {:induction false} FoldSeesOnlyValid(rs: seq<Record>)
    ensures Fold(rs) == Fold(ValidRecords(rs))
  {
    if |rs| > 0 {
      var rs', r := rs[..|rs| - 1], rs[|rs| - 1];
      FoldSeesOnlyValid(rs');
      var v := ValidRecords(rs');
      if IsValid(r) {
        assert (v + [r])[..|v + [r]| - 1] == v;
      }
    }
  }

  /**
   * A record whose northbound or southbound count does not parse is skipped: the
   * output is the one for the same records without it.
   */
  lemma {:induction false} InvalidRecordIgnored(a: seq<Record>, r: Record, b: seq<Record>)
    requires !IsValid(r)
    ensures ProcessBikeData(a + [r] + b) == ProcessBikeData(a + b)
  {
    ValidRecordsAppend(a + [r], b);
    ValidRecordsAppend(a, [r]);
    ValidRecordsAppend(a, b);
    assert ValidRecords([r]) == [] by {
      assert [r][..0] == [];
    }
    FoldSeesOnlyValid(a + [r] + b);
    FoldSeesOnlyValid(a + b);
  }

  /** The summed riders of the valid records of `rs` that `keep` selects. */
  function ValidSum(rs: seq<Record>, keep: Record -> bool): int
  {
    if |rs| == 0 then 0
    else
      var r := rs[|rs| - 1];
      ValidSum(rs[..|rs| - 1], keep) + (if IsValid(r) && keep(r) then HourlyTotal(r) else 0)
  }

  /** Riders of all valid records in UTC hour `h`. */
  function HourSum(rs: seq<Record>, h: int): int
  {
    ValidSum(rs, (r: Record) => r.hour == h)
  }

  /** Riders of all valid records on weekday `d`. */
  function WeekdaySum(rs: seq<Record>, d: int): int
  {
    ValidSum(rs, (r: Record) => r.weekday == d)
  }

  /** Riders of all valid records. */
  function RideSum(rs: seq<Record>): int
  {
    ValidSum(rs, (r: Record) => true)
  }

  /** Appending a record adds its riders to every sum whose selection takes it. */
  lemma {:induction false} SlotSumsSnoc(rs: seq<Record>, r: Record)
    ensures forall h :: HourSum(rs + [r], h) == HourSum(rs, h) + (if IsValid(r) && r.hour == h then HourlyTotal(r) else 0)
    ensures forall d :: WeekdaySum(rs + [r], d) == WeekdaySum(rs, d) + (if IsValid(r) && r.weekday == d then HourlyTotal(r) else 0)
    ensures RideSum(rs + [r]) == RideSum(rs) + (if IsValid(r) then HourlyTotal(r) else 0)
  {
    assert (rs + [r])[..|rs|] == rs;
  }

  /**
   * Each hour slot holds the riders of exactly the valid records of that hour, each
   * weekday slot those of that weekday, and the ride total those of all valid records.
   */
  lemma {:induction false} SlotsAreSums(rs: seq<Record>)
    ensures forall h :: 0 <= h < 24 ==> ProcessBikeData(rs).monthlyTotalsPerHour[h] == HourSum(rs, h)
    ensures forall d :: 0 <= d < 7 ==> ProcessBikeData(rs).dailyTotals[d] == WeekdaySum(rs, d)
    ensures ProcessBikeData(rs).totalRides == RideSum(rs)
  {
    if |rs| > 0 {
      SlotsAreSums(rs[..|rs| - 1]);
    }
  }

  /** The ride total equals the sum of the hour slots and the sum of the weekday slots. */
  lemma {:induction false} TotalsAgree(rs: seq<Record>)
    ensures Sum(ProcessBikeData(rs).monthlyTotalsPerHour) == ProcessBikeData(rs).totalRides
    ensures Sum(ProcessBikeData(rs).dailyTotals) == ProcessBikeData(rs).totalRides
  {
    if |rs| == 0 {
      SumZeros(24);
      SumZeros(7);
    } else {
      var rs', r := rs[..|rs| - 1], rs[|rs| - 1];
      assert rs == rs' + [r];
      TotalsAgree(rs');
      FoldSnoc(rs', r);
      StepKeepsSlotSums(Fold(rs'), r);
    }
  }

  /** One iteration adds a record's riders to one hour slot, one weekday slot and the ride total alike. */
  lemma {:induction false} StepKeepsSlotSums(s: FoldState, r: Record)
    requires WellShaped(s.output)
    requires Sum(s.output.monthlyTotalsPerHour) == s.output.totalRides
    requires Sum(s.output.dailyTotals) == s.output.totalRides
    ensures Sum(Step(s, r).output.monthlyTotalsPerHour) == Step(s, r).output.totalRides
    ensures Sum(Step(s, r).output.dailyTotals) == Step(s, r).output.totalRides
  {
    var out := s.output;
    if IsValid(r) {
      SumAddAt(out.monthlyTotalsPerHour, r.hour, HourlyTotal(r));
      SumAddAt(out.dailyTotals, r.weekday, HourlyTotal(r));
    }
  }

  /** With no records every slot and total is 0 and there is no busiest date. */
  lemma {:induction false} EmptyInput()
    ensures ProcessBikeData([]) == Summary(Zeros(24), Zeros(7), 0, None, 0)
  {
  }

  /** When no valid record carries a negative count, no slot and no total is negative. */
  lemma {:induction false} NonNegativeCounts(rs: seq<Record>)
    requires forall i :: 0 <= i < |rs| && IsValid(rs[i]) ==> rs[i].nb.value >= 0 && rs[i].sb.value >= 0
    ensures forall h :: 0 <= h < 24 ==> ProcessBikeData(rs).monthlyTotalsPerHour[h] >= 0
    ensures forall d :: 0 <= d < 7 ==> ProcessBikeData(rs).dailyTotals[d] >= 0
    ensures ProcessBikeData(rs).totalRides >= 0
  {
    if |rs| > 0 {
      NonNegativeCounts(rs[..|rs| - 1]);
    }
  }
}
