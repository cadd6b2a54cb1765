/** Aggregating replica counts by day and hour and by day, and the agreement of the two. */
module Preprocessor {
  import opened Sequences

  const DAYS: nat := 7
  const HOURS: nat := 24

  /** The first `n` values' entries of one day and hour. */
  function Cell(values: seq<real>, hours: seq<nat>, days: seq<nat>, n: nat, d: nat, h: nat): seq<real>
    requires n <= |values|
  {
    if n == 0 then []
    else
      var i := n - 1;
      Cell(values, hours, days, i, d, h) +
      if i < |hours| && i < |days| && days[i] == d && hours[i] == h then [values[i]] else []
  }

  /** The first `n` values' entries of one day. */
  function DayCell(values: seq<real>, days: seq<nat>, n: nat, d: nat): seq<real>
    requires n <= |values|
  {
    if n == 0 then []
    else
      var i := n - 1;
      DayCell(values, days, i, d) + if i < |days| && days[i] == d then [values[i]] else []
  }

  /** What is reported for a bucket; an empty one reports zeros. */
  datatype Summary = Summary(avg: real, max: real, min: real, count: nat)

  function Summarise(bucket: seq<real>): Summary {
    if bucket == [] then Summary(0.0, 0.0, 0.0, 0)
    else Summary(Mean(bucket), Largest(bucket), Smallest(bucket), |bucket|)
  }

  predicate OnCalendar(hours: seq<nat>, days: seq<nat>) {
    && (forall i :: 0 <= i < |hours| ==> hours[i] < HOURS)
    && (forall i :: 0 <= i < |days| ==> days[i] < DAYS)
  }

  method CollectHourly(values: seq<real>, hours: seq<nat>, days: seq<nat>) returns (buckets: array2<seq<real>>)
    requires OnCalendar(hours, days)
    ensures fresh(buckets) && buckets.Length0 == DAYS && buckets.Length1 == HOURS
    ensures forall d, h :: 0 <= d < DAYS && 0 <= h < HOURS ==>
        buckets[d, h] == Cell(values, hours, days, |values|, d, h)
  {
    buckets := new seq<real>[DAYS, HOURS]((d, h) => []);
    for i := 0 to |values|
      invariant forall d, h :: 0 <= d < DAYS && 0 <= h < HOURS ==> buckets[d, h] == Cell(values, hours, days, i, d, h)
    {
      if i < |hours| && i < |days| {
        buckets[days[i], hours[i]] := buckets[days[i], hours[i]] + [values[i]];
      }
    }
  }

  method BuildHourlyMatrix(values: seq<real>, hours: seq<nat>, days: seq<nat>) returns (matrix: array2<Summary>)
    requires OnCalendar(hours, days)
    ensures fresh(matrix) && matrix.Length0 == DAYS && matrix.Length1 == HOURS
    ensures forall d, h :: 0 <= d < DAYS && 0 <= h < HOURS ==>
              matrix[d, h] == Summarise(Cell(values, hours, days, |values|, d, h))
  {
    hide Cell, Mean, Largest, Smallest;
    var buckets := CollectHourly(values, hours, days);
    matrix := new Summary[DAYS, HOURS]((d, h) => Summary(0.0, 0.0, 0.0, 0));
    for d := 0 to DAYS
      invariant forall e, h :: 0 <= e < DAYS && 0 <= h < HOURS ==>
          buckets[e, h] == Cell(values, hours, days, |values|, e, h)
      invariant forall e, h :: 0 <= e < d && 0 <= h < HOURS ==> matrix[e, h] == Summarise(buckets[e, h])
      invariant forall e, h :: d <= e < DAYS && 0 <= h < HOURS ==> matrix[e, h] == Summary(0.0, 0.0, 0.0, 0)
    {
      for h := 0 to HOURS
        invariant forall e, g :: 0 <= e < DAYS && 0 <= g < HOURS ==>
            buckets[e, g] == Cell(values, hours, days, |values|, e, g)
        invariant forall e, g :: 0 <= e < d && 0 <= g < HOURS ==> matrix[e, g] == Summarise(buckets[e, g])
        invariant forall g :: 0 <= g < h ==> matrix[d, g] == Summarise(buckets[d, g])
        invariant forall e, g :: (e == d && h <= g < HOURS) || (d < e < DAYS && 0 <= g < HOURS) ==>
            matrix[e, g] == Summary(0.0, 0.0, 0.0, 0)
      {
        var bucket := buckets[d, h];
        if |bucket| > 0 {
          matrix[d, h] := Summary(Mean(bucket), Largest(bucket), Smallest(bucket), |bucket|);
        }
        assert matrix[d, h] == Summarise(bucket);
      }
    }
  }

  method BuildDailyAggregations(values: seq<real>, days: seq<nat>) returns (daily: array<Summary>)
    requires OnCalendar([], days)
    ensures fresh(daily) && daily.Length == DAYS
    ensures forall d :: 0 <= d < DAYS ==> daily[d] == Summarise(DayCell(values, days, |values|, d))
  {
    hide Mean, Largest, Smallest;
    var buckets := new seq<real>[DAYS](d => []);
    for i := 0 to |values|
      invariant forall d :: 0 <= d < DAYS ==> buckets[d] == DayCell(values, days, i, d)
    {
      if i < |days| {
        buckets[days[i]] := buckets[days[i]] + [values[i]];
      }
    }
    daily := new Summary[DAYS](d => Summary(0.0, 0.0, 0.0, 0));
    for d := 0 to DAYS
      invariant forall e :: 0 <= e < DAYS ==> buckets[e] == DayCell(values, days, |values|, e)
      invariant forall e :: 0 <= e < d ==> daily[e] == Summarise(buckets[e])
      invariant forall e :: d <= e < DAYS ==> daily[e] == Summary(0.0, 0.0, 0.0, 0)
    {
      if |buckets[d]| > 0 {
        daily[d] := Summary(Mean(buckets[d]), Largest(buckets[d]), Smallest(buckets[d]), |buckets[d]|);
      }
    }
  }

  // ---------- What a cell holds ----------

  /** The positions of the values of a day and hour. */
  function CellIndices(n: nat, hours: seq<nat>, days: seq<nat>, d: nat, h: nat): set<nat> {
    set i: nat | i < n && i < |hours| && i < |days| && days[i] == d && hours[i] == h
  }

  /** What is reported for a day and hour: their number, zeros if there is none, and otherwise the largest and the
      smallest of them and an average that times their number is their sum. */
  lemma CellReports(values: seq<real>, hours: seq<nat>, days: seq<nat>, d: nat, h: nat)
    ensures var bucket, indices := Cell(values, hours, days, |values|, d, h), CellIndices(|values|, hours, days, d, h);
            var report := Summarise(bucket);
            && report.count == |indices|
            && (forall i :: i in indices ==> report.min <= values[i] <= report.max)
            && (indices != {} ==> exists i :: i in indices && values[i] == report.max)
            && (indices != {} ==> exists i :: i in indices && values[i] == report.min)
            && report.avg * report.count as real == Sum(bucket)
            && (indices == {} ==> report == Summary(0.0, 0.0, 0.0, 0))
  {
    hide *;
    var n, bucket := |values|, Cell(values, hours, days, |values|, d, h);
    var indices := CellIndices(n, hours, days, d, h);
    CellCount(values, hours, days, n, d, h);
    BucketReports(bucket);
    forall i | i in indices ensures i < n {
      IndexInRange(n, hours, days, d, h, i);
    }
    forall i | i in indices ensures values[i] in bucket {
      CellHolds(values, hours, days, n, d, h, values[i]);
    }
    if indices != {} {
      CellHolds(values, hours, days, n, d, h, Summarise(bucket).max);
      CellHolds(values, hours, days, n, d, h, Summarise(bucket).min);
    }
  }

  lemma IndexInRange(n: nat, hours: seq<nat>, days: seq<nat>, d: nat, h: nat, i: nat)
    requires i in CellIndices(n, hours, days, d, h)
    ensures i < n
  {
  }

  lemma BucketReports(bucket: seq<real>)
    ensures var report := Summarise(bucket);
            && report.count == |bucket|
            && (forall x :: x in bucket ==> report.min <= x <= report.max)
            && (bucket != [] ==> report.max in bucket && report.min in bucket)
            && report.avg * report.count as real == Sum(bucket)
            && (bucket == [] ==> report == Summary(0.0, 0.0, 0.0, 0))
  {
    CountTimesMean(bucket);
    hide Mean, Sum;
  }

  lemma {:induction false} CellHolds(values: seq<real>, hours: seq<nat>, days: seq<nat>, n: nat, d: nat, h: nat,
                                     x: real)
    requires n <= |values|
    ensures x in Cell(values, hours, days, n, d, h)
       <==> exists i :: i in CellIndices(n, hours, days, d, h) && values[i] == x
  {
    if n > 0 {
      CellHolds(values, hours, days, n - 1, d, h, x);
      IndicesGrow(n - 1, hours, days, d, h);
    }
  }

  lemma IndicesGrow(n: nat, hours: seq<nat>, days: seq<nat>, d: nat, h: nat)
    ensures CellIndices(n + 1, hours, days, d, h) == CellIndices(n, hours, days, d, h) +
            if n < |hours| && n < |days| && days[n] == d && hours[n] == h then {n} else {}
    ensures n !in CellIndices(n, hours, days, d, h)
  {
  }

  lemma {:induction false} CellCount(values: seq<real>, hours: seq<nat>, days: seq<nat>, n: nat, d: nat, h: nat)
    requires n <= |values|
    ensures |Cell(values, hours, days, n, d, h)| == |CellIndices(n, hours, days, d, h)|
  {
    if n > 0 {
      CellCount(values, hours, days, n - 1, d, h);
      IndicesGrow(n - 1, hours, days, d, h);
    }
  }

  // ---------- The two levels agree ----------

  /** Count of the cells of day `d` at hours below `upto`. */
  function CountBelow(values: seq<real>, hours: seq<nat>, days: seq<nat>, n: nat, d: nat, upto: nat): nat
    requires n <= |values|
  {
    if upto == 0 then 0
    else CountBelow(values, hours, days, n, d, upto - 1) + Summarise(Cell(values, hours, days, n, d, upto - 1)).count
  }

  /** Count-weighted sum of the cell averages of day `d` at hours below `upto`. */
  function WeightedBelow(values: seq<real>, hours: seq<nat>, days: seq<nat>, n: nat, d: nat, upto: nat): real
    requires n <= |values|
  {
    if upto == 0 then 0.0
    else
      var cell := Summarise(Cell(values, hours, days, n, d, upto - 1));
      WeightedBelow(values, hours, days, n, d, upto - 1) + cell.count as real * cell.avg
  }

  /** The same as `WeightedBelow` without going through averages. */
  function SumBelow(values: seq<real>, hours: seq<nat>, days: seq<nat>, n: nat, d: nat, upto: nat): real
    requires n <= |values|
  {
    if upto == 0 then 0.0
    else SumBelow(values, hours, days, n, d, upto - 1) + Sum(Cell(values, hours, days, n, d, upto - 1))
  }

  lemma Cancels(x: real, y: real)
    requires y != 0.0
    ensures y * (x / y) == x
  {
  }

  lemma CountTimesMean(bucket: seq<real>)
    ensures Summarise(bucket).count as real * Summarise(bucket).avg == Sum(bucket)
  {
    hide Largest, Smallest;
    if bucket != [] {
      Cancels(Sum(bucket), |bucket| as real);
    }
  }

  lemma {:induction false} WeightedIsSum(values: seq<real>, hours: seq<nat>, days: seq<nat>, n: nat, d: nat, upto: nat)
    requires n <= |values|
    ensures WeightedBelow(values, hours, days, n, d, upto) == SumBelow(values, hours, days, n, d, upto)
  {
    hide Cell, Summarise;
    if upto > 0 {
      WeightedIsSum(values, hours, days, n, d, upto - 1);
      CountTimesMean(Cell(values, hours, days, n, d, upto - 1));
    }
  }

  lemma CellGrows(values: seq<real>, hours: seq<nat>, days: seq<nat>, n: nat, d: nat, h: nat)
    requires n < |values|
    ensures var bucket, grown := Cell(values, hours, days, n, d, h), Cell(values, hours, days, n + 1, d, h);
            var counts := n < |hours| && n < |days| && days[n] == d && hours[n] == h;
            && Summarise(grown).count == Summarise(bucket).count + (if counts then 1 else 0)
            && Sum(grown) == Sum(bucket) + (if counts then values[n] else 0.0)
  {
    var bucket := Cell(values, hours, days, n, d, h);
    CellOfNext(values, hours, days, n, d, h);
    CountOf(bucket);
    CountOf(bucket + [values[n]]);
    hide Cell, Sum, Summarise;
    SumAppend(bucket, values[n]);
  }

  lemma CellOfNext(values: seq<real>, hours: seq<nat>, days: seq<nat>, n: nat, d: nat, h: nat)
    requires n < |values|
    ensures Cell(values, hours, days, n + 1, d, h) == Cell(values, hours, days, n, d, h) +
            if n < |hours| && n < |days| && days[n] == d && hours[n] == h then [values[n]] else []
    ensures Cell(values, hours, days, n, d, h) + [] == Cell(values, hours, days, n, d, h)
  {
  }

  lemma CountOf(bucket: seq<real>)
    ensures Summarise(bucket).count == |bucket|
  {
    hide Mean, Largest, Smallest;
  }

  /** One more value adds one to the count and itself to the sum of its own day, if its hour is below the bound. */
  lemma {:induction false} OneMoreValue(values: seq<real>, hours: seq<nat>, days: seq<nat>, n: nat, d: nat, upto: nat)
    requires n < |values|
    ensures var counts := n < |hours| && n < |days| && days[n] == d && hours[n] < upto;
            && CountBelow(values, hours, days, n + 1, d, upto)
               == CountBelow(values, hours, days, n, d, upto) + (if counts then 1 else 0)
            && SumBelow(values, hours, days, n + 1, d, upto)
               == SumBelow(values, hours, days, n, d, upto) + (if counts then values[n] else 0.0)
  {
    hide Cell, Summarise, Sum;
    if upto > 0 {
      OneMoreValue(values, hours, days, n, d, upto - 1);
      CellGrows(values, hours, days, n, d, upto - 1);
    }
  }

  lemma {:induction false} NothingBelow(values: seq<real>, hours: seq<nat>, days: seq<nat>, d: nat, upto: nat)
    ensures CountBelow(values, hours, days, 0, d, upto) == 0 && SumBelow(values, hours, days, 0, d, upto) == 0.0
  {
    if upto > 0 {
      NothingBelow(values, hours, days, d, upto - 1);
    }
  }

  lemma SumOfNone()
    ensures Sum([]) == 0.0
  {
  }

  /** The hourly cells of a day hold together as many values as the day, with the same sum. */
  lemma {:induction false} HoursMakeDay(values: seq<real>, hours: seq<nat>, days: seq<nat>, n: nat, d: nat)
    requires n <= |values| && |hours| == |days| && OnCalendar(hours, days)
    ensures CountBelow(values, hours, days, n, d, HOURS) == |DayCell(values, days, n, d)|
    ensures SumBelow(values, hours, days, n, d, HOURS) == Sum(DayCell(values, days, n, d))
  {
    hide CountBelow, SumBelow, Sum;
    if n == 0 {
      SumOfNone();
      NothingBelow(values, hours, days, d, HOURS);
    } else {
      HoursMakeDay(values, hours, days, n - 1, d);
      OneMoreValue(values, hours, days, n - 1, d, HOURS);
      SumAppend(DayCell(values, days, n - 1, d), values[n - 1]);
      assert DayCell(values, days, n - 1, d) + [] == DayCell(values, days, n - 1, d);
    }
  }

  /** Sum of the day counts of days below `upto`. */
  function DayCounts(values: seq<real>, days: seq<nat>, n: nat, upto: nat): nat
    requires n <= |values|
  {
    if upto == 0 then 0 else DayCounts(values, days, n, upto - 1) + |DayCell(values, days, n, upto - 1)|
  }

  lemma {:induction false} OneMoreDayCount(values: seq<real>, days: seq<nat>, n: nat, upto: nat)
    requires n < |values|
    ensures DayCounts(values, days, n + 1, upto)
         == DayCounts(values, days, n, upto) + if n < |days| && days[n] < upto then 1 else 0
  {
    if upto > 0 {
      OneMoreDayCount(values, days, n, upto - 1);
    }
  }

  lemma {:induction false} DaysMakeAll(values: seq<real>, days: seq<nat>, n: nat)
    requires n <= |values| && OnCalendar([], days)
    ensures DayCounts(values, days, n, DAYS) == if n <= |days| then n else |days|
  {
    if n == 0 {
      NoDayCounts(values, days, DAYS);
    } else {
      DaysMakeAll(values, days, n - 1);
      OneMoreDayCount(values, days, n - 1, DAYS);
    }
  }

  lemma {:induction false} NoDayCounts(values: seq<real>, days: seq<nat>, upto: nat)
    ensures DayCounts(values, days, 0, upto) == 0
  {
    if upto > 0 {
      NoDayCounts(values, days, upto - 1);
    }
  }

  /** All hourly counts together. */
  function HourlyCounts(values: seq<real>, hours: seq<nat>, days: seq<nat>, upto: nat): nat {
    if upto == 0 then 0
    else HourlyCounts(values, hours, days, upto - 1) + CountBelow(values, hours, days, |values|, upto - 1, HOURS)
  }

  /** Hourly counts sum to the number of values that carry an hour and a day. */
  lemma CountsSumToValues(values: seq<real>, hours: seq<nat>, days: seq<nat>)
    requires |hours| == |days| && OnCalendar(hours, days)
    ensures HourlyCounts(values, hours, days, DAYS) == if |values| <= |days| then |values| else |days|
  {
    HourlyIsDaily(values, hours, days, DAYS);
    DaysMakeAll(values, days, |values|);
  }

  lemma {:induction false} HourlyIsDaily(values: seq<real>, hours: seq<nat>, days: seq<nat>, upto: nat)
    requires |hours| == |days| && OnCalendar(hours, days)
    ensures HourlyCounts(values, hours, days, upto) == DayCounts(values, days, |values|, upto)
  {
    hide CountBelow, DayCell;
    if upto > 0 {
      HourlyIsDaily(values, hours, days, upto - 1);
      HoursMakeDay(values, hours, days, |values|, upto - 1);
    }
  }

  predicate InSomeCell(values: seq<real>, hours: seq<nat>, days: seq<nat>, n: nat, d: nat, x: real)
    requires n <= |values|
  {
    exists h :: 0 <= h < HOURS && x in Cell(values, hours, days, n, d, h)
  }

  lemma {:induction false} CellsShareValues(values: seq<real>, hours: seq<nat>, days: seq<nat>, n: nat, d: nat, x: real)
    requires n <= |values| && |hours| == |days| && OnCalendar(hours, days)
    ensures x in DayCell(values, days, n, d) <==> InSomeCell(values, hours, days, n, d, x)
  {
    if n > 0 {
      var i := n - 1;
      CellsShareValues(values, hours, days, i, d, x);
      var adds := i < |days| && days[i] == d && values[i] == x;
      assert x in DayCell(values, days, n, d) <==> x in DayCell(values, days, i, d) || adds;
      forall h | 0 <= h < HOURS
        ensures x in Cell(values, hours, days, n, d, h)
            <==> x in Cell(values, hours, days, i, d, h) || (adds && hours[i] == h)
      {
      }
      assert InSomeCell(values, hours, days, n, d, x) <==> InSomeCell(values, hours, days, i, d, x) || adds by {
        if adds {
          assert x in Cell(values, hours, days, n, d, hours[i]);
        }
      }
    }
  }

  /** Two-level agreement: for every non-empty day, the daily maximum, minimum and mean are the maximum,
      the minimum and the count-weighted mean of its non-empty hourly cells. */
  lemma DailyAgreesWithHourly(values: seq<real>, hours: seq<nat>, days: seq<nat>, d: nat)
    requires |hours| == |days| && OnCalendar(hours, days) && d < DAYS
    requires Summarise(DayCell(values, days, |values|, d)).count > 0
    ensures var n := |values|;
            var day := Summarise(DayCell(values, days, n, d));
            && IsMaximum(values, hours, days, d, day.max) && IsMinimum(values, hours, days, d, day.min)
            && day.count == CountBelow(values, hours, days, n, d, HOURS)
            && day.avg == WeightedBelow(values, hours, days, n, d, HOURS)
                          / CountBelow(values, hours, days, n, d, HOURS) as real
  {
    hide CountBelow, WeightedBelow, SumBelow, IsMaximum, IsMinimum, Cell, DayCell;
    HoursMakeDay(values, hours, days, |values|, d);
    WeightedIsSum(values, hours, days, |values|, d, HOURS);
    DailyExtremes(values, hours, days, d);
  }

  lemma DailyExtremes(values: seq<real>, hours: seq<nat>, days: seq<nat>, d: nat)
    requires |hours| == |days| && OnCalendar(hours, days)
    requires DayCell(values, days, |values|, d) != []
    ensures IsMaximum(values, hours, days, d, Largest(DayCell(values, days, |values|, d)))
    ensures IsMinimum(values, hours, days, d, Smallest(DayCell(values, days, |values|, d)))
  {
    hide Cell, DayCell, Largest, Smallest;
    var n, bucket := |values|, DayCell(values, days, |values|, d);
    forall h: nat | h < HOURS && Cell(values, hours, days, n, d, h) != []
      ensures Largest(Cell(values, hours, days, n, d, h)) <= Largest(bucket)
      ensures Smallest(bucket) <= Smallest(Cell(values, hours, days, n, d, h))
    {
      CellIsInDay(values, hours, days, d, h);
    }
    var highest := CellWith(values, hours, days, d, Largest(bucket));
    CellIsInDay(values, hours, days, d, highest);
    var lowest := CellWith(values, hours, days, d, Smallest(bucket));
    CellIsInDay(values, hours, days, d, lowest);
  }

  lemma CellIsInDay(values: seq<real>, hours: seq<nat>, days: seq<nat>, d: nat, h: nat)
    requires |hours| == |days| && OnCalendar(hours, days) && h < HOURS
    requires Cell(values, hours, days, |values|, d, h) != []
    ensures DayCell(values, days, |values|, d) != []
    ensures var cell, bucket := Cell(values, hours, days, |values|, d, h), DayCell(values, days, |values|, d);
            Largest(cell) <= Largest(bucket) && Smallest(bucket) <= Smallest(cell)
  {
    hide Cell, DayCell, Largest, Smallest;
    var cell := Cell(values, hours, days, |values|, d, h);
    CellsShareValues(values, hours, days, |values|, d, Largest(cell));
    CellsShareValues(values, hours, days, |values|, d, Smallest(cell));
  }

  lemma CellWith(values: seq<real>, hours: seq<nat>, days: seq<nat>, d: nat, x: real) returns (h: nat)
    requires |hours| == |days| && OnCalendar(hours, days) && x in DayCell(values, days, |values|, d)
    ensures h < HOURS && x in Cell(values, hours, days, |values|, d, h)
  {
    CellsShareValues(values, hours, days, |values|, d, x);
    h :| h < HOURS && x in Cell(values, hours, days, |values|, d, h);
  }

  /** `m` is the largest of the maxima of the non-empty cells of day `d`. */
  predicate IsMaximum(values: seq<real>, hours: seq<nat>, days: seq<nat>, d: nat, m: real) {
    && (forall h :: 0 <= h < HOURS && Cell(values, hours, days, |values|, d, h) != [] ==>
          Summarise(Cell(values, hours, days, |values|, d, h)).max <= m)
    && exists h :: 0 <= h < HOURS && Cell(values, hours, days, |values|, d, h) != []
          && Summarise(Cell(values, hours, days, |values|, d, h)).max == m
  }

  predicate IsMinimum(values: seq<real>, hours: seq<nat>, days: seq<nat>, d: nat, m: real) {
    && (forall h :: 0 <= h < HOURS && Cell(values, hours, days, |values|, d, h) != [] ==>
          m <= Summarise(Cell(values, hours, days, |values|, d, h)).min)
    && exists h :: 0 <= h < HOURS && Cell(values, hours, days, |values|, d, h) != []
          && Summarise(Cell(values, hours, days, |values|, d, h)).min == m
  }
}
