/** Merging the series of a range query: one value per timestamp, the largest of all series. */
module DataFetcher {
  import opened Options
  import opened Sequences

  /** A sample; its value is None when the text is not a number. */
  datatype Sample = Sample(time: real, value: Option<real>)

  function Flatten(series: seq<seq<Sample>>): seq<Sample> {
    if series == [] then [] else Flatten(series[..|series| - 1]) + series[|series| - 1]
  }

  predicate Rising(s: seq<real>) {
    forall i, j :: 0 <= i < j < |s| ==> s[i] < s[j]
  }

  predicate Ascending(samples: seq<Sample>) {
    forall i, j :: 0 <= i < j < |samples| ==> samples[i].time <= samples[j].time
  }

  /** Some sample has a number at `t`. */
  ghost predicate Timed(samples: seq<Sample>, t: real) {
    exists s :: s in samples && s.value.Some? && s.time == t
  }

  /** `v` is the largest number at `t`, or zero if none is positive. */
  ghost predicate IsPeak(samples: seq<Sample>, t: real, v: real) {
    && v >= 0.0
    && (forall s :: s in samples && s.value.Some? && s.time == t ==> s.value.value <= v)
    && (v == 0.0 || Sample(t, Some(v)) in samples)
  }

  /** One entry per timestamp with a number, in order, each the peak at its timestamp. */
  ghost predicate Canonical(samples: seq<Sample>, timestamps: seq<real>, values: seq<real>) {
    && Rising(timestamps) && |values| == |timestamps|
    && (forall t :: t in timestamps <==> Timed(samples, t))
    && (forall k :: 0 <= k < |timestamps| ==> IsPeak(samples, timestamps[k], values[k]))
  }

  // ---------- The pass over the response ----------

  method CollectSamples(series: seq<seq<Sample>>) returns (all: seq<Sample>)
    ensures all == Flatten(series)
  {
    all := [];
    for i := 0 to |series|
      invariant all == Flatten(series[..i])
    {
      assert series[..i + 1][..i] == series[..i];
      for j := 0 to |series[i]|
        invariant all == Flatten(series[..i]) + series[i][..j]
      {
        all := all + [series[i][j]];
      }
      assert series[i][..|series[i]|] == series[i];
    }
    assert series[..|series|] == series;
  }

  method DropNaN(samples: seq<Sample>) returns (kept: seq<Sample>)
    ensures forall s :: s in kept <==> s in samples && s.value.Some?
  {
    kept := [];
    for i := 0 to |samples|
      invariant forall s :: s in kept <==> s in samples[..i] && s.value.Some?
    {
      if samples[i].value.Some? {
        kept := kept + [samples[i]];
      }
    }
  }

  function SortedByTime(samples: seq<Sample>): (sorted: seq<Sample>)
    ensures Ascending(sorted) && forall s :: s in sorted <==> s in samples
  {
    var key := (s: Sample) => -s.time;
    SortKeepsMembers(samples, key);
    var sorted := SortedDescending(samples, key);
    assert forall i, j :: 0 <= i < j < |sorted| ==> key(sorted[i]) >= key(sorted[j]);
    sorted
  }

  /** The distinct times of ascending samples, and for each sample the index of its time. */
  method UniqueTimes(samples: seq<Sample>) returns (times: seq<real>, indices: seq<nat>)
    requires Ascending(samples)
    ensures Rising(times) && |indices| == |samples|
    ensures forall i :: 0 <= i < |samples| ==> indices[i] < |times| && times[indices[i]] == samples[i].time
    ensures forall t :: t in times ==> exists s :: s in samples && s.time == t
  {
    times, indices := [], [];
    for i := 0 to |samples|
      invariant Rising(times) && |indices| == i
      invariant i > 0 ==> |times| > 0 && times[|times| - 1] == samples[i - 1].time
      invariant forall k :: 0 <= k < i ==> indices[k] < |times| && times[indices[k]] == samples[k].time
      invariant forall t :: t in times ==> exists s :: s in samples && s.time == t
      invariant i == 0 ==> times == []
    {
      if i == 0 || samples[i - 1].time < samples[i].time {
        assert samples[i] in samples;
        times := times + [samples[i].time];
      }
      indices := indices + [|times| - 1];
    }
  }

  /** Raising each slot to the samples that fall on it, in place. */
  method Aggregate(samples: seq<Sample>, times: seq<real>, indices: seq<nat>) returns (aggregated: array<real>)
    requires |indices| == |samples| && Rising(times)
    requires forall i :: 0 <= i < |samples| ==>
               samples[i].value.Some? && indices[i] < |times| && times[indices[i]] == samples[i].time
    ensures fresh(aggregated) && aggregated.Length == |times|
    ensures forall k :: 0 <= k < |times| ==> IsPeak(samples, times[k], aggregated[k])
  {
    hide IsPeak;
    forall k | 0 <= k < |times| ensures IsPeak(samples[..0], times[k], 0.0) {
      NoPeak(times[k]);
    }
    aggregated := new real[|times|](i => 0.0);
    for i := 0 to |samples|
      invariant forall k :: 0 <= k < |times| ==> IsPeak(samples[..i], times[k], aggregated[k])
    {
      var idx := indices[i];
      ghost var before := aggregated[..];
      if samples[i].value.value > aggregated[idx] {
        aggregated[idx] := samples[i].value.value;
      }
      forall k | 0 <= k < |times| ensures IsPeak(samples[..i + 1], times[k], aggregated[k]) {
        PeakGrows(samples, i, times[k], before[k], aggregated[k]);
      }
    }
    assert samples[..|samples|] == samples;
  }

  lemma NoPeak(t: real)
    ensures IsPeak([], t, 0.0)
  {
  }

  lemma PeakGrows(samples: seq<Sample>, i: nat, t: real, v: real, v': real)
    requires i < |samples| && samples[i].value.Some? && IsPeak(samples[..i], t, v)
    requires v' == if samples[i].time == t && samples[i].value.value > v then samples[i].value.value else v
    ensures IsPeak(samples[..i + 1], t, v')
  {
    assert samples[..i + 1] == samples[..i] + [samples[i]];
    if v' != v {
      assert samples[i] == Sample(t, Some(v'));
    }
  }

  /** The merged series of a response is canonical for its samples. */
  method ParseResponse(series: seq<seq<Sample>>) returns (timestamps: seq<real>, values: seq<real>)
    ensures Canonical(Flatten(series), timestamps, values)
  {
    if series == [] {
      return [], [];
    }
    var all := CollectSamples(series);
    if all == [] {
      return [], [];
    }
    hide Canonical, Flatten;
    timestamps, values := MergeSamples(all);
  }

  /** The samples of all series, merged. */
  method MergeSamples(all: seq<Sample>) returns (timestamps: seq<real>, values: seq<real>)
    ensures Canonical(all, timestamps, values)
  {
    hide Rising, IsPeak, Timed;
    var known := DropNaN(all);
    var sorted := SortedByTime(known);
    KnownStayKnown(all, known, sorted);
    hide Known;
    var indices: seq<nat>;
    timestamps, indices := UniqueTimes(sorted);
    var aggregated := Aggregate(sorted, timestamps, indices);
    values := aggregated[..];
    TimesAreKnown(all, sorted, timestamps, indices);
    forall k | 0 <= k < |timestamps| ensures IsPeak(all, timestamps[k], values[k]) {
      PeakOfKnown(all, sorted, timestamps[k], values[k]);
    }
  }

  predicate Known(all: seq<Sample>, sorted: seq<Sample>) {
    && (forall s :: s in sorted ==> s in all && s.value.Some?)
    && (forall s :: s in all && s.value.Some? ==> s in sorted)
  }

  lemma KnownStayKnown(all: seq<Sample>, known: seq<Sample>, sorted: seq<Sample>)
    requires forall s :: s in known <==> s in all && s.value.Some?
    requires forall s :: s in sorted <==> s in known
    ensures Known(all, sorted) && forall i :: 0 <= i < |sorted| ==> sorted[i].value.Some?
  {
    assert forall i :: 0 <= i < |sorted| ==> sorted[i] in sorted;
  }

  lemma TimesAreKnown(all: seq<Sample>, sorted: seq<Sample>, timestamps: seq<real>, indices: seq<nat>)
    requires Known(all, sorted) && |indices| == |sorted|
    requires forall i :: 0 <= i < |sorted| ==> indices[i] < |timestamps| && timestamps[indices[i]] == sorted[i].time
    requires forall t :: t in timestamps ==> exists s :: s in sorted && s.time == t
    ensures forall t: real :: t in timestamps <==> Timed(all, t)
  {
    forall t: real ensures t in timestamps <==> Timed(all, t) {
      if Timed(all, t) {
        var s :| s in all && s.value.Some? && s.time == t;
        var i :| 0 <= i < |sorted| && sorted[i] == s;
        assert timestamps[indices[i]] == t;
      }
    }
  }

  lemma PeakOfKnown(all: seq<Sample>, sorted: seq<Sample>, t: real, v: real)
    requires Known(all, sorted) && IsPeak(sorted, t, v)
    ensures IsPeak(all, t, v)
  {
  }

  // ---------- Canonical ----------

  ghost predicate SameSamples(a: seq<Sample>, b: seq<Sample>) {
    forall s :: s in a <==> s in b
  }

  lemma RisingTail(s: seq<real>, x: real)
    requires Rising(s) && s != []
    ensures Rising(s[1..]) && (x in s[1..] <==> x in s && x != s[0])
  {
    assert s == [s[0]] + s[1..];
    if x in s[1..] {
      var i :| 0 <= i < |s[1..]| && s[1..][i] == x;
      assert s[0] < s[i + 1];
    }
  }

  lemma FirstIsMember(s: seq<real>)
    ensures s == [] || s[0] in s
  {
  }

  lemma {:induction false} RisingIsUnique(a: seq<real>, b: seq<real>)
    requires Rising(a) && Rising(b) && forall x :: x in a <==> x in b
    ensures a == b
  {
    FirstIsMember(b);
    if a != [] {
      assert a[0] in a && a[0] in b;
      assert b[0] in b && b[0] in a;
      assert a[0] == b[0];
      var a', b' := a[1..], b[1..];
      forall x ensures x in a' <==> x in b' {
        RisingTail(a, x);
        RisingTail(b, x);
      }
      RisingIsUnique(a', b');
    }
  }

  /** The merge depends on nothing but which samples there are. */
  lemma CanonicalIsUnique(a: seq<Sample>, b: seq<Sample>, ts: seq<real>, vs: seq<real>, ts': seq<real>, vs': seq<real>)
    requires SameSamples(a, b) && Canonical(a, ts, vs) && Canonical(b, ts', vs')
    ensures ts == ts' && vs == vs'
  {
    forall t: real ensures t in ts <==> t in ts' {
      assert Timed(a, t) <==> Timed(b, t);
    }
    RisingIsUnique(ts, ts');
    forall k | 0 <= k < |ts| ensures vs[k] == vs'[k] {
      assert IsPeak(a, ts[k], vs[k]) && IsPeak(b, ts[k], vs'[k]);
    }
  }

  lemma {:induction false} FlattenMembers(series: seq<seq<Sample>>, s: Sample)
    ensures s in Flatten(series) <==> exists one :: one in series && s in one
  {
    if series != [] {
      var n := |series| - 1;
      FlattenMembers(series[..n], s);
      assert series == series[..n] + [series[n]];
    }
  }

  /** Series in another order, and samples in another order within their series, give the same merge. */
  lemma PermutationsMergeAlike(series: seq<seq<Sample>>, shuffled: seq<seq<Sample>>, reordered: seq<seq<Sample>>)
    requires multiset(shuffled) == multiset(series)
    requires |reordered| == |shuffled| && forall i :: 0 <= i < |shuffled| ==>
        multiset(reordered[i]) == multiset(shuffled[i])
    ensures SameSamples(Flatten(series), Flatten(reordered))
  {
    forall s ensures s in Flatten(series) <==> s in Flatten(reordered) {
      FlattenMembers(series, s);
      FlattenMembers(reordered, s);
      assert forall one :: one in multiset(series) <==> one in multiset(shuffled);
      assert forall i :: 0 <= i < |shuffled| ==> (s in multiset(reordered[i]) <==> s in multiset(shuffled[i]));
      if one :| one in series && s in one {
        assert one in multiset(series) && one in shuffled;
        var i :| 0 <= i < |shuffled| && shuffled[i] == one;
        assert s in multiset(reordered[i]) && reordered[i] in reordered;
      }
      if one :| one in reordered && s in one {
        var i :| 0 <= i < |reordered| && reordered[i] == one;
        assert s in multiset(shuffled[i]) && shuffled[i] in multiset(shuffled) && shuffled[i] in series;
      }
    }
  }

  /** For samples that are never negative, the merged value is one of the samples at its timestamp and the largest. */
  lemma MergedValueIsMaximum(samples: seq<Sample>, ts: seq<real>, vs: seq<real>, k: nat)
    requires Canonical(samples, ts, vs) && k < |ts|
    requires forall s :: s in samples && s.value.Some? ==> s.value.value >= 0.0
    ensures Sample(ts[k], Some(vs[k])) in samples
    ensures forall s :: s in samples && s.value.Some? && s.time == ts[k] ==> s.value.value <= vs[k]
  {
    assert ts[k] in ts && Timed(samples, ts[k]);
    var s :| s in samples && s.value.Some? && s.time == ts[k];
    assert IsPeak(samples, ts[k], vs[k]);
    assert s == Sample(ts[k], Some(s.value.value));
  }

  /** In general the merged value is that maximum exactly when some number at the timestamp is not negative:
      the accumulator starts from zero. */
  lemma MergedValueIsSampleIff(samples: seq<Sample>, ts: seq<real>, vs: seq<real>, k: nat)
    requires Canonical(samples, ts, vs) && k < |ts|
    ensures Sample(ts[k], Some(vs[k])) in samples
       <==> exists s :: s in samples && s.value.Some? && s.time == ts[k] && s.value.value >= 0.0
  {
    assert IsPeak(samples, ts[k], vs[k]);
    if s :| s in samples && s.value.Some? && s.time == ts[k] && s.value.value >= 0.0 {
      assert s == Sample(ts[k], Some(s.value.value));
    }
  }
}
