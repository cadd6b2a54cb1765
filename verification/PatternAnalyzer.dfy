/** Time patterns: extracting a window from a cluster of quarter-hour slots, refining
    it, and merging similar patterns. */
module PatternAnalyzer {
  import opened Options
  import opened Sequences

  /** One row of a cluster: a day of the week (Monday is 0), a quarter-hour slot of the day, a mean replica count. */
  datatype Row = Row(day: nat, slot: nat, replicas: real)

  datatype TimePattern = TimePattern(
    startHour: nat, startMinute: nat, endHour: nat, endMinute: nat,
    days: seq<nat>, avgReplicas: real, peakReplicas: int, confidence: real)

  predicate ProperRow(row: Row) {
    row.day < 7 && row.slot < 96
  }

  function WindowStart(p: TimePattern): nat {
    60 * p.startHour + p.startMinute
  }

  function WindowEnd(p: TimePattern): nat {
    60 * p.endHour + p.endMinute
  }

  function DaySet(p: TimePattern): set<nat> {
    set d | d in p.days
  }

  /** The members of `days` from `first` to 6, ascending. */
  function DaysInOrder(days: set<nat>, first: nat := 0): (r: seq<nat>)
    requires first <= 7
    ensures forall d :: d in r <==> d in days && first <= d < 7
    ensures forall i, j :: 0 <= i < j < |r| ==> r[i] < r[j]
    decreases 7 - first
  {
    if first == 7 then []
    else
      var rest := DaysInOrder(days, first + 1);
      assert forall j :: 0 <= j < |rest| ==> rest[j] in rest;
      if first in days then [first] + rest else rest
  }

  function Earliest(s: seq<nat>): (m: nat)
    requires |s| > 0
    ensures m in s && forall x :: x in s ==> m <= x
  {
    MinOf(s)
  }

  function Latest(s: seq<nat>): (m: nat)
    requires |s| > 0
    ensures m in s && forall x :: x in s ==> x <= m
  {
    MaxOf(s)
  }

  // ---------- Extraction ----------

  function Slots(rows: seq<Row>): (slots: seq<nat>)
    ensures |slots| == |rows| && forall i :: 0 <= i < |rows| ==> slots[i] == rows[i].slot
  {
    Mapped(rows, (row: Row) => row.slot)
  }

  function Replicas(rows: seq<Row>): (replicas: seq<real>)
    ensures |replicas| == |rows| && forall i :: 0 <= i < |rows| ==> replicas[i] == rows[i].replicas
  {
    Mapped(rows, (row: Row) => row.replicas)
  }

  function ExtractPattern(rows: seq<Row>, confidence: real): Option<TimePattern> {
    if rows == [] then None
    else
      var slots := Slots(rows);
      var startSlot, endSlot := Earliest(slots), Latest(slots);
      var startHour, startMinute := startSlot / 4, startSlot % 4 * 15;
      var endHour, endMinute := endSlot / 4, (endSlot % 4 + 1) * 15;
      var (endHour, endMinute) := if endMinute >= 60 then (endHour + 1, 0) else (endHour, endMinute);
      var (endHour, endMinute) := if endHour >= 24 then (23, 59) else (endHour, endMinute);
      var replicas := Replicas(rows);
      var peak := Ceiling(Largest(replicas));
      Some(TimePattern(startHour, startMinute, endHour, endMinute,
                       DaysInOrder(set row | row in rows :: row.day),
                       Mean(replicas), if peak >= 1 then peak else 1, confidence))
  }

  /** The window stays on the clock and opens before it closes. */
  predicate ProperWindow(p: TimePattern) {
    && p.startHour < 24 && p.startMinute < 60 && p.endHour < 24 && p.endMinute < 60
    && WindowStart(p) < WindowEnd(p)
  }

  predicate ProperDays(p: TimePattern) {
    p.days != [] && p.days == DaysInOrder(DaySet(p))
  }

  predicate Proper(p: TimePattern) {
    ProperWindow(p) && ProperDays(p)
  }

  /** The window holds minute `m` of a day `d`. */
  predicate Holds(p: TimePattern, d: nat, m: nat) {
    d in p.days && WindowStart(p) <= m < WindowEnd(p)
  }

  /** From the quarter-hour slots back to minutes: the last slot of the day is cut at 23:59. */
  lemma ExtractedWindow(rows: seq<Row>, confidence: real)
    requires rows != [] && forall r :: r in rows ==> ProperRow(r)
    ensures var p := ExtractPattern(rows, confidence);
            var first, last := Earliest(Slots(rows)), Latest(Slots(rows));
            && p.Some? && first <= last < 96
            && p.value.startHour < 24 && p.value.startMinute < 60 && p.value.endHour < 24 && p.value.endMinute < 60
            && WindowStart(p.value) == 15 * first
            && WindowEnd(p.value) == (if last == 95 then 1439 else 15 * last + 15)
            && p.value.days == DaysInOrder(set row | row in rows :: row.day)
  {
    hide Mean, Largest, Ceiling, Earliest, Latest, DaysInOrder;
    var slots := Slots(rows);
    var first, last := Earliest(slots), Latest(slots);
    var j :| 0 <= j < |slots| && slots[j] == last;
    assert rows[j] in rows && last == rows[j].slot;
    assert 60 * (first / 4) + first % 4 * 15 == 15 * first;
    assert 60 * (last / 4) + (last % 4 + 1) * 15 == 15 * last + 15;
  }

  /** The extracted window holds every minute of every slot of the cluster, on its day, except possibly 23:59. */
  lemma ExtractedWindowHoldsSlots(rows: seq<Row>, confidence: real, row: Row, m: nat)
    requires (forall r :: r in rows ==> ProperRow(r)) && row in rows
    requires 15 * row.slot <= m < 15 * row.slot + 15 && m != 1439
    ensures var p := ExtractPattern(rows, confidence);
            p.Some? && Proper(p.value) && Holds(p.value, row.day, m)
  {
    hide ExtractPattern, Earliest, Latest, DaysInOrder;
    ExtractedWindow(rows, confidence);
    var slots, p := Slots(rows), ExtractPattern(rows, confidence).value;
    var i :| 0 <= i < |rows| && rows[i] == row;
    assert slots[i] in slots;
    var days := set r | r in rows :: r.day;
    assert row.day in days && row.day in p.days;
    assert DaySet(p) == days;
  }

  /** Rows that the clustering put together, and the confidence in them. */
  datatype Cluster = Cluster(rows: seq<Row>, confidence: real)

  function Extracted(clusters: seq<Cluster>): seq<TimePattern> {
    if clusters == [] then []
    else
      var last := clusters[|clusters| - 1];
      var pattern := ExtractPattern(last.rows, last.confidence);
      Extracted(clusters[..|clusters| - 1]) + if pattern.Some? then [pattern.value] else []
  }

  method ExtractPatterns(clusters: seq<Cluster>) returns (patterns: seq<TimePattern>)
    ensures patterns == Extracted(clusters)
  {
    hide ExtractPattern;
    patterns := [];
    for i := 0 to |clusters|
      invariant patterns == Extracted(clusters[..i])
    {
      assert clusters[..i + 1][..i] == clusters[..i];
      var pattern := ExtractPattern(clusters[i].rows, clusters[i].confidence);
      if pattern.Some? {
        patterns := patterns + [pattern.value];
      }
    }
    assert clusters[..|clusters|] == clusters;
  }

  // ---------- Refinement ----------

  /** The replica counts of the data on the pattern's days, at hours from its first to its last. */
  function Matching(p: TimePattern, data: seq<Row>): seq<real> {
    if data == [] then []
    else
      var rest := Matching(p, data[1..]);
      if p.startHour <= data[0].slot / 4 <= p.endHour && data[0].day in p.days then [data[0].replicas] + rest else rest
  }

  /** A pattern survives if it lasts long enough and enough data match it; its replica
      figures are then taken from the matching data, if those have replica counts. */
  function Refined(p: TimePattern, minDurationHours: real, data: seq<Row>, replicasKnown: bool): Option<TimePattern> {
    var duration := (p.endHour - p.startHour) as real + (p.endMinute - p.startMinute) as real / 60.0;
    var matching := Matching(p, data);
    if duration < minDurationHours then None
    else if |matching| < 10 then None
    else if replicasKnown then Some(p.(avgReplicas := Mean(matching), peakReplicas := Ceiling(Largest(matching))))
    else Some(p)
  }

  function RefinedAll(patterns: seq<TimePattern>, minDurationHours: real, data: seq<Row>,
                      replicasKnown: bool): seq<TimePattern> {
    if patterns == [] then []
    else
      var last := Refined(patterns[|patterns| - 1], minDurationHours, data, replicasKnown);
      RefinedAll(patterns[..|patterns| - 1], minDurationHours, data, replicasKnown)
      + if last.Some? then [last.value] else []
  }

  method RefinePatterns(patterns: seq<TimePattern>, minDurationHours: real, data: seq<Row>, replicasKnown: bool)
    returns (refined: seq<TimePattern>)
    ensures refined == RefinedAll(patterns, minDurationHours, data, replicasKnown)
  {
    hide Refined;
    refined := [];
    for i := 0 to |patterns|
      invariant refined == RefinedAll(patterns[..i], minDurationHours, data, replicasKnown)
    {
      assert patterns[..i + 1][..i] == patterns[..i];
      var pattern := Refined(patterns[i], minDurationHours, data, replicasKnown);
      if pattern.Some? {
        refined := refined + [pattern.value];
      }
    }
    assert patterns[..|patterns|] == patterns;
  }

  lemma {:induction false} ExtractedMembers(clusters: seq<Cluster>, p: TimePattern)
    ensures p in Extracted(clusters) <==> exists c :: c in clusters && ExtractPattern(c.rows, c.confidence) == Some(p)
  {
    hide ExtractPattern;
    if clusters != [] {
      var n := |clusters| - 1;
      assert clusters == clusters[..n] + [clusters[n]];
      ExtractedMembers(clusters[..n], p);
    }
  }

  lemma {:induction false} RefinedMembers(patterns: seq<TimePattern>, minDurationHours: real, data: seq<Row>,
                                          replicasKnown: bool, p: TimePattern)
    ensures p in RefinedAll(patterns, minDurationHours, data, replicasKnown)
       <==> exists q :: q in patterns && Refined(q, minDurationHours, data, replicasKnown) == Some(p)
  {
    hide Refined;
    if patterns != [] {
      var n := |patterns| - 1;
      assert patterns == patterns[..n] + [patterns[n]];
      RefinedMembers(patterns[..n], minDurationHours, data, replicasKnown, p);
    }
  }

  // ---------- Merging ----------

  predicate Similar(p: TimePattern, q: TimePattern) {
    && DaySet(p) == DaySet(q)
    && -2.0 < p.avgReplicas - q.avgReplicas < 2.0
    && p.startHour <= q.endHour && q.startHour <= p.endHour
  }

  function EarliestOf(ps: seq<TimePattern>, field: TimePattern -> int): (m: int)
    requires |ps| > 0
    ensures forall k :: 0 <= k < |ps| ==> m <= field(ps[k])
    ensures exists k :: 0 <= k < |ps| && field(ps[k]) == m
  {
    var fields := Mapped(ps, field);
    assert forall k :: 0 <= k < |ps| ==> fields[k] in fields;
    MinOf(fields)
  }

  function LatestOf(ps: seq<TimePattern>, field: TimePattern -> int): (m: int)
    requires |ps| > 0
    ensures forall k :: 0 <= k < |ps| ==> field(ps[k]) <= m
    ensures exists k :: 0 <= k < |ps| && field(ps[k]) == m
  {
    var fields := Mapped(ps, field);
    assert forall k :: 0 <= k < |ps| ==> fields[k] in fields;
    MaxOf(fields)
  }

  function AverageLoad(p: TimePattern): real {
    p.avgReplicas
  }

  function ConfidenceOf(p: TimePattern): real {
    p.confidence
  }

  /** The group's hull: hours and minutes are bounded independently, and the window still
      reaches over every member's. */
  function MergeGroup(ps: seq<TimePattern>): (merged: TimePattern)
    requires |ps| > 0
    ensures forall k :: 0 <= k < |ps| ==>
              && merged.startHour <= ps[k].startHour && merged.startMinute <= ps[k].startMinute
              && ps[k].endHour <= merged.endHour && ps[k].endMinute <= merged.endMinute
              && ps[k].peakReplicas <= merged.peakReplicas
    ensures exists k :: 0 <= k < |ps| && ps[k].endHour == merged.endHour
    ensures exists k :: 0 <= k < |ps| && ps[k].endMinute == merged.endMinute
    ensures exists k :: 0 <= k < |ps| && ps[k].peakReplicas == merged.peakReplicas
    ensures merged.days == DaysInOrder(set p, d | p in ps && d in p.days :: d)
  {
    TimePattern(
      EarliestOf(ps, (p: TimePattern) => p.startHour), EarliestOf(ps, (p: TimePattern) => p.startMinute),
      LatestOf(ps, (p: TimePattern) => p.endHour), LatestOf(ps, (p: TimePattern) => p.endMinute),
      DaysInOrder(set p, d | p in ps && d in p.days :: d),
      Mean(Mapped(ps, AverageLoad)),
      LatestOf(ps, (p: TimePattern) => p.peakReplicas),
      Mean(Mapped(ps, ConfidenceOf)))
  }

  function MergeMembers(ps: seq<TimePattern>): TimePattern
    requires |ps| > 0
  {
    if |ps| > 1 then MergeGroup(ps) else ps[0]
  }

  predicate Indices(group: seq<nat>, n: nat) {
    forall a :: 0 <= a < |group| ==> group[a] < n
  }

  predicate Groupings(groups: seq<seq<nat>>, n: nat) {
    forall g :: 0 <= g < |groups| ==> |groups[g]| > 0 && Indices(groups[g], n)
  }

  function Select(ps: seq<TimePattern>, group: seq<nat>): (members: seq<TimePattern>)
    requires Indices(group, |ps|)
    ensures |members| == |group| && forall a :: 0 <= a < |group| ==> members[a] == ps[group[a]]
  {
    Mapped(group, (k: nat) requires k < |ps| => ps[k])
  }

  function ToSet(group: seq<nat>): set<nat> {
    set k | k in group
  }

  /** The unused indices from `from` on whose patterns are similar to that of `head`. */
  function Followers(ps: seq<TimePattern>, head: nat, from: nat, used: set<nat>): (group: seq<nat>)
    requires head < |ps| && from <= |ps|
    ensures Indices(group, |ps|)
    decreases |ps| - from
  {
    if from == |ps| then []
    else
      var rest := Followers(ps, head, from + 1, used);
      if from !in used && Similar(ps[head], ps[from]) then [from] + rest else rest
  }

  lemma {:induction false} FollowersAre(ps: seq<TimePattern>, head: nat, from: nat, used: set<nat>)
    requires head < |ps| && from <= |ps|
    ensures var group := Followers(ps, head, from, used);
            && (forall k :: k in group <==> from <= k < |ps| && k !in used && Similar(ps[head], ps[k]))
            && (forall a, b :: 0 <= a < b < |group| ==> group[a] < group[b])
    decreases |ps| - from
  {
    if from < |ps| {
      FollowersAre(ps, head, from + 1, used);
      hide Similar;
      var rest := Followers(ps, head, from + 1, used);
      AheadOf(from, rest);
    }
  }

  lemma AheadOf(first: nat, rest: seq<nat>)
    requires forall k :: k in rest ==> first < k
    requires forall a, b :: 0 <= a < b < |rest| ==> rest[a] < rest[b]
    ensures forall k :: k in [first] + rest <==> k == first || k in rest
    ensures forall a, b :: 0 <= a < b < |[first] + rest| ==> ([first] + rest)[a] < ([first] + rest)[b]
  {
    assert forall b :: 0 <= b < |rest| ==> rest[b] in rest;
  }

  /** The groups from index `i` on: each unused index heads a group with its unused followers. */
  function Groups(ps: seq<TimePattern>, i: nat, used: set<nat>): (groups: seq<seq<nat>>)
    requires i <= |ps|
    ensures Groupings(groups, |ps|)
    decreases |ps| - i
  {
    if i == |ps| then []
    else if i in used then Groups(ps, i + 1, used)
    else
      var group := GroupOf(ps, i, used);
      [group] + Groups(ps, i + 1, used + ToSet(group))
  }

  /** The group headed by `i`. */
  function GroupOf(ps: seq<TimePattern>, i: nat, used: set<nat>): (group: seq<nat>)
    requires i < |ps|
    ensures |group| > 0 && group[0] == i && Indices(group, |ps|)
  {
    [i] + Followers(ps, i, i + 1, used)
  }

  lemma GroupIs(ps: seq<TimePattern>, i: nat, used: set<nat>)
    requires i < |ps|
    ensures var group := GroupOf(ps, i, used);
            && (forall k :: k in group <==> k == i || (i < k < |ps| && k !in used && Similar(ps[i], ps[k])))
            && (forall a, b :: 0 <= a < b < |group| ==> group[a] < group[b])
  {
    FollowersAre(ps, i, i + 1, used);
    var followers := Followers(ps, i, i + 1, used);
    assert forall a :: 0 <= a < |followers| ==> followers[a] in followers;
  }

  function MergedGroups(ps: seq<TimePattern>, groups: seq<seq<nat>>): (merged: seq<TimePattern>)
    requires Groupings(groups, |ps|)
    ensures |merged| == |groups|
    ensures forall g :: 0 <= g < |groups| ==> merged[g] == MergeMembers(Select(ps, groups[g]))
  {
    Mapped(groups, (group: seq<nat>) requires |group| > 0 && Indices(group, |ps|) => MergeMembers(Select(ps, group)))
  }

  /** The groups that merging forms; a list of at most one pattern is returned as it is. */
  function AllGroups(ps: seq<TimePattern>): (groups: seq<seq<nat>>)
    ensures Groupings(groups, |ps|)
  {
    if |ps| == 0 then [] else if |ps| == 1 then [[0]] else Groups(ps, 0, {})
  }

  lemma SelectMore(ps: seq<TimePattern>, group: seq<nat>, k: nat)
    requires Indices(group, |ps|) && k < |ps|
    ensures Indices(group + [k], |ps|) && Select(ps, group + [k]) == Select(ps, group) + [ps[k]]
    ensures ToSet(group + [k]) == ToSet(group) + {k}
  {
  }

  /** `groups` are the first of all groups, and the rest is what remains from index `i`. */
  predicate FirstGroups(ps: seq<TimePattern>, i: nat, used: set<nat>, groups: seq<seq<nat>>)
    requires i <= |ps|
  {
    groups + Groups(ps, i, used) == Groups(ps, 0, {})
  }

  lemma FirstGroupsMore(ps: seq<TimePattern>, i: nat, used: set<nat>, groups: seq<seq<nat>>)
    requires i < |ps| && FirstGroups(ps, i, used, groups)
    ensures i in used ==> FirstGroups(ps, i + 1, used, groups)
    ensures i !in used ==> FirstGroups(ps, i + 1, used + ToSet(GroupOf(ps, i, used)), groups + [GroupOf(ps, i, used)])
  {
    if i !in used {
      var group := GroupOf(ps, i, used);
      var rest := Groups(ps, i + 1, used + ToSet(group));
      assert (groups + [group]) + rest == groups + ([group] + rest);
    }
  }

  lemma FirstGroupsEnds(ps: seq<TimePattern>, used: set<nat>, groups: seq<seq<nat>>)
    ensures FirstGroups(ps, 0, {}, [])
    ensures |ps| > 1 && FirstGroups(ps, |ps|, used, groups) ==> groups == AllGroups(ps)
  {
  }

  lemma MergedFew(ps: seq<TimePattern>)
    requires |ps| <= 1
    ensures MergedGroups(ps, AllGroups(ps)) == ps
  {
    assert |ps| == 1 ==> MergeMembers(Select(ps, [0])) == ps[0];
  }

  lemma MergedNone(ps: seq<TimePattern>)
    ensures Groupings([], |ps|) && MergedGroups(ps, []) == []
  {
  }

  lemma MergedMore(ps: seq<TimePattern>, groups: seq<seq<nat>>, group: seq<nat>)
    requires Groupings(groups, |ps|)
    requires |group| > 0 && Indices(group, |ps|)
    ensures Groupings(groups + [group], |ps|)
    ensures MergedGroups(ps, groups + [group]) == MergedGroups(ps, groups) + [MergeMembers(Select(ps, group))]
  {
    hide MergedGroups, MergeMembers, Select, Indices;
  }

  /** The inner loop of merging: the unused patterns similar to pattern `i`, marked as used. */
  method CollectSimilar(ps: seq<TimePattern>, i: nat, used: set<nat>)
    returns (similar: seq<TimePattern>, used': set<nat>, ghost group: seq<nat>)
    requires i < |ps| && i !in used
    ensures group == GroupOf(ps, i, used) && similar == Select(ps, group)
    ensures used' + {i} == used + ToSet(group)
    ensures |similar| > 0 && similar[0] == ps[i]
  {
    hide Similar;
    similar, used', group := [ps[i]], used, [i];
    for j := i + 1 to |ps|
      invariant |group| > 0 && Indices(group, |ps|) && similar == Select(ps, group)
      invariant group + Followers(ps, i, j, used) == GroupOf(ps, i, used)
      invariant used' + {i} == used + ToSet(group)
      invariant forall k :: k in group ==> k < j
    {
      ghost var rest := Followers(ps, i, j + 1, used);
      assert (group + [j]) + rest == group + ([j] + rest);
      if j !in used' {
        if Similar(ps[i], ps[j]) {
          SelectMore(ps, group, j);
          similar := similar + [ps[j]];
          used' := used' + {j};
          group := group + [j];
        }
      }
    }
  }

  /** The outer loop of merging. */
  method MergeMany(ps: seq<TimePattern>) returns (merged: seq<TimePattern>)
    requires |ps| > 1
    ensures merged == MergedGroups(ps, AllGroups(ps))
  {
    hide GroupOf, MergedGroups, MergeGroup, Groupings, Select, ToSet, FirstGroups, Groups, AllGroups;
    MergedNone(ps);
    FirstGroupsEnds(ps, {}, []);
    merged := [];
    var used: set<nat> := {};
    ghost var groups: seq<seq<nat>> := [];
    for i := 0 to |ps|
      invariant Groupings(groups, |ps|)
      invariant merged == MergedGroups(ps, groups)
      invariant FirstGroups(ps, i, used, groups)
    {
      FirstGroupsMore(ps, i, used, groups);
      if i !in used {
        var similar: seq<TimePattern>;
        ghost var group: seq<nat>;
        similar, used, group := CollectSimilar(ps, i, used);
        MergedMore(ps, groups, group);
        ghost var before := merged;
        if |similar| > 1 {
          merged := merged + [MergeGroup(similar)];
        } else {
          merged := merged + [ps[i]];
        }
        assert merged == before + [MergeMembers(similar)];
        used := used + {i};
        groups := groups + [group];
      }
    }
    FirstGroupsEnds(ps, used, groups);
  }

  method MergeSimilarPatterns(ps: seq<TimePattern>) returns (merged: seq<TimePattern>)
    ensures merged == MergedGroups(ps, AllGroups(ps))
  {
    if |ps| <= 1 {
      MergedFew(ps);
      return ps;
    }
    merged := MergeMany(ps);
  }

  // ---------- Merging is a partition ----------

  /** The groups hold every unused index from `i` on, each in one group. */
  predicate Partition(groups: seq<seq<nat>>, n: nat, i: nat, used: set<nat>) {
    && (forall g :: 0 <= g < |groups| ==> forall k :: k in groups[g] ==> i <= k < n && k !in used)
    && (forall k :: i <= k < n && k !in used ==> exists g :: 0 <= g < |groups| && k in groups[g])
    && (forall g, h :: 0 <= g < h < |groups| ==> groups[g] != groups[h] && ToSet(groups[g]) !! ToSet(groups[h]))
    && (forall g :: 0 <= g < |groups| ==> forall a, b :: 0 <= a < b < |groups[g]| ==> groups[g][a] < groups[g][b])
  }

  lemma {:induction false} GroupsPartition(ps: seq<TimePattern>, i: nat, used: set<nat>)
    requires i <= |ps|
    ensures Partition(Groups(ps, i, used), |ps|, i, used)
    decreases |ps| - i
  {
    PartitionEnds(|ps|, i, used);
    if i < |ps| {
      hide Partition, GroupOf, ToSet;
      if i in used {
        GroupsPartition(ps, i + 1, used);
        PartitionSkips(Groups(ps, i + 1, used), |ps|, i, used);
      } else {
        var group := GroupOf(ps, i, used);
        var rest := Groups(ps, i + 1, used + ToSet(group));
        GroupsPartition(ps, i + 1, used + ToSet(group));
        PartitionGrows(ps, i, used, group, rest);
      }
    }
  }

  lemma PartitionEnds(n: nat, i: nat, used: set<nat>)
    requires i <= n
    ensures i == n ==> Partition([], n, i, used)
  {
  }

  lemma PartitionSkips(groups: seq<seq<nat>>, n: nat, i: nat, used: set<nat>)
    requires i < n && i in used && Partition(groups, n, i + 1, used)
    ensures Partition(groups, n, i, used)
  {
  }

  lemma PartitionGrows(ps: seq<TimePattern>, i: nat, used: set<nat>, group: seq<nat>, rest: seq<seq<nat>>)
    requires i < |ps| && i !in used && group == GroupOf(ps, i, used)
    requires Partition(rest, |ps|, i + 1, used + ToSet(group))
    ensures Partition([group] + rest, |ps|, i, used)
  {
    GroupIs(ps, i, used);
    var groups := [group] + rest;
    forall k | i <= k < |ps| && k !in used ensures exists g :: 0 <= g < |groups| && k in groups[g] {
      if k in group {
        assert k in groups[0];
      } else {
        var g :| 0 <= g < |rest| && k in rest[g];
        assert k in groups[g + 1];
      }
    }
    forall g, h | 0 <= g < h < |groups| ensures groups[g] != groups[h] && ToSet(groups[g]) !! ToSet(groups[h]) {
      if g == 0 {
        assert groups[h] == rest[h - 1];
        assert group[0] in group;
      }
    }
  }

  /** Every pattern goes into exactly one group, and every group is one merged pattern. */
  lemma MergingIsPartition(ps: seq<TimePattern>)
    ensures Partition(AllGroups(ps), |ps|, 0, {}) && |MergedGroups(ps, AllGroups(ps))| == |AllGroups(ps)|
  {
    if |ps| > 1 {
      GroupsPartition(ps, 0, {});
    } else if |ps| == 1 {
      assert 0 in AllGroups(ps)[0];
    }
  }

  /** Members of one group list the same days. */
  predicate SameDays(ps: seq<TimePattern>, group: seq<nat>)
    requires |group| > 0 && Indices(group, |ps|)
  {
    forall a :: 0 <= a < |group| ==> DaySet(ps[group[a]]) == DaySet(ps[group[0]])
  }

  lemma {:induction false} GroupsShareDays(ps: seq<TimePattern>, i: nat, used: set<nat>, g: nat)
    requires i <= |ps| && g < |Groups(ps, i, used)|
    ensures SameDays(ps, Groups(ps, i, used)[g])
    decreases |ps| - i
  {
    if i in used {
      GroupsShareDays(ps, i + 1, used, g);
    } else {
      var group := GroupOf(ps, i, used);
      if g == 0 {
        GroupIs(ps, i, used);
        assert forall a :: 0 <= a < |group| ==> group[a] in group;
      } else {
        GroupsShareDays(ps, i + 1, used + ToSet(group), g - 1);
      }
    }
  }

  lemma GroupSharesDays(ps: seq<TimePattern>, g: nat)
    requires g < |AllGroups(ps)|
    ensures SameDays(ps, AllGroups(ps)[g])
  {
    if |ps| > 1 {
      GroupsShareDays(ps, 0, {}, g);
    }
  }

  predicate OnWeekDays(p: TimePattern) {
    forall d :: d in p.days ==> d < 7
  }

  /** `merged` has a window over that of `p` and no smaller peak. */
  predicate Covers(merged: TimePattern, p: TimePattern) {
    && WindowStart(merged) <= WindowStart(p) && WindowEnd(p) <= WindowEnd(merged)
    && p.peakReplicas <= merged.peakReplicas
  }

  /** A merged pattern covers every member of its group on the same days, its peak is one of theirs,
      and it is proper if the members are. */
  lemma MergedHoldsMembers(ps: seq<TimePattern>, g: nat)
    requires (forall k :: 0 <= k < |ps| ==> OnWeekDays(ps[k])) && g < |AllGroups(ps)|
    ensures var group, merged := AllGroups(ps)[g], MergedGroups(ps, AllGroups(ps))[g];
            && (forall a :: 0 <= a < |group| ==> Covers(merged, ps[group[a]]) && DaySet(merged) == DaySet(ps[group[a]]))
            && (exists a :: 0 <= a < |group| && ps[group[a]].peakReplicas == merged.peakReplicas)
            && ((forall k :: 0 <= k < |ps| ==> Proper(ps[k])) ==> Proper(merged))
  {
    hide OnWeekDays, Proper, Covers, DaySet, AllGroups, MergeMembers;
    var group := AllGroups(ps)[g];
    GroupSharesDays(ps, g);
    var members := Select(ps, group);
    forall a | 0 <= a < |members| ensures OnWeekDays(members[a]) && DaySet(members[a]) == DaySet(members[0]) {
      assert members[a] == ps[group[a]];
    }
    MembersHeld(members);
    assert MergedGroups(ps, AllGroups(ps))[g] == MergeMembers(members);
  }

  lemma MembersHeld(members: seq<TimePattern>)
    requires |members| > 0
    requires forall a :: 0 <= a < |members| ==> OnWeekDays(members[a]) && DaySet(members[a]) == DaySet(members[0])
    ensures var merged := MergeMembers(members);
            && (forall a :: 0 <= a < |members| ==> Covers(merged, members[a]) && DaySet(merged) == DaySet(members[a]))
            && (exists a :: 0 <= a < |members| && members[a].peakReplicas == merged.peakReplicas)
            && ((forall a :: 0 <= a < |members| ==> Proper(members[a])) ==> Proper(merged))
  {
    hide OnWeekDays, ProperWindow, DaysInOrder, DaySet, ProperDays;
    if |members| > 1 {
      HullWindow(members);
      HullDays(members);
    } else {
      assert members[0].peakReplicas == MergeMembers(members).peakReplicas;
    }
  }

  lemma HullWindow(members: seq<TimePattern>)
    requires |members| > 0
    ensures var merged := MergeGroup(members);
            && (forall a :: 0 <= a < |members| ==> Covers(merged, members[a]))
            && ((forall a :: 0 <= a < |members| ==> ProperWindow(members[a])) ==> ProperWindow(merged))
  {
    var merged := MergeGroup(members);
    assert Covers(merged, members[0]);
  }

  lemma HullDays(members: seq<TimePattern>)
    requires |members| > 0
    requires forall a :: 0 <= a < |members| ==> OnWeekDays(members[a]) && DaySet(members[a]) == DaySet(members[0])
    ensures var merged := MergeGroup(members);
            && DaySet(merged) == DaySet(members[0])
            && (ProperDays(members[0]) ==> ProperDays(merged))
  {
    var merged := MergeGroup(members);
    var union := set p, d | p in members && d in p.days :: d;
    assert union == DaySet(members[0]) by {
      forall d ensures d in union <==> d in DaySet(members[0]) {
        assert members[0] in members;
        if d in union {
          var p :| p in members && d in p.days;
          var a :| 0 <= a < |members| && members[a] == p;
          assert d in DaySet(members[a]);
        }
      }
    }
    assert merged.days == DaysInOrder(union);
    assert DaySet(merged) == DaySet(members[0]);
  }

  // ---------- Which patterns are merged ----------

  /** A group is its head and exactly the unused later patterns similar to it that no earlier group has. */
  lemma {:induction false} GroupIsExact(ps: seq<TimePattern>, i: nat, used: set<nat>, g: nat, k: nat)
    requires i <= |ps| && g < |Groups(ps, i, used)|
    ensures var groups := Groups(ps, i, used);
            var head := groups[g][0];
            k in groups[g] <==>
              || k == head
              || (&& head < k < |ps| && k !in used
                  && (forall h :: 0 <= h < g ==> k !in groups[h]) && Similar(ps[head], ps[k]))
    decreases |ps| - i
  {
    hide Similar, GroupOf, ToSet;
    if i in used {
      GroupIsExact(ps, i + 1, used, g, k);
    } else {
      var group := GroupOf(ps, i, used);
      var rest := Groups(ps, i + 1, used + ToSet(group));
      if g == 0 {
        GroupIs(ps, i, used);
      } else {
        GroupIsExact(ps, i + 1, used + ToSet(group), g - 1, k);
        EarlierGroups(group, rest, g, k);
        InToSet(group, k);
      }
    }
  }

  lemma InToSet(group: seq<nat>, k: nat)
    ensures k in ToSet(group) <==> k in group
  {
  }

  lemma EarlierGroups(group: seq<nat>, rest: seq<seq<nat>>, g: nat, k: nat)
    requires 0 < g <= |rest|
    ensures (forall h :: 0 <= h < g ==> k !in ([group] + rest)[h])
       <==> k !in group && forall h :: 0 <= h < g - 1 ==> k !in rest[h]
  {
    var groups := [group] + rest;
    assert forall h :: 0 <= h < g - 1 ==> groups[h + 1] == rest[h];
    assert forall h :: 1 <= h < g ==> groups[h] == rest[h - 1];
    assert groups[0] == group;
  }

  /** Same days, average loads less than 2 apart, and hours that meet. */
  ghost predicate Close(p: TimePattern, q: TimePattern) {
    && (forall d :: d in p.days <==> d in q.days)
    && p.avgReplicas - q.avgReplicas < 2.0 && q.avgReplicas - p.avgReplicas < 2.0
    && p.startHour <= q.endHour && q.startHour <= p.endHour
  }

  lemma CloseIff(p: TimePattern, q: TimePattern)
    ensures Similar(p, q) <==> Close(p, q)
  {
    assert DaySet(p) == DaySet(q) ==> forall d :: d in p.days <==> d in DaySet(q);
  }

  /** Exactly which patterns a group gathers: its head, and the later patterns close to the head that no earlier
      group has. */
  lemma GroupGathersExactly(ps: seq<TimePattern>, g: nat, k: nat)
    requires g < |AllGroups(ps)|
    ensures var groups := AllGroups(ps);
            var head := groups[g][0];
            && head < |ps|
            && (k in groups[g] <==>
                  || k == head
                  || (head < k < |ps| && (forall h :: 0 <= h < g ==> k !in groups[h]) && Close(ps[head], ps[k])))
  {
    hide Similar, Close;
    if |ps| > 1 {
      GroupIsExact(ps, 0, {}, g, k);
      var head := AllGroups(ps)[g][0];
      if k < |ps| {
        CloseIff(ps[head], ps[k]);
      }
    }
  }

  /** Merging leaves no gap: if the hours of each member are in order, every hour from the merged start hour to the
      merged end hour is one of some member. */
  lemma MergingLeavesNoGap(ps: seq<TimePattern>, g: nat, h: nat)
    requires g < |AllGroups(ps)|
    requires forall k :: 0 <= k < |ps| ==> ps[k].startHour <= ps[k].endHour
    requires var merged := MergedGroups(ps, AllGroups(ps))[g]; merged.startHour <= h <= merged.endHour
    ensures exists k :: k in AllGroups(ps)[g] && k < |ps| && ps[k].startHour <= h <= ps[k].endHour
  {
    hide AllGroups, Close;
    var group := AllGroups(ps)[g];
    var members := Select(ps, group);
    forall a | 0 <= a < |members|
      ensures members[a].startHour <= members[a].endHour
      ensures a > 0 ==> members[0].startHour <= members[a].endHour && members[a].startHour <= members[0].endHour
    {
      MemberMeetsHead(ps, g, a);
    }
    assert MergedGroups(ps, AllGroups(ps))[g] == MergeMembers(members);
    var a := MemberAt(members, h);
    assert members[a] == ps[group[a]] && group[a] in group;
  }

  lemma MemberMeetsHead(ps: seq<TimePattern>, g: nat, a: nat)
    requires g < |AllGroups(ps)| && a < |AllGroups(ps)[g]|
    requires ps[AllGroups(ps)[g][a]].startHour <= ps[AllGroups(ps)[g][a]].endHour
    ensures var group := AllGroups(ps)[g];
            ps[group[0]].startHour <= ps[group[a]].endHour && ps[group[a]].startHour <= ps[group[0]].endHour
  {
    hide AllGroups;
    GroupGathersExactly(ps, g, AllGroups(ps)[g][a]);
  }

  /** Intervals of hours that all meet the first cover their hull. */
  lemma MemberAt(members: seq<TimePattern>, h: nat) returns (a: nat)
    requires |members| > 0
    requires forall a :: 0 <= a < |members| ==>
               && members[a].startHour <= members[a].endHour
               && (a > 0 ==> members[0].startHour <= members[a].endHour && members[a].startHour <= members[0].endHour)
    requires MergeMembers(members).startHour <= h <= MergeMembers(members).endHour
    ensures a < |members| && members[a].startHour <= h <= members[a].endHour
  {
    a := 0;
    if |members| > 1 {
      hide DaysInOrder, Mean, Mapped;
      if h < members[0].startHour {
        a :| 0 <= a < |members| && members[a].startHour == MergeGroup(members).startHour;
      } else if h > members[0].endHour {
        a :| 0 <= a < |members| && members[a].endHour == MergeGroup(members).endHour;
      }
    }
  }

  /** The merged average and confidence are the means of the members': their number times the mean is their sum. */
  lemma MergedAverages(members: seq<TimePattern>)
    requires |members| > 0
    ensures var merged := MergeMembers(members);
            && merged.avgReplicas * |members| as real == SumOf(members, AverageLoad)
            && merged.confidence * |members| as real == SumOf(members, ConfidenceOf)
  {
    hide *;
    MergedMeans(members);
    if |members| == 1 {
      SumOfOne(members, AverageLoad);
      SumOfOne(members, ConfidenceOf);
      OneField(members[0]);
    } else {
      MeanOfField(members, AverageLoad);
      MeanOfField(members, ConfidenceOf);
    }
  }

  lemma OneField(p: TimePattern)
    ensures AverageLoad(p) == p.avgReplicas && ConfidenceOf(p) == p.confidence
  {
  }

  lemma MeanOfField(members: seq<TimePattern>, field: TimePattern -> real)
    requires |members| > 0
    ensures Mean(Mapped(members, field)) * |members| as real == SumOf(members, field)
  {
    hide Mean;
    MeanTimesCount(Mapped(members, field));
    SumOfMapped(members, field);
  }

  lemma MergedMeans(members: seq<TimePattern>)
    requires |members| > 0
    ensures var merged := MergeMembers(members);
            if |members| == 1 then merged == members[0]
            else merged.avgReplicas == Mean(Mapped(members, AverageLoad))
                 && merged.confidence == Mean(Mapped(members, ConfidenceOf))
  {
    hide Mean, Mapped, DaysInOrder, EarliestOf, LatestOf;
  }

  lemma SumOfOne(members: seq<TimePattern>, field: TimePattern -> real)
    requires |members| == 1
    ensures SumOf(members, field) == field(members[0])
  {
    assert members[1..] == [];
  }

  function SumOf(members: seq<TimePattern>, field: TimePattern -> real): real {
    if members == [] then 0.0 else field(members[0]) + SumOf(members[1..], field)
  }

  lemma {:induction false} SumOfMapped(members: seq<TimePattern>, field: TimePattern -> real)
    ensures Sum(Mapped(members, field)) == SumOf(members, field)
  {
    if members != [] {
      SumOfMapped(members[1..], field);
      assert Mapped(members, field)[1..] == Mapped(members[1..], field);
    }
  }

  // ---------- Replica figures ----------

  /** Exactly which data match a pattern: those on its days at hours from its first to its last. */
  lemma MatchingIs(p: TimePattern, data: seq<Row>, more: seq<Row>, row: Row)
    ensures Matching(p, data + more) == Matching(p, data) + Matching(p, more)
    ensures Matching(p, [row])
         == if 4 * p.startHour <= row.slot < 4 * p.endHour + 4 && row.day in p.days then [row.replicas] else []
  {
    MatchingSplits(p, data, more);
    assert [row][1..] == [];
    assert Matching(p, []) == [];
  }

  lemma {:induction false} MatchingSplits(p: TimePattern, data: seq<Row>, more: seq<Row>)
    ensures Matching(p, data + more) == Matching(p, data) + Matching(p, more)
  {
    if data == [] {
      assert data + more == more;
    } else {
      assert (data + more)[1..] == data[1..] + more;
      MatchingSplits(p, data[1..], more);
    }
  }

  /** Refinement keeps window, days and confidence; with replica counts known, the peak is the least whole number
      not below any matching count, and the average times their number is their sum. */
  lemma RefinedFigures(p: TimePattern, minDurationHours: real, data: seq<Row>, replicasKnown: bool)
    requires Refined(p, minDurationHours, data, replicasKnown).Some?
    ensures var q, matching := Refined(p, minDurationHours, data, replicasKnown).value, Matching(p, data);
            && q == p.(avgReplicas := q.avgReplicas, peakReplicas := q.peakReplicas)
            && (!replicasKnown ==> q == p)
            && (replicasKnown ==>
                  && q.avgReplicas * |matching| as real == Sum(matching)
                  && (forall x :: x in matching ==> x <= q.peakReplicas as real)
                  && (exists x :: x in matching && q.peakReplicas as real < x + 1.0))
  {
    hide Matching;
    var matching := Matching(p, data);
    MeanTimesCount(matching);
    CeilingBounds(Largest(matching));
  }

  /** The same for a pattern as it is extracted, whose peak is at least 1. */
  lemma ExtractedFigures(rows: seq<Row>, confidence: real)
    requires rows != []
    ensures var p := ExtractPattern(rows, confidence);
            && p.Some? && p.value.confidence == confidence && p.value.peakReplicas >= 1
            && p.value.avgReplicas * |rows| as real == Sum(Replicas(rows))
            && (forall row :: row in rows ==> row.replicas <= p.value.peakReplicas as real)
            && (|| p.value.peakReplicas == 1
                || exists row :: row in rows && p.value.peakReplicas as real < row.replicas + 1.0)
  {
    hide ExtractPattern, Mean, Ceiling, Largest;
    var replicas := Replicas(rows);
    ExtractedReplicas(rows, confidence);
    MeanTimesCount(replicas);
    CeilingBounds(Largest(replicas));
    forall row | row in rows ensures row.replicas in replicas {
      var i :| 0 <= i < |rows| && rows[i] == row;
      assert replicas[i] == row.replicas;
    }
    var i :| 0 <= i < |replicas| && replicas[i] == Largest(replicas);
    assert rows[i] in rows;
  }

  lemma ExtractedReplicas(rows: seq<Row>, confidence: real)
    requires rows != []
    ensures var p, peak := ExtractPattern(rows, confidence), Ceiling(Largest(Replicas(rows)));
            && p.Some? && p.value.confidence == confidence
            && p.value.avgReplicas == Mean(Replicas(rows))
            && p.value.peakReplicas == if peak >= 1 then peak else 1
  {
    hide DaysInOrder, Earliest, Latest, Mean, Ceiling, Largest, Replicas;
  }

  // ---------- From clusters to merged patterns ----------

  datatype Study = Study(clusters: seq<Cluster>, minDurationHours: real, data: seq<Row>, replicasKnown: bool)

  /** The clusters are of days of the week and slots of the day. */
  predicate ProperStudy(study: Study) {
    forall c :: c in study.clusters ==> ProperCluster(c)
  }

  predicate ProperCluster(c: Cluster) {
    forall row :: row in c.rows ==> ProperRow(row)
  }

  function RefinedPatterns(study: Study): seq<TimePattern> {
    RefinedAll(Extracted(study.clusters), study.minDurationHours, study.data, study.replicasKnown)
  }

  function Analyzed(study: Study): seq<TimePattern> {
    Merged(RefinedPatterns(study))
  }

  method Analyze(study: Study) returns (patterns: seq<TimePattern>)
    ensures patterns == Analyzed(study)
  {
    hide MergedGroups, AllGroups, Extracted, RefinedAll;
    patterns := ExtractPatterns(study.clusters);
    patterns := RefinePatterns(patterns, study.minDurationHours, study.data, study.replicasKnown);
    patterns := MergeSimilarPatterns(patterns);
  }

  /** The cluster is not empty, and its window is long enough and matched by enough data. */
  predicate Survives(study: Study, c: Cluster) {
    var p := ExtractPattern(c.rows, c.confidence);
    && p.Some?
    && WindowEnd(p.value) as real - WindowStart(p.value) as real >= 60.0 * study.minDurationHours
    && |Matching(p.value, study.data)| >= 10
  }

  lemma SurvivesRefinement(study: Study, c: Cluster)
    ensures Survives(study, c)
       <==> && ExtractPattern(c.rows, c.confidence).Some?
            && Refined(ExtractPattern(c.rows, c.confidence).value, study.minDurationHours, study.data,
                       study.replicasKnown).Some?
  {
    hide ExtractPattern, Matching;
  }

  lemma ExtractedIsProper(c: Cluster, p: TimePattern)
    requires ProperCluster(c) && ExtractPattern(c.rows, c.confidence) == Some(p)
    ensures Proper(p)
  {
    var row := c.rows[0];
    hide ExtractPattern, Proper, ProperRow;
    assert row in c.rows;
    FirstMinute(row);
    ExtractedWindowHoldsSlots(c.rows, c.confidence, row, 15 * row.slot);
  }

  lemma FirstMinute(row: Row)
    ensures 15 * row.slot != 1439
  {
    assert 1439 % 15 != 0;
  }

  lemma RefinedIsProper(study: Study, p: TimePattern)
    requires ProperStudy(study) && p in RefinedPatterns(study)
    ensures Proper(p)
  {
    hide ExtractPattern, Extracted, RefinedAll, Matching, Mean, ProperCluster;
    RefinedMembers(Extracted(study.clusters), study.minDurationHours, study.data, study.replicasKnown, p);
    var q :| q in Extracted(study.clusters) &&
        Refined(q, study.minDurationHours, study.data, study.replicasKnown) == Some(p);
    ExtractedMembers(study.clusters, q);
    var c :| c in study.clusters && ExtractPattern(c.rows, c.confidence) == Some(q);
    ExtractedIsProper(c, q);
    assert p.days == q.days && DaySet(p) == DaySet(q);
  }

  predicate InGroup(patterns: seq<TimePattern>, g: nat, k: nat) {
    g < |AllGroups(patterns)| && k < |patterns| && k in AllGroups(patterns)[g]
  }

  lemma SomeGroup(patterns: seq<TimePattern>, k: nat) returns (g: nat)
    requires k < |patterns|
    ensures InGroup(patterns, g, k)
  {
    hide AllGroups, MergedGroups, Partition;
    MergingIsPartition(patterns);
    g := InPartition(AllGroups(patterns), |patterns|, {}, k);
  }

  lemma InPartition(groups: seq<seq<nat>>, n: nat, used: set<nat>, k: nat) returns (g: nat)
    requires Partition(groups, n, 0, used) && k < n && k !in used
    ensures g < |groups| && k in groups[g]
  {
    g :| 0 <= g < |groups| && k in groups[g];
  }

  lemma ProperOnWeekDays(p: TimePattern)
    requires Proper(p)
    ensures OnWeekDays(p)
  {
  }

  function Merged(patterns: seq<TimePattern>): seq<TimePattern> {
    MergedGroups(patterns, AllGroups(patterns))
  }

  predicate AllProper(patterns: seq<TimePattern>) {
    forall i :: 0 <= i < |patterns| ==> Proper(patterns[i])
  }

  lemma MergedAreProper(patterns: seq<TimePattern>, merged: TimePattern)
    requires AllProper(patterns) && merged in Merged(patterns)
    ensures Proper(merged)
  {
    hide AllGroups, MergedGroups, Proper, OnWeekDays, DaySet, Covers;
    forall i | 0 <= i < |patterns| ensures OnWeekDays(patterns[i]) {
      ProperOnWeekDays(patterns[i]);
    }
    var g :| 0 <= g < |Merged(patterns)| && Merged(patterns)[g] == merged;
    MergedHoldsMembers(patterns, g);
  }

  /** Every pattern is covered by a merged one. */
  lemma MergedOf(patterns: seq<TimePattern>, k: nat) returns (merged: TimePattern)
    requires AllProper(patterns) && k < |patterns|
    ensures merged in Merged(patterns) && Covers(merged, patterns[k]) && DaySet(merged) == DaySet(patterns[k])
  {
    hide AllGroups, MergedGroups, Proper, OnWeekDays, DaySet, Covers;
    forall i | 0 <= i < |patterns| ensures OnWeekDays(patterns[i]) {
      ProperOnWeekDays(patterns[i]);
    }
    var g := SomeGroup(patterns, k);
    MergedHoldsMembers(patterns, g);
    var a :| 0 <= a < |AllGroups(patterns)[g]| && AllGroups(patterns)[g][a] == k;
    merged := Merged(patterns)[g];
  }

  lemma CoveringHolds(merged: TimePattern, p: TimePattern, d: nat, m: nat)
    requires Covers(merged, p) && DaySet(merged) == DaySet(p) && Holds(p, d, m)
    ensures Holds(merged, d, m)
  {
    assert d in DaySet(p);
  }

  /** Every pattern that the analysis reports is proper. */
  lemma AnalyzedAreProper(study: Study, p: TimePattern)
    requires ProperStudy(study) && p in Analyzed(study)
    ensures Proper(p)
  {
    hide Merged, Proper, RefinedPatterns, ProperStudy;
    RefinedAreAllProper(study);
    MergedAreProper(RefinedPatterns(study), p);
  }

  lemma RefinedAreAllProper(study: Study)
    requires ProperStudy(study)
    ensures AllProper(RefinedPatterns(study))
  {
    hide Proper, RefinedPatterns, ProperStudy;
    var refined := RefinedPatterns(study);
    forall i | 0 <= i < |refined| ensures Proper(refined[i]) {
      RefinedIsProper(study, refined[i]);
    }
  }

  /** `p` holds every minute of every slot of the cluster, on its day, except possibly 23:59. */
  predicate HoldsCluster(p: TimePattern, c: Cluster) {
    forall row, m: nat :: row in c.rows && 15 * row.slot <= m < 15 * row.slot + 15 && m != 1439 ==> Holds(p, row.day, m)
  }

  /** Every cluster that survives refinement is held by a reported pattern. */
  lemma SurvivorIsReported(study: Study, c: Cluster) returns (merged: TimePattern)
    requires ProperStudy(study) && c in study.clusters && Survives(study, c)
    ensures merged in Analyzed(study) && Proper(merged) && HoldsCluster(merged, c)
  {
    hide Merged, Proper, Survives, Covers, DaySet, Holds, RefinedPatterns, ProperStudy;
    var p := RefinedOf(study, c);
    var refined := RefinedPatterns(study);
    RefinedAreAllProper(study);
    var k: nat :| k < |refined| && refined[k] == p;
    merged := MergedOf(refined, k);
    MergedAreProper(refined, merged);
    forall row, m: nat | row in c.rows && 15 * row.slot <= m < 15 * row.slot + 15 && m != 1439
      ensures Holds(merged, row.day, m)
    {
      CoveringHolds(merged, p, row.day, m);
    }
  }

  /** The refined pattern of a surviving cluster. */
  lemma RefinedOf(study: Study, c: Cluster) returns (p: TimePattern)
    requires ProperStudy(study) && c in study.clusters && Survives(study, c)
    ensures p in RefinedPatterns(study) && HoldsCluster(p, c)
  {
    hide ExtractPattern, Extracted, RefinedAll, Matching, Mean, Proper, Survives;
    SurvivesRefinement(study, c);
    var q := ExtractPattern(c.rows, c.confidence).value;
    p := Refined(q, study.minDurationHours, study.data, study.replicasKnown).value;
    ExtractedMembers(study.clusters, q);
    RefinedMembers(Extracted(study.clusters), study.minDurationHours, study.data, study.replicasKnown, p);
    assert ProperCluster(c);
    forall row, m: nat | row in c.rows && 15 * row.slot <= m < 15 * row.slot + 15 && m != 1439
      ensures Holds(p, row.day, m)
    {
      ExtractedWindowHoldsSlots(c.rows, c.confidence, row, m);
    }
  }
}
