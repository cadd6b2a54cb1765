/** From merged patterns to named, prioritised trigger suggestions. */
module TriggerGenerator {
  import opened Options
  import opened Sequences
  import opened Text
  import opened Calendar
  import opened Triggers
  import opened CronTab
  import opened HpaConfig
  import opened Scheduler
  import opened SchedulerRuns
  import opened SchedulerLaws
  import opened GeneratedTriggers
  import opened PatternAnalyzer

  datatype Config = Config(basePriority: int, priorityStep: int, maxTriggers: nat, bufferPercent: real)

  datatype Suggestion = Suggestion(
    name: string, priority: int, zoneOffset: int, startTime: string, endTime: string, recurring: string,
    minReplicas: int32, maxReplicas: int32, confidence: real)

  /** At least one replica, and room for one more. */
  function CalculateReplicas(p: TimePattern, buffer: real): (r: (nat, nat))
    ensures 1 <= r.0 < r.1
  {
    var minReplicas := Max(1, Scaled(p.avgReplicas, 1.0 - buffer));
    var maxReplicas := Max(minReplicas + 1, Scaled(p.peakReplicas as real, 1.0 + buffer));
    (minReplicas, maxReplicas)
  }

  /** How many replicas are asked for: the average less the buffer, rounded down, but at least one; and the peak plus
      the buffer, rounded down, but at least one more. */
  lemma ReplicasHoldLoad(p: TimePattern, buffer: real)
    requires 0.0 <= buffer && 0.0 <= p.avgReplicas
    ensures var (least, most) := CalculateReplicas(p, buffer);
            var low, high := p.avgReplicas * (1.0 - buffer), p.peakReplicas as real * (1.0 + buffer);
            && (low < 1.0 ==> least == 1)
            && (low >= 1.0 ==> least as real <= low < least as real + 1.0)
            && (least == 1 || least as real <= p.avgReplicas) && p.peakReplicas <= most
            && high < most as real + 1.0
            && (most == least + 1 || most as real <= high)
  {
    hide Scaled;
    ScaledIs(p.avgReplicas, 1.0 - buffer);
    ScaledIs(p.peakReplicas as real, 1.0 + buffer);
    ScaledBounds(p.avgReplicas, 1.0 - buffer);
    if p.peakReplicas >= 0 {
      ScaledBounds(p.peakReplicas as real, 1.0 + buffer);
    } else {
      NegativeScaled(p.peakReplicas as real, 1.0 + buffer);
    }
  }

  lemma NegativeScaled(x: real, factor: real)
    requires x < 0.0 && factor >= 0.0
    ensures x * factor <= 0.0 && Scaled(x, factor) <= 0
  {
  }

  function GenerateTriggerName(p: TimePattern, index: nat): (name: string)
    ensures name != "" && name[|name| - 1] == 'd'
  {
    var period :=
      if p.days == [0, 1, 2, 3, 4] then "weekday"
      else if p.days == [5, 6] then "weekend"
      else if |p.days| == 7 then "daily"
      else "custom-" + Decimal(index + 1);
    var timePeriod := if p.startHour < 12 then "morning" else if p.startHour < 17 then "afternoon" else "evening";
    var load := if p.avgReplicas > 5.0 then "high-load" else if p.avgReplicas > 2.0 then "normal-load" else "low-load";
    period + "-" + timePeriod + "-" + load
  }

  /** The replica bounds of the pattern fit the custom resource's 32-bit fields. */
  predicate Fits(p: TimePattern, config: Config) {
    CalculateReplicas(p, config.bufferPercent).1 < 0x8000_0000
  }

  /** A pattern with a window and days. */
  predicate Usable(p: TimePattern, config: Config) {
    ProperWindow(p) && WeekDays(p.days) && p.days != [] && Fits(p, config)
  }

  function Suggested(p: TimePattern, index: nat, zoneOffset: int, config: Config): Suggestion
    requires Usable(p, config)
  {
    var (minReplicas, maxReplicas) := CalculateReplicas(p, config.bufferPercent);
    Suggestion(
      GenerateTriggerName(p, index),
      Max(10, config.basePriority - index * config.priorityStep),
      zoneOffset,
      ClockText(p.startHour, p.startMinute), ClockText(p.endHour, p.endMinute), DaysText(SortedDays(p.days)),
      minReplicas, maxReplicas, p.confidence)
  }

  /** A suggestion as the generator holds it; later passes rename it and change its priority in place. */
  class TriggerSuggestion {
    var name: string
    var priority: int
    const zoneOffset: int
    const startTime: string
    const endTime: string
    const recurring: string
    const minReplicas: int32
    const maxReplicas: int32
    const confidence: real

    constructor (value: Suggestion)
      ensures Value() == value
    {
      name, priority, zoneOffset := value.name, value.priority, value.zoneOffset;
      startTime, endTime, recurring := value.startTime, value.endTime, value.recurring;
      minReplicas, maxReplicas, confidence := value.minReplicas, value.maxReplicas, value.confidence;
    }

    function Value(): Suggestion
      reads this
    {
      Suggestion(name, priority, zoneOffset, startTime, endTime, recurring, minReplicas, maxReplicas, confidence)
    }
  }

  /** One fresh suggestion per pattern, the patterns taken by falling average load. */
  method PatternsToTriggers(patterns: seq<TimePattern>, zoneOffset: int, config: Config)
    returns (suggestions: seq<TriggerSuggestion>)
    requires forall p :: p in patterns ==> Usable(p, config)
    ensures |suggestions| == |patterns| && Distinct(suggestions) && fresh(suggestions)
    ensures var sorted := SortedDescending(patterns, AverageLoad);
            forall i :: 0 <= i < |sorted| ==>
                sorted[i] in patterns && suggestions[i].Value() == Suggested(sorted[i], i, zoneOffset, config)
  {
    hide Suggested, Usable;
    var sorted := SortedDescending(patterns, AverageLoad);
    SortKeepsMembers(patterns, AverageLoad);
    assert forall k :: 0 <= k < |sorted| ==> sorted[k] in sorted;
    hide SortedDescending;
    suggestions := [];
    for i := 0 to |sorted|
      invariant |suggestions| == i && Distinct(suggestions) && fresh(suggestions)
      invariant forall k :: 0 <= k < i ==> suggestions[k].Value() == Suggested(sorted[k], k, zoneOffset, config)
    {
      var suggestion := new TriggerSuggestion(Suggested(sorted[i], i, zoneOffset, config));
      suggestions := suggestions + [suggestion];
    }
  }

  // ---------- Unique names and priorities ----------

  function Occurrences(names: seq<string>, name: string): nat {
    if names == [] then 0
    else Occurrences(names[..|names| - 1], name) + if names[|names| - 1] == name then 1 else 0
  }

  /** The first of several equal names stays; the n-th gets the suffix "-n". */
  function UniqueName(names: seq<string>, i: nat): string
    requires i < |names|
  {
    var before := Occurrences(names[..i], names[i]);
    if before == 0 then names[i] else names[i] + "-" + Decimal(before + 1)
  }

  function Names(values: seq<Suggestion>): (names: seq<string>)
    ensures |names| == |values| && forall i :: 0 <= i < |values| ==> names[i] == values[i].name
  {
    Mapped(values, (s: Suggestion) => s.name)
  }

  function OptimizedAt(values: seq<Suggestion>, i: nat, config: Config): Suggestion
    requires i < |values|
  {
    values[i].(priority := config.basePriority - i * config.priorityStep, name := UniqueName(Names(values), i))
  }

  function Optimized(values: seq<Suggestion>, config: Config): (result: seq<Suggestion>)
    ensures |result| == |values| && forall i :: 0 <= i < |values| ==> result[i] == OptimizedAt(values, i, config)
  {
    seq(|values|, i requires 0 <= i < |values| => OptimizedAt(values, i, config))
  }

  function Values(suggestions: seq<TriggerSuggestion>): (values: seq<Suggestion>)
    reads suggestions
    ensures |values| == |suggestions| && forall i :: 0 <= i < |suggestions| ==> values[i] == suggestions[i].Value()
  {
    if suggestions == [] then []
    else Values(suggestions[..|suggestions| - 1]) + [suggestions[|suggestions| - 1].Value()]
  }

  function ByConfidence(suggestions: seq<TriggerSuggestion>): (sorted: seq<TriggerSuggestion>)
    ensures multiset(sorted) == multiset(suggestions) && |sorted| == |suggestions|
    ensures forall i, j :: 0 <= i < j < |sorted| ==> sorted[i].confidence >= sorted[j].confidence
  {
    SortedDescending(suggestions, (s: TriggerSuggestion) => s.confidence)
  }

  /** The most confident suggestions, when there are too many. */
  function Kept(suggestions: seq<TriggerSuggestion>, config: Config): seq<TriggerSuggestion> {
    if |suggestions| <= config.maxTriggers then suggestions else ByConfidence(suggestions)[..config.maxTriggers]
  }

  /** Distinct members are kept, as many as there is room for, and none that is dropped is more confident. */
  lemma KeptMembers(suggestions: seq<TriggerSuggestion>, config: Config)
    requires Distinct(suggestions)
    ensures var kept := Kept(suggestions, config);
            && Distinct(kept) && (forall s :: s in kept ==> s in suggestions)
            && |kept| == (if |suggestions| <= config.maxTriggers then |suggestions| else config.maxTriggers)
            && forall s, k :: s in suggestions && s !in kept && k in kept ==> k.confidence >= s.confidence
  {
    if |suggestions| > config.maxTriggers {
      var sorted := ByConfidence(suggestions);
      PermutationDistinct(suggestions, sorted);
      forall s | s in sorted[..config.maxTriggers] ensures s in suggestions {
        assert s in multiset(sorted);
      }
      assert forall i :: 0 <= i < config.maxTriggers ==> sorted[..config.maxTriggers][i] == sorted[i];
      forall s, k | s in suggestions && s !in sorted[..config.maxTriggers] && k in sorted[..config.maxTriggers]
        ensures k.confidence >= s.confidence
      {
        assert s in multiset(sorted);
        var i :| 0 <= i < |sorted| && sorted[i] == s;
        var j :| 0 <= j < config.maxTriggers && sorted[j] == k;
      }
    }
  }

  /** Renumbering the priorities, in place. */
  method AssignPriorities(kept: seq<TriggerSuggestion>, config: Config)
    requires Distinct(kept)
    modifies kept
    ensures forall k :: 0 <= k < |kept| ==>
              kept[k].Value() == old(kept[k].Value()).(priority := config.basePriority - k * config.priorityStep)
  {
    for i := 0 to |kept|
      invariant forall k :: i <= k < |kept| ==> kept[k].Value() == old(kept[k].Value())
      invariant forall k :: 0 <= k < i ==>
                  kept[k].Value() == old(kept[k].Value()).(priority := config.basePriority - k * config.priorityStep)
    {
      kept[i].priority := config.basePriority - i * config.priorityStep;
    }
  }

  /** Making the names unique, in place. */
  method MakeNamesUnique(kept: seq<TriggerSuggestion>)
    requires Distinct(kept)
    modifies kept
    ensures forall k :: 0 <= k < |kept| ==>
              kept[k].Value() == old(kept[k].Value()).(name := UniqueName(old(Names(Values(kept))), k))
  {
    hide Counts, UniqueName, Decimal, Names, Values;
    ghost var names := Names(Values(kept));
    var namesSeen: map<string, nat> := map[];
    NoneSeen(names);
    for i := 0 to |kept|
      invariant forall k :: i <= k < |kept| ==> kept[k].Value() == old(kept[k].Value())
      invariant forall k :: 0 <= k < i ==> kept[k].Value() == old(kept[k].Value()).(name := UniqueName(names, k))
      invariant Counts(namesSeen, names[..i])
    {
      var baseName := kept[i].name;
      assert baseName == names[i];
      OneMore(names, i, namesSeen);
      if baseName in namesSeen {
        namesSeen := namesSeen[baseName := namesSeen[baseName] + 1];
        kept[i].name := baseName + "-" + Decimal(namesSeen[baseName]);
      } else {
        namesSeen := namesSeen[baseName := 1];
      }
    }
  }

  /** The dictionary holds how often each name has occurred. */
  ghost predicate Counts(seen: map<string, nat>, names: seq<string>) {
    forall name: string :: Occurrences(names, name) == Seen(seen, name) && (name in seen ==> seen[name] > 0)
  }

  function Seen(seen: map<string, nat>, name: string): nat {
    if name in seen then seen[name] else 0
  }

  lemma NoneSeen(names: seq<string>)
    ensures Counts(map[], names[..0])
  {
  }

  lemma OneMore(names: seq<string>, i: nat, seen: map<string, nat>)
    requires i < |names| && Counts(seen, names[..i])
    ensures Counts(seen[names[i] := Seen(seen, names[i]) + 1], names[..i + 1])
    ensures UniqueName(names, i) == if names[i] in seen then names[i] + "-" + Decimal(seen[names[i]] + 1) else names[i]
  {
    assert names[..i + 1][..i] == names[..i];
    assert Occurrences(names[..i], names[i]) == Seen(seen, names[i]);
    var seen' := seen[names[i] := Seen(seen, names[i]) + 1];
    forall name: string ensures Occurrences(names[..i + 1], name) == Seen(seen', name) &&
        (name in seen' ==> seen'[name] > 0) {
      assert Occurrences(names[..i], name) == Seen(seen, name);
    }
  }

  /** Keeps the most confident suggestions, renumbers their priorities and makes their names unique. */
  method OptimizeTriggers(suggestions: seq<TriggerSuggestion>, config: Config) returns (kept: seq<TriggerSuggestion>)
    requires Distinct(suggestions)
    modifies suggestions
    ensures kept == Kept(suggestions, config) && Distinct(kept)
    ensures Values(kept) == Optimized(old(Values(Kept(suggestions, config))), config)
    ensures forall s :: s in suggestions && s !in kept ==> unchanged(s)
  {
    hide Kept, UniqueName;
    kept := Kept(suggestions, config);
    KeptMembers(suggestions, config);
    ghost var values := Values(kept);
    assert forall i :: 0 <= i < |kept| ==> kept[i] in kept && kept[i] in suggestions;
    AssignPriorities(kept, config);
    assert Names(Values(kept)) == Names(values);
    MakeNamesUnique(kept);
    assert forall i :: 0 <= i < |kept| ==> kept[i].Value() == OptimizedAt(values, i, config);
  }

  // ---------- Names never collide ----------

  /** Names that do not end in a digit; every generated name ends in "load". */
  predicate PlainNames(names: seq<string>) {
    forall i :: 0 <= i < |names| ==> Plain(names[i])
  }

  lemma LastDash(a: string, x: string)
    requires '-' !in x
    ensures var s := a + "-" + x; s[|a|] == '-' && forall k :: |a| < k < |s| ==> s[k] != '-'
    ensures (a + "-" + x)[..|a|] == a && (a + "-" + x)[|a| + 1..] == x
  {
    var s := a + "-" + x;
    forall k | |a| < k < |s| ensures s[k] != '-' {
      assert s[k] == x[k - |a| - 1];
    }
  }

  lemma SuffixesDiffer(a: string, x: string, b: string, y: string)
    requires '-' !in x && '-' !in y && a + "-" + x == b + "-" + y
    ensures a == b && x == y
  {
    LastDash(a, x);
    LastDash(b, y);
    assert |a| == |b|;
  }

  predicate Plain(name: string) {
    name != "" && !IsDigit(name[|name| - 1])
  }

  lemma SuffixedIsNotPlain(a: string, n: nat)
    ensures !Plain(a + "-" + Decimal(n)) && '-' !in Decimal(n)
  {
    DecimalRoundTrip(n);
    var s := a + "-" + Decimal(n);
    assert s[|s| - 1] == Decimal(n)[|Decimal(n)| - 1];
  }

  lemma {:induction false} OccurrencesGrow(names: seq<string>, i: nat, j: nat)
    requires i < j <= |names|
    ensures Occurrences(names[..j], names[i]) > Occurrences(names[..i], names[i])
    decreases j
  {
    assert names[..j][..j - 1] == names[..j - 1];
    if i < j - 1 {
      OccurrencesGrow(names, i, j - 1);
    }
  }

  lemma UniqueNamesDiffer(names: seq<string>, i: nat, j: nat)
    requires PlainNames(names) && i < j < |names|
    ensures UniqueName(names, i) != UniqueName(names, j)
  {
    hide Occurrences, Decimal, Plain;
    var m, n := Occurrences(names[..i], names[i]), Occurrences(names[..j], names[j]);
    SuffixedIsNotPlain(names[i], m + 1);
    SuffixedIsNotPlain(names[j], n + 1);
    OccurrencesGrow(names, i, j);
    if m > 0 && n > 0 && UniqueName(names, i) == UniqueName(names, j) {
      SuffixesDiffer(names[i], Decimal(m + 1), names[j], Decimal(n + 1));
      SameDecimal(m + 1, n + 1);
      assert false;
    }
  }

  lemma SameDecimal(m: nat, n: nat)
    requires Decimal(m) == Decimal(n)
    ensures m == n
  {
    DecimalRoundTrip(m);
    DecimalRoundTrip(n);
  }

  /** Output names are pairwise distinct, priorities fall strictly, and optimising again changes nothing. */
  lemma OptimizedNeverCollides(values: seq<Suggestion>, config: Config)
    requires PlainNames(Names(values))
    ensures Distinct(Names(Optimized(values, config)))
    ensures |values| <= 1 || config.priorityStep > 0 <==>
              forall i, j :: 0 <= i < j < |values| ==>
                  Optimized(values, config)[i].priority > Optimized(values, config)[j].priority
    ensures Optimized(Optimized(values, config), config) == Optimized(values, config)
  {
    var once := Optimized(values, config);
    forall i, j | 0 <= i < j < |values| ensures Names(once)[i] != Names(once)[j] {
      UniqueNamesDiffer(Names(values), i, j);
    }
    forall i, j | 0 <= i < j < |values| && config.priorityStep > 0 ensures once[i].priority > once[j].priority {
      assert i * config.priorityStep < j * config.priorityStep;
    }
    if |values| > 1 && config.priorityStep <= 0 {
      assert once[0].priority <= once[1].priority;
    }
    forall i | 0 <= i < |values| ensures OptimizedAt(once, i, config) == once[i] {
      NewNameIsUnique(Names(once), i);
    }
  }

  lemma {:induction false} AbsentName(names: seq<string>, name: string)
    requires name !in names
    ensures Occurrences(names, name) == 0
  {
    if names != [] {
      AbsentName(names[..|names| - 1], name);
    }
  }

  lemma NewNameIsUnique(names: seq<string>, i: nat)
    requires Distinct(names) && i < |names|
    ensures UniqueName(names, i) == names[i]
  {
    AbsentName(names[..i], names[i]);
  }

  // ---------- What the scheduler makes of the suggestions ----------

  function ToTrigger(s: Suggestion): Trigger {
    GeneratedTrigger(s.name, s.priority, s.zoneOffset, s.startTime, s.endTime, s.recurring, s.minReplicas,
                     s.maxReplicas, 3)
  }

  /** The suggestion carries the window, days and confidence of the pattern, and replica bounds that leave room. */
  predicate Carrying(s: Suggestion, p: TimePattern) {
    && ProperWindow(p) && WeekDays(p.days) && p.days != []
    && s.startTime == ClockText(p.startHour, p.startMinute) && s.endTime == ClockText(p.endHour, p.endMinute)
    && s.recurring == DaysText(SortedDays(p.days))
    && s.confidence == p.confidence
    && 1 <= s.minReplicas < s.maxReplicas
  }

  /** It also has the replica bounds calculated for the pattern. */
  predicate Follows(s: Suggestion, p: TimePattern, config: Config) {
    Carrying(s, p) && CalculateReplicas(p, config.bufferPercent) == (s.minReplicas, s.maxReplicas)
  }

  /** It follows one of the patterns. */
  ghost predicate FollowsOne(s: Suggestion, patterns: seq<TimePattern>, config: Config) {
    exists p :: p in patterns && Follows(s, p, config)
  }

  lemma SuggestedFollows(p: TimePattern, index: nat, zoneOffset: int, config: Config)
    requires Usable(p, config)
    ensures var s := Suggested(p, index, zoneOffset, config);
            Follows(s, p, config) && Plain(s.name) && s.zoneOffset == zoneOffset
  {
  }

  lemma CarryingSays(s: Suggestion, p: TimePattern)
    requires Carrying(s, p)
    ensures Says(ToTrigger(s), SortedDays(p.days), WindowStart(p), WindowEnd(p))
  {
    ClockTextParses(p.startHour, p.startMinute);
    ClockTextParses(p.endHour, p.endMinute);
  }

  function ToTriggers(values: seq<Suggestion>): (triggers: seq<Trigger>)
    ensures |triggers| == |values| && forall i :: 0 <= i < |values| ==> triggers[i] == ToTrigger(values[i])
  {
    Mapped(values, ToTrigger)
  }

  /** The start configuration sets exactly the bounds of the suggestion, and the end configuration one replica and the
      larger of three and the suggestion's least. */
  lemma SuggestionBounds(s: Suggestion)
    ensures var trigger := ToTrigger(s);
            && trigger.startHPAConfig == Some(HPAConfig(Some(s.minReplicas), Some(s.maxReplicas)))
            && trigger.endHPAConfig == Some(HPAConfig(Some(1), Some(if s.minReplicas > 3 then s.minReplicas else 3)))
  {
  }

  lemma GeneratedIsDependable(s: Suggestion, p: TimePattern)
    requires Carrying(s, p)
    ensures Dependable(ToTrigger(s)) && Complete(ToTrigger(s).startHPAConfig.value)
  {
    hide ClockText, DaysText, SortedDays;
    CarryingSays(s, p);
    SaysIsWellScheduled(ToTrigger(s), SortedDays(p.days), WindowStart(p), WindowEnd(p));
    GeneratedConfigsAccepted(s.name, s.priority, s.zoneOffset, s.startTime, s.endTime, s.recurring, s.minReplicas,
                             s.maxReplicas, 3);
  }

  ghost predicate SomeCarried(s: Suggestion) {
    exists p :: Carrying(s, p)
  }

  lemma CarriedIsDependable(s: Suggestion)
    requires SomeCarried(s)
    ensures Dependable(ToTrigger(s)) && Complete(ToTrigger(s).startHPAConfig.value)
  {
    var p :| Carrying(s, p);
    GeneratedIsDependable(s, p);
  }

  lemma ToTriggerKeeps(s: Suggestion)
    ensures ToTrigger(s).name == s.name && Priority(ToTrigger(s)) == s.priority && !ToTrigger(s).suspend
    ensures ToTrigger(s).startHPAConfig.Some? && forall now :: Local(ToTrigger(s), now) == now + s.zoneOffset
  {
  }

  /** Suggestions that carry patterns under distinct non-empty names make a right schedule. */
  lemma CarriedMakeRightSchedule(values: seq<Suggestion>)
    requires Distinct(Names(values)) && "" !in Names(values)
    requires forall i :: 0 <= i < |values| ==> SomeCarried(values[i])
    ensures RightSchedule(ToTriggers(values))
    ensures var schedules := Registered(ToTriggers(values));
            DistinctPriorities(schedules, schedules.Keys) <==> PrioritiesDiffer(ToTriggers(values))
  {
    hide SomeCarried, Carrying, Dependable, Complete, GeneratedTrigger, Registered, RightSchedule;
    var triggers := ToTriggers(values);
    forall i | 0 <= i < |triggers|
      ensures triggers[i].name == values[i].name != "" && !triggers[i].suspend
      ensures triggers[i].startHPAConfig.Some? && Dependable(triggers[i]) && Complete(triggers[i].startHPAConfig.value)
    {
      CarriedIsDependable(values[i]);
      ToTriggerKeeps(values[i]);
      assert Names(values)[i] in Names(values);
    }
    assert DistinctNames(triggers) by {
      forall i, j | 0 <= i < j < |triggers| ensures triggers[i].name != triggers[j].name {
        assert Names(values)[i] != Names(values)[j];
      }
    }
    RightScheduleIff(triggers);
    assert RightSchedule(triggers);
    RightPrioritiesIff(triggers);
  }

  lemma OptimizedFollows(values: seq<Suggestion>, i: nat, p: TimePattern, config: Config)
    requires i < |values| && Plain(values[i].name)
    ensures Follows(Optimized(values, config)[i], p, config) <==> Follows(values[i], p, config)
    ensures Optimized(values, config)[i].name != ""
  {
  }

  /** Generated triggers meet every hypothesis of the run theorem, and the context keeps each one; their
      priorities differ exactly when the step is not zero or there is at most one of them. */
  lemma GeneratedScheduleIsRight(values: seq<Suggestion>, patterns: seq<TimePattern>, config: Config)
    requires PlainNames(Names(values))
    requires forall i :: 0 <= i < |values| ==> FollowsOne(values[i], patterns, config)
    ensures var triggers := ToTriggers(Optimized(values, config));
            var schedules := Registered(triggers);
            && RightSchedule(triggers)
            && (DistinctPriorities(schedules, schedules.Keys) <==> config.priorityStep != 0 || |values| <= 1)
  {
    hide Carrying, Plain, GeneratedTrigger, UniqueName, RightSchedule, Registered;
    var once := Optimized(values, config);
    OptimizedNeverCollides(values, config);
    forall i | 0 <= i < |once| ensures SomeCarried(once[i]) && Names(once)[i] != "" {
      assert Plain(Names(values)[i]);
      var p :| p in patterns && Follows(values[i], p, config);
      OptimizedFollows(values, i, p, config);
      assert Carrying(once[i], p);
    }
    CarriedMakeRightSchedule(once);
    StepsDiffer(values, config);
  }

  lemma StepsDiffer(values: seq<Suggestion>, config: Config)
    ensures PrioritiesDiffer(ToTriggers(Optimized(values, config))) <==> config.priorityStep != 0 || |values| <= 1
  {
    hide UniqueName;
    var triggers := ToTriggers(Optimized(values, config));
    forall i, j | 0 <= i < j < |values|
      ensures config.priorityStep != 0 ==> Priority(triggers[i]) != Priority(triggers[j])
    {
      assert i * config.priorityStep - j * config.priorityStep == (i - j) * config.priorityStep;
    }
    if config.priorityStep == 0 && |values| > 1 {
      assert Priority(triggers[0]) == Priority(triggers[1]);
    }
  }

  // ---------- The whole pass ----------

  const BUSINESS_HOURS: TimePattern := TimePattern(9, 0, 17, 0, [0, 1, 2, 3, 4], 0.0, 0, 0.5)

  function DefaultSuggestion(zoneOffset: int): Suggestion {
    Suggestion("default-business-hours", 100, zoneOffset, "09:00:00", "17:00:00", "M,TU,W,TH,F", 2, 10, 0.5)
  }

  lemma DefaultIsRight(zoneOffset: int)
    ensures Carrying(DefaultSuggestion(zoneOffset), BUSINESS_HOURS)
    ensures RightSchedule(ToTriggers([DefaultSuggestion(zoneOffset)]))
  {
    var s := DefaultSuggestion(zoneOffset);
    WorkingDaysText();
    hide DaysText, SortedDays;
    assert Carrying(s, BUSINESS_HOURS);
    hide Carrying, RightSchedule;
    assert SomeCarried(s);
    CarriedMakeRightSchedule([s]);
  }

  /** Some suggestion follows the pattern. */
  ghost predicate Suggests(suggestions: seq<Suggestion>, p: TimePattern, config: Config) {
    exists s :: s in suggestions && Follows(s, p, config)
  }

  /** There are too many patterns, and no suggestion is less confident than this one. */
  predicate CutOff(suggestions: seq<Suggestion>, patterns: seq<TimePattern>, p: TimePattern, config: Config) {
    |patterns| > config.maxTriggers && forall i :: 0 <= i < |suggestions| ==> suggestions[i].confidence >= p.confidence
  }

  /** `aligned` lists the patterns, each once, as the suggestions follow them, by falling average load. */
  ghost predicate Aligned(suggestions: seq<Suggestion>, aligned: seq<TimePattern>, patterns: seq<TimePattern>,
                          config: Config) {
    && |aligned| == |suggestions| && multiset(aligned) == multiset(patterns)
    && (forall i :: 0 <= i < |aligned| ==> Follows(suggestions[i], aligned[i], config))
    && (forall i, j :: 0 <= i < j < |aligned| ==> aligned[i].avgReplicas >= aligned[j].avgReplicas)
  }

  predicate PrioritiesByPosition(suggestions: seq<Suggestion>, config: Config) {
    forall i :: 0 <= i < |suggestions| ==> suggestions[i].priority == config.basePriority - i * config.priorityStep
  }

  /** What may be suggested for a list of patterns: triggers that make a right schedule, each following
      one of the patterns, and one for every pattern that is not cut off. With room for all, there is exactly one
      for each, and priorities go by falling load. */
  ghost predicate Answers(suggestions: seq<Suggestion>, patterns: seq<TimePattern>, zoneOffset: int, config: Config) {
    && RightSchedule(ToTriggers(suggestions))
    && (forall i :: 0 <= i < |suggestions| ==> suggestions[i].zoneOffset == zoneOffset)
    && if patterns == [] then suggestions == [DefaultSuggestion(zoneOffset)]
       else
         && |suggestions| == (if |patterns| <= config.maxTriggers then |patterns| else config.maxTriggers)
         && (forall i :: 0 <= i < |suggestions| ==> FollowsOne(suggestions[i], patterns, config))
         && (forall p :: p in patterns ==> Suggests(suggestions, p, config) || CutOff(suggestions, patterns, p, config))
         && PrioritiesByPosition(suggestions, config)
         && (|patterns| <= config.maxTriggers ==> exists aligned :: Aligned(suggestions, aligned, patterns, config))
  }

  /** From clusters to suggestions. */
  method Generate(study: Study, zoneOffset: int, config: Config) returns (suggestions: seq<TriggerSuggestion>)
    requires ProperStudy(study) && forall p :: p in Analyzed(study) ==> Fits(p, config)
    ensures Answers(Values(suggestions), Analyzed(study), zoneOffset, config)
  {
    hide Answers, ProperStudy, Analyzed, Fits, DefaultSuggestion;
    var patterns := Analyze(study);
    if patterns == [] {
      var suggestion := new TriggerSuggestion(DefaultSuggestion(zoneOffset));
      DefaultAnswers(zoneOffset, config);
      suggestions := [suggestion];
      assert Values(suggestions) == [DefaultSuggestion(zoneOffset)];
    } else {
      forall p | p in patterns ensures Usable(p, config) {
        AnalyzedAreProper(study, p);
        ProperIsUsable(p, config);
      }
      suggestions := SuggestFor(patterns, zoneOffset, config);
    }
  }

  lemma DefaultAnswers(zoneOffset: int, config: Config)
    ensures Answers([DefaultSuggestion(zoneOffset)], [], zoneOffset, config)
  {
    hide *;
    DefaultIsRight(zoneOffset);
    DefaultZone(zoneOffset);
    AnswersNothing([DefaultSuggestion(zoneOffset)], zoneOffset, config);
  }

  lemma DefaultZone(zoneOffset: int)
    ensures DefaultSuggestion(zoneOffset).zoneOffset == zoneOffset
  {
  }

  lemma AnswersNothing(suggestions: seq<Suggestion>, zoneOffset: int, config: Config)
    requires suggestions == [DefaultSuggestion(zoneOffset)] && RightSchedule(ToTriggers(suggestions))
    requires DefaultSuggestion(zoneOffset).zoneOffset == zoneOffset
    ensures Answers(suggestions, [], zoneOffset, config)
  {
    hide RightSchedule, DefaultSuggestion, ToTriggers;
  }

  lemma ProperIsUsable(p: TimePattern, config: Config)
    requires Proper(p) && Fits(p, config)
    ensures Usable(p, config)
  {
    ProperOnWeekDays(p);
    assert forall i :: 0 <= i < |p.days| ==> p.days[i] in p.days;
  }

  method SuggestFor(patterns: seq<TimePattern>, zoneOffset: int, config: Config)
    returns (suggestions: seq<TriggerSuggestion>)
    requires patterns != [] && forall p :: p in patterns ==> Usable(p, config)
    ensures Answers(Values(suggestions), patterns, zoneOffset, config)
  {
    hide Answers, Answering, Usable, Suggested, OptimizedAt, Kept;
    var all := PatternsToTriggers(patterns, zoneOffset, config);
    ghost var kept := Kept(all, config);
    ghost var values := Values(kept);
    SortedArePerPattern(Values(all), patterns, zoneOffset, config);
    KeptSuggestions(all, patterns, zoneOffset, config);
    suggestions := OptimizeTriggers(all, config);
    OptimizedAnswers(values, patterns, zoneOffset, config);
  }

  /** The kept suggestions before they are optimised. */
  ghost predicate Answering(values: seq<Suggestion>, patterns: seq<TimePattern>, zoneOffset: int, config: Config) {
    && |values| == (if |patterns| <= config.maxTriggers then |patterns| else config.maxTriggers)
    && (forall i :: 0 <= i < |values| ==> Plain(values[i].name) && values[i].zoneOffset == zoneOffset)
    && (forall i :: 0 <= i < |values| ==> FollowsOne(values[i], patterns, config))
    && (forall p :: p in patterns ==> Suggests(values, p, config) || CutOff(values, patterns, p, config))
    && (|patterns| <= config.maxTriggers ==> exists aligned :: Aligned(values, aligned, patterns, config))
  }

  /** Before the cut there is one suggestion for each pattern, sorted by load. */
  ghost predicate OnePerPattern(values: seq<Suggestion>, patterns: seq<TimePattern>, zoneOffset: int, config: Config) {
    && |values| == |patterns|
    && (forall k :: 0 <= k < |values| ==> Plain(values[k].name) && values[k].zoneOffset == zoneOffset)
    && (forall k :: 0 <= k < |values| ==> FollowsOne(values[k], patterns, config))
    && (forall p :: p in patterns ==> exists k :: 0 <= k < |values| && Follows(values[k], p, config))
    && exists aligned :: Aligned(values, aligned, patterns, config)
  }

  lemma SortedArePerPattern(values: seq<Suggestion>, patterns: seq<TimePattern>, zoneOffset: int, config: Config)
    requires (forall p :: p in patterns ==> Usable(p, config)) && |values| == |patterns|
    requires var sorted := SortedDescending(patterns, AverageLoad);
             forall i :: 0 <= i < |sorted| ==>
                 sorted[i] in patterns && values[i] == Suggested(sorted[i], i, zoneOffset, config)
    ensures OnePerPattern(values, patterns, zoneOffset, config)
  {
    hide Usable, Follows, Plain, Suggested, SortedDescending, OnePerPattern;
    var sorted := SortedDescending(patterns, AverageLoad);
    SortKeepsMembers(patterns, AverageLoad);
    forall k | 0 <= k < |values|
      ensures Plain(values[k].name) && values[k].zoneOffset == zoneOffset && Follows(values[k], sorted[k], config)
    {
      SuggestedFollows(sorted[k], k, zoneOffset, config);
    }
    SortedByLoad(patterns);
    AlignedIsPerPattern(values, patterns, sorted, zoneOffset, config);
  }

  lemma SortedByLoad(patterns: seq<TimePattern>)
    ensures var sorted := SortedDescending(patterns, AverageLoad);
            forall i, j :: 0 <= i < j < |sorted| ==> sorted[i].avgReplicas >= sorted[j].avgReplicas
  {
    var sorted := SortedDescending(patterns, AverageLoad);
    hide SortedDescending;
    assert forall i :: 0 <= i < |sorted| ==> AverageLoad(sorted[i]) == sorted[i].avgReplicas;
  }

  lemma AlignedIsPerPattern(values: seq<Suggestion>, patterns: seq<TimePattern>, sorted: seq<TimePattern>,
                            zoneOffset: int, config: Config)
    requires |values| == |sorted| == |patterns| && forall p :: p in sorted <==> p in patterns
    requires multiset(sorted) == multiset(patterns)
    requires forall i, j :: 0 <= i < j < |sorted| ==> sorted[i].avgReplicas >= sorted[j].avgReplicas
    requires forall k :: 0 <= k < |values| ==>
               Plain(values[k].name) && values[k].zoneOffset == zoneOffset && Follows(values[k], sorted[k], config)
    ensures OnePerPattern(values, patterns, zoneOffset, config)
  {
    hide Follows, Plain;
    forall p | p in patterns ensures exists k :: 0 <= k < |values| && Follows(values[k], p, config) {
      var k :| 0 <= k < |sorted| && sorted[k] == p;
      assert Follows(values[k], p, config);
    }
    forall k | 0 <= k < |values| ensures FollowsOne(values[k], patterns, config) {
      assert sorted[k] in sorted;
    }
    assert Aligned(values, sorted, patterns, config);
  }

  lemma KeptOrCutOff(all: seq<TriggerSuggestion>, k: nat, patterns: seq<TimePattern>, p: TimePattern, config: Config)
    requires Distinct(all) && |all| == |patterns| && k < |all| && Follows(all[k].Value(), p, config)
    ensures Suggests(Values(Kept(all, config)), p, config) || CutOff(Values(Kept(all, config)), patterns, p, config)
  {
    hide Follows, Kept, Values;
    var kept := Kept(all, config);
    var values := Values(kept);
    KeptMembers(all, config);
    AllKept(all, config);
    if all[k] in kept {
      var i :| 0 <= i < |kept| && kept[i] == all[k];
      assert values[i] in values;
    } else {
      FollowsConfidence(all[k].Value(), p, config);
      assert forall i :: 0 <= i < |kept| ==> kept[i] in kept;
    }
  }

  lemma KeptSuggestions(all: seq<TriggerSuggestion>, patterns: seq<TimePattern>, zoneOffset: int, config: Config)
    requires OnePerPattern(Values(all), patterns, zoneOffset, config) && Distinct(all)
    ensures Answering(Values(Kept(all, config)), patterns, zoneOffset, config)
  {
    hide Follows, FollowsOne, Suggests, CutOff, Plain, Kept, Values, Aligned;
    var kept := Kept(all, config);
    var values := Values(kept);
    KeptMembers(all, config);
    AllKept(all, config);
    forall i | 0 <= i < |values|
      ensures Plain(values[i].name) && values[i].zoneOffset == zoneOffset
      ensures FollowsOne(values[i], patterns, config)
    {
      assert kept[i] in kept;
      var k :| 0 <= k < |all| && all[k] == kept[i];
      assert values[i] == Values(all)[k];
    }
    forall p | p in patterns ensures Suggests(values, p, config) || CutOff(values, patterns, p, config) {
      var k :| 0 <= k < |all| && Follows(Values(all)[k], p, config);
      KeptOrCutOff(all, k, patterns, p, config);
    }
  }

  lemma AllKept(suggestions: seq<TriggerSuggestion>, config: Config)
    ensures |suggestions| <= config.maxTriggers ==> Kept(suggestions, config) == suggestions
  {
  }

  lemma FollowsConfidence(s: Suggestion, p: TimePattern, config: Config)
    requires Follows(s, p, config)
    ensures s.confidence == p.confidence
  {
  }

  lemma OptimizedAnswers(values: seq<Suggestion>, patterns: seq<TimePattern>, zoneOffset: int, config: Config)
    requires patterns != [] && Answering(values, patterns, zoneOffset, config)
    ensures Answers(Optimized(values, config), patterns, zoneOffset, config)
  {
    hide Follows, Plain, UniqueName, RightSchedule, Suggests, CutOff, Aligned;
    var once := Optimized(values, config);
    assert PlainNames(Names(values));
    GeneratedScheduleIsRight(values, patterns, config);
    forall i | 0 <= i < |once| ensures FollowsOne(once[i], patterns, config) {
      var p :| p in patterns && Follows(values[i], p, config);
      OptimizedFollows(values, i, p, config);
    }
    forall p | p in patterns ensures Suggests(once, p, config) || CutOff(once, patterns, p, config) {
      OptimizedSuggests(values, patterns, p, config);
    }
    if |patterns| <= config.maxTriggers {
      var aligned :| Aligned(values, aligned, patterns, config);
      OptimizedAligned(values, aligned, patterns, config);
    }
  }

  lemma OptimizedAligned(values: seq<Suggestion>, aligned: seq<TimePattern>, patterns: seq<TimePattern>, config: Config)
    requires forall i :: 0 <= i < |values| ==> Plain(values[i].name)
    requires Aligned(values, aligned, patterns, config)
    ensures Aligned(Optimized(values, config), aligned, patterns, config)
  {
    hide Follows, Plain, UniqueName;
    forall i | 0 <= i < |aligned| ensures Follows(Optimized(values, config)[i], aligned[i], config) {
      OptimizedFollows(values, i, aligned[i], config);
    }
  }

  /** Load decides priority: with room for every pattern and a positive step, the patterns can be matched with the
      suggestions one to one, each followed by its own, so that a larger average load has a strictly higher priority. */
  lemma LoadDecidesPriority(suggestions: seq<Suggestion>, patterns: seq<TimePattern>, zoneOffset: int, config: Config)
    returns (aligned: seq<TimePattern>)
    requires Answers(suggestions, patterns, zoneOffset, config) && patterns != []
    requires |patterns| <= config.maxTriggers && config.priorityStep > 0
    ensures |aligned| == |suggestions| && multiset(aligned) == multiset(patterns)
    ensures forall i :: 0 <= i < |aligned| ==> Follows(suggestions[i], aligned[i], config)
    ensures forall i, j :: 0 <= i < |aligned| && 0 <= j < |aligned| ==>
              && (aligned[i].avgReplicas > aligned[j].avgReplicas ==> suggestions[i].priority > suggestions[j].priority)
              && (suggestions[i].priority >= suggestions[j].priority ==>
                    aligned[i].avgReplicas >= aligned[j].avgReplicas)
  {
    hide RightSchedule, FollowsOne, Suggests, CutOff, Follows;
    aligned :| Aligned(suggestions, aligned, patterns, config);
    forall i, j | 0 <= i < |aligned| && 0 <= j < |aligned|
      ensures i < j <==> suggestions[i].priority > suggestions[j].priority
    {
      StepsApart(i, j, config.priorityStep);
    }
  }

  lemma StepsApart(i: nat, j: nat, step: int)
    requires step > 0
    ensures i < j <==> i * step < j * step
  {
    assert (j - i) * step == j * step - i * step;
  }

  lemma OptimizedSuggests(values: seq<Suggestion>, patterns: seq<TimePattern>, p: TimePattern, config: Config)
    requires forall i :: 0 <= i < |values| ==> Plain(values[i].name)
    requires Suggests(values, p, config) || CutOff(values, patterns, p, config)
    ensures Suggests(Optimized(values, config), p, config) || CutOff(Optimized(values, config), patterns, p, config)
  {
    hide Follows, Plain, UniqueName;
    var once := Optimized(values, config);
    if Suggests(values, p, config) {
      var s :| s in values && Follows(s, p, config);
      var i :| 0 <= i < |values| && values[i] == s;
      OptimizedFollows(values, i, p, config);
      assert once[i] in once;
    }
  }

  // ---------- Coverage of the observed slots ----------

  /** Local minute `local` falls in the row's slot on the row's day. */
  predicate InSlot(row: Row, local: int) {
    && row.day < 7 && Weekday(local) == SundayFirst(row.day)
    && 15 * row.slot <= MinuteOfDay(local) < 15 * row.slot + 15
  }

  lemma ProperBounds(p: TimePattern)
    requires Proper(p)
    ensures WindowStart(p) < WindowEnd(p) <= 1439
  {
  }

  lemma HeldMinuteIsWithin(s: Suggestion, p: TimePattern, d: nat, now: int)
    requires Carrying(s, p) && d < 7
    requires Holds(p, d, MinuteOfDay(Local(ToTrigger(s), now))) && Weekday(Local(ToTrigger(s), now)) == SundayFirst(d)
    ensures IsWithin(ToTrigger(s), now)
  {
    hide IsWithin, DaysText, ClockText, SortedDays, Weekday, MinuteOfDay;
    CarryingSays(s, p);
    WithinAsIntended(ToTrigger(s), SortedDays(p.days), WindowStart(p), WindowEnd(p), now);
  }

  /** Slot coverage: a suggestion that carries a proper pattern holding a cluster says
      start < end <= 23:59, and the scheduler is within its window at every minute of every slot of the
      cluster, on the slot's day, except possibly at 23:59. */
  lemma SlotsAreCovered(c: Cluster, p: TimePattern, s: Suggestion, row: Row, now: int)
    requires Proper(p) && HoldsCluster(p, c) && Carrying(s, p) && row in c.rows
    ensures ParseClock(s.startTime).Ok? && ParseClock(s.endTime).Ok?
    ensures var start, end := ParseClock(s.startTime).value, ParseClock(s.endTime).value;
            MinutesSinceMidnight(start) < MinutesSinceMidnight(end) <= 1439
    ensures InSlot(row, now + s.zoneOffset) && MinuteOfDay(now + s.zoneOffset) != 1439 ==> IsWithin(ToTrigger(s), now)
  {
    hide IsWithin, Carrying, Proper, Weekday, MinuteOfDay, Holds, ParseClock, DaysText, ClockText, SortedDays;
    ProperBounds(p);
    CarryingSays(s, p);
    ToTriggerKeeps(s);
    if InSlot(row, now + s.zoneOffset) && MinuteOfDay(now + s.zoneOffset) != 1439 {
      assert Holds(p, row.day, MinuteOfDay(now + s.zoneOffset));
      HeldMinuteIsWithin(s, p, row.day, now);
    }
  }

  /** Suggestion `m` is open and active, it follows `q`, and an existing HPA has the bounds calculated for `q`. */
  predicate Governed(suggestions: seq<Suggestion>, m: nat, q: TimePattern, config: Config, now: int, s: State) {
    && m < |suggestions| && Follows(suggestions[m], q, config)
    && s.active == suggestions[m].name && IsWithin(ToTrigger(suggestions[m]), now)
    && var (least, most) := CalculateReplicas(q, config.bufferPercent);
       s.hpa.Some? ==>
         s.hpa.value.minReplicas.Some? && s.hpa.value.minReplicas.value == least && s.hpa.value.maxReplicas == most
  }

  predicate HasRoom(patterns: seq<TimePattern>, config: Config) {
    |patterns| <= config.maxTriggers
  }

  /** Suggestion `k` follows `p` and is open; suggestion `m`, which follows the reported pattern `q`, governs the HPA
      with at least its priority; with room for all and a positive step `q` has at least the load of `p`. */
  predicate Outranked(suggestions: seq<Suggestion>, patterns: seq<TimePattern>, p: TimePattern, k: nat,
                      m: nat, q: TimePattern, config: Config, now: int, s: State) {
    && k < |suggestions| && Follows(suggestions[k], p, config) && IsWithin(ToTrigger(suggestions[k]), now)
    && q in patterns && Governed(suggestions, m, q, config, now, s)
    && suggestions[m].priority >= suggestions[k].priority
    && (HasRoom(patterns, config) && config.priorityStep > 0 ==> q.avgReplicas >= p.avgReplicas)
  }

  ghost predicate PatternServed(suggestions: seq<Suggestion>, patterns: seq<TimePattern>, p: TimePattern,
                                config: Config, now: int, s: State) {
    exists k, m, q :: Outranked(suggestions, patterns, p, k, m, q, config, now, s)
  }

  /** A reported pattern that holds the cluster is served. */
  ghost predicate ClusterServed(suggestions: seq<Suggestion>, study: Study, c: Cluster, config: Config, now: int,
                                s: State) {
    exists p :: && p in Analyzed(study) && HoldsCluster(p, c)
                && PatternServed(suggestions, Analyzed(study), p, config, now, s)
  }

  /** The cluster's reported pattern lost its suggestion to at least as confident ones. */
  ghost predicate ClusterCutOff(suggestions: seq<Suggestion>, study: Study, c: Cluster, config: Config) {
    exists p :: p in Analyzed(study) && HoldsCluster(p, c) && CutOff(suggestions, Analyzed(study), p, config)
  }

  /** From clusters to the running scheduler. In every run over what is suggested, at every minute of every
      slot of a cluster that survives refinement, except possibly 23:59, the suggestion for its pattern is open and one
      of at least its priority is active and sets the HPA to the bounds calculated for its own pattern, unless the
      cluster's pattern was cut off. With room for all and a positive step, the active suggestion's pattern has at
      least the load of the cluster's. */
  lemma SlotsAreServed(study: Study, zoneOffset: int, config: Config, suggestions: seq<Suggestion>, c: Cluster,
                       row: Row, start: int, hpa: Option<Hpa>, minutes: seq<Minute>, i: nat)
    requires ProperStudy(study) && Answers(suggestions, Analyzed(study), zoneOffset, config)
    requires c in study.clusters && Survives(study, c) && row in c.rows
    requires (hpa.Some? ==> ValidHpa(hpa.value)) && Run(Registered(ToTriggers(suggestions)), start, hpa, minutes)
    requires i < |minutes|
    requires InSlot(row, start + i + zoneOffset) && MinuteOfDay(start + i + zoneOffset) != 1439
    ensures || ClusterServed(suggestions, study, c, config, start + i, Last(minutes[i]))
            || ClusterCutOff(suggestions, study, c, config)
    ensures |Analyzed(study)| <= config.maxTriggers ==>
              ClusterServed(suggestions, study, c, config, start + i, Last(minutes[i]))
  {
    hide *;
    NothingIsCutOff(suggestions, study, c, config);
    var p := SurvivorIsReported(study, c);
    AnswersEach(suggestions, Analyzed(study), zoneOffset, config, p);
    if CutOff(suggestions, Analyzed(study), p, config) {
      CutOffCluster(suggestions, study, c, config, p);
    } else {
      forall k: nat | k < |suggestions| && Follows(suggestions[k], p, config)
        ensures IsWithin(ToTrigger(suggestions[k]), start + i)
      {
        FollowsCarries(suggestions, k, p, zoneOffset, config, Analyzed(study));
        SlotsAreCovered(c, p, suggestions[k], row, start + i);
      }
      OpenPatternIsServed(suggestions, Analyzed(study), p, zoneOffset, config, start, hpa, minutes, i);
      ServedCluster(suggestions, study, c, config, p, start + i, Last(minutes[i]));
    }
  }

  lemma CutOffCluster(suggestions: seq<Suggestion>, study: Study, c: Cluster, config: Config, p: TimePattern)
    requires p in Analyzed(study) && HoldsCluster(p, c) && CutOff(suggestions, Analyzed(study), p, config)
    ensures ClusterCutOff(suggestions, study, c, config)
  {
  }

  lemma ServedCluster(suggestions: seq<Suggestion>, study: Study, c: Cluster, config: Config, p: TimePattern,
                      now: int, s: State)
    requires p in Analyzed(study) && HoldsCluster(p, c)
    requires PatternServed(suggestions, Analyzed(study), p, config, now, s)
    ensures ClusterServed(suggestions, study, c, config, now, s)
  {
  }

  lemma AnswersEach(suggestions: seq<Suggestion>, patterns: seq<TimePattern>, zoneOffset: int, config: Config,
                    p: TimePattern)
    requires Answers(suggestions, patterns, zoneOffset, config) && p in patterns
    ensures RightSchedule(ToTriggers(suggestions)) && patterns != []
    ensures Suggests(suggestions, p, config) || CutOff(suggestions, patterns, p, config)
  {
    hide RightSchedule, Suggests, CutOff, FollowsOne, Aligned;
  }

  lemma FollowsCarries(suggestions: seq<Suggestion>, k: nat, p: TimePattern, zoneOffset: int, config: Config,
                       patterns: seq<TimePattern>)
    requires Answers(suggestions, patterns, zoneOffset, config) && patterns != []
    requires k < |suggestions| && Follows(suggestions[k], p, config)
    ensures Carrying(suggestions[k], p) && suggestions[k].zoneOffset == zoneOffset
  {
    hide RightSchedule, Suggests, CutOff, FollowsOne, Aligned, Carrying;
  }

  /** A pattern whose suggestions are all open is served. */
  lemma OpenPatternIsServed(suggestions: seq<Suggestion>, patterns: seq<TimePattern>, p: TimePattern, zoneOffset: int,
                            config: Config, start: int, hpa: Option<Hpa>, minutes: seq<Minute>, i: nat)
    requires Answers(suggestions, patterns, zoneOffset, config) && p in patterns && Suggests(suggestions, p, config)
    requires (hpa.Some? ==> ValidHpa(hpa.value)) && Run(Registered(ToTriggers(suggestions)), start, hpa, minutes)
    requires i < |minutes|
    requires forall k: nat :: k < |suggestions| && Follows(suggestions[k], p, config) ==>
               IsWithin(ToTrigger(suggestions[k]), start + i)
    ensures PatternServed(suggestions, patterns, p, config, start + i, Last(minutes[i]))
  {
    hide *;
    AnswersEach(suggestions, patterns, zoneOffset, config, p);
    if HasRoom(patterns, config) && config.priorityStep > 0 {
      RoomIs(patterns, config);
      var aligned := LoadDecidesPriority(suggestions, patterns, zoneOffset, config);
      var k := PositionOf(aligned, patterns, p);
      var m := OpenSuggestionIsServed(suggestions, k, start, hpa, minutes, i);
      PositionHas(aligned, patterns, m);
      BoundsFollow(suggestions, m, aligned[m], config, start + i, suggestions[k].priority, Last(minutes[i]));
      OutrankedServes(suggestions, patterns, p, k, m, aligned[m], config, start + i, Last(minutes[i]));
    } else {
      var k := SuggestionFor(suggestions, p, config);
      var m := OpenSuggestionIsServed(suggestions, k, start, hpa, minutes, i);
      var q := PatternOf(suggestions, patterns, zoneOffset, config, m);
      BoundsFollow(suggestions, m, q, config, start + i, suggestions[k].priority, Last(minutes[i]));
      OutrankedServes(suggestions, patterns, p, k, m, q, config, start + i, Last(minutes[i]));
    }
  }

  lemma RoomIs(patterns: seq<TimePattern>, config: Config)
    ensures HasRoom(patterns, config) <==> |patterns| <= config.maxTriggers
  {
  }

  lemma PositionOf(aligned: seq<TimePattern>, patterns: seq<TimePattern>, p: TimePattern) returns (k: nat)
    requires multiset(aligned) == multiset(patterns) && p in patterns
    ensures k < |aligned| && aligned[k] == p
  {
    assert p in multiset(aligned);
    k :| 0 <= k < |aligned| && aligned[k] == p;
  }

  lemma PositionHas(aligned: seq<TimePattern>, patterns: seq<TimePattern>, m: nat)
    requires multiset(aligned) == multiset(patterns) && m < |aligned|
    ensures aligned[m] in patterns
  {
    assert aligned[m] in multiset(aligned);
  }

  lemma SuggestionFor(suggestions: seq<Suggestion>, p: TimePattern, config: Config) returns (k: nat)
    requires Suggests(suggestions, p, config)
    ensures k < |suggestions| && Follows(suggestions[k], p, config)
  {
    hide Follows;
    var s :| s in suggestions && Follows(s, p, config);
    k :| 0 <= k < |suggestions| && suggestions[k] == s;
  }

  lemma PatternOf(suggestions: seq<Suggestion>, patterns: seq<TimePattern>, zoneOffset: int, config: Config, m: nat)
    returns (q: TimePattern)
    requires Answers(suggestions, patterns, zoneOffset, config) && patterns != [] && m < |suggestions|
    ensures q in patterns && Follows(suggestions[m], q, config)
  {
    hide RightSchedule, Suggests, CutOff, Follows, Aligned;
    assert FollowsOne(suggestions[m], patterns, config);
    q :| q in patterns && Follows(suggestions[m], q, config);
  }

  lemma BoundsFollow(suggestions: seq<Suggestion>, m: nat, q: TimePattern, config: Config, now: int, priority: int,
                     s: State)
    requires m < |suggestions| && Follows(suggestions[m], q, config)
    requires IsServing(ToTrigger(suggestions[m]), now, priority, s)
    ensures Governed(suggestions, m, q, config, now, s) && suggestions[m].priority >= priority
  {
    hide IsWithin, Carrying, CalculateReplicas, ToTrigger;
    SuggestionBounds(suggestions[m]);
    ToTriggerKeeps(suggestions[m]);
  }

  lemma OutrankedServes(suggestions: seq<Suggestion>, patterns: seq<TimePattern>, p: TimePattern, k: nat, m: nat,
                        q: TimePattern, config: Config, now: int, s: State)
    requires k < |suggestions| && Follows(suggestions[k], p, config) && IsWithin(ToTrigger(suggestions[k]), now)
    requires q in patterns && Governed(suggestions, m, q, config, now, s) && m < |suggestions|
    requires suggestions[m].priority >= suggestions[k].priority
    requires HasRoom(patterns, config) && config.priorityStep > 0 ==> q.avgReplicas >= p.avgReplicas
    ensures PatternServed(suggestions, patterns, p, config, now, s)
  {
    hide Follows, IsWithin, Governed, HasRoom;
    assert Outranked(suggestions, patterns, p, k, m, q, config, now, s);
  }

  /** The suggestion that is active while suggestion `k` is open. */
  lemma OpenSuggestionIsServed(suggestions: seq<Suggestion>, k: nat, start: int, hpa: Option<Hpa>,
                               minutes: seq<Minute>, i: nat)
    returns (m: nat)
    requires RightSchedule(ToTriggers(suggestions)) && k < |suggestions| && (hpa.Some? ==> ValidHpa(hpa.value))
    requires Run(Registered(ToTriggers(suggestions)), start, hpa, minutes) && i < |minutes|
    requires IsWithin(ToTrigger(suggestions[k]), start + i)
    ensures m < |suggestions|
    ensures IsServing(ToTrigger(suggestions[m]), start + i, suggestions[k].priority, Last(minutes[i]))
  {
    hide IsWithin, Registered, Run, RightSchedule, Serves, ToTrigger, IsServing;
    var triggers := ToTriggers(suggestions);
    assert triggers[k] in triggers;
    ToTriggerKeeps(suggestions[k]);
    OpenTriggerIsServed(triggers, triggers[k], start, hpa, minutes, i);
    m := ServingTrigger(triggers, start + i, suggestions[k].priority, Last(minutes[i]));
  }

  /** With room for every pattern none is cut off. */
  lemma NothingIsCutOff(suggestions: seq<Suggestion>, study: Study, c: Cluster, config: Config)
    ensures |Analyzed(study)| <= config.maxTriggers ==> !ClusterCutOff(suggestions, study, c, config)
  {
    hide Analyzed, HoldsCluster;
  }
}
