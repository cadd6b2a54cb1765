/** The second generator: model patterns to trigger configurations. */
module Postprocessor {
  import opened Options
  import opened Sequences
  import opened Triggers
  import opened HpaConfig
  import opened Scheduler
  import opened GeneratedTriggers

  datatype TriggerType = Peak | OffPeak | Weekend | Weekdays | Seasonal | Night | Morning | Afternoon | Evening

  datatype PatternResult = PatternResult(
    kind: TriggerType, hours: seq<nat>, days: seq<nat>,
    avgReplicas: real, minReplicas: real, maxReplicas: real, percentile75: real, confidence: real)

  datatype TriggerConfig = TriggerConfig(
    name: string, kind: TriggerType, priority: int, zoneOffset: int, startTime: string, endTime: string,
    recurring: string, minReplicas: int32, maxReplicas: int32, confidence: real)

  function PriorityOrder(kind: TriggerType): int {
    match kind
    case Peak => 100
    case Weekdays => 90
    case Morning => 80
    case Evening => 75
    case Afternoon => 70
    case Weekend => 60
    case Night => 50
    case OffPeak => 40
    case Seasonal => 30
  }

  function TypeName(kind: TriggerType): string {
    match kind
    case Peak => "peak"
    case OffPeak => "off-peak"
    case Weekend => "weekend"
    case Weekdays => "weekday"
    case Seasonal => "seasonal"
    case Night => "night"
    case Morning => "morning"
    case Afternoon => "afternoon"
    case Evening => "evening"
  }

  /** At least one replica, two more at most times, and burst room for a peak with high variance. */
  function ReplicaBounds(p: PatternResult, buffer: real): (r: (int, int))
    ensures 1 <= r.0 && r.0 + 2 <= r.1
  {
    var minReplicas := Max(1, Truncated(p.minReplicas));
    var maxReplicas := Max(minReplicas + 2, Scaled(p.maxReplicas, 1.0 + buffer));
    var maxReplicas :=
      if p.kind == Peak && p.percentile75 > p.avgReplicas * 1.2 then Max(maxReplicas, Scaled(p.maxReplicas, 1.5))
      else maxReplicas;
    (minReplicas, maxReplicas)
  }

  /** How many replicas are asked for: at least one, and otherwise the observed minimum rounded down; at most what
      leaves room for two more and for the observed maximum with its buffer, and for a volatile peak half as much
      again, rounded down, and no more than that. */
  lemma BoundsHoldLoad(p: PatternResult, buffer: real)
    requires 0.0 <= buffer && 0.0 <= p.maxReplicas
    ensures var (least, most) := ReplicaBounds(p, buffer);
            && (p.minReplicas < 1.0 ==> least == 1)
            && (p.minReplicas >= 1.0 ==> least as real <= p.minReplicas < least as real + 1.0)
            && least + 2 <= most && p.maxReplicas < most as real + 1.0
            && p.maxReplicas * (1.0 + buffer) < most as real + 1.0
            && (Volatile(p) ==> p.maxReplicas * 1.5 < most as real + 1.0)
            && (|| most == least + 2
                || most as real <= p.maxReplicas * (1.0 + buffer)
                || (Volatile(p) && most as real <= p.maxReplicas * 1.5))
  {
    hide Scaled, Truncated;
    TruncatedIs(p.minReplicas);
    ScaledIs(p.maxReplicas, 1.0 + buffer);
    ScaledIs(p.maxReplicas, 1.5);
    assert p.maxReplicas * (1.0 + buffer) >= p.maxReplicas by {
      assert p.maxReplicas * buffer >= 0.0;
    }
  }

  /** A peak whose upper quartile is well above its average. */
  predicate Volatile(p: PatternResult) {
    p.kind == Peak && p.percentile75 > p.avgReplicas * 1.2
  }

  /** The documented order: peaks before weekdays, these before morning, evening and afternoon, then weekends, then
      nights and off-peak hours, and seasonal patterns last. */
  lemma PeakRanksFirst()
    ensures PriorityOrder(Peak) > PriorityOrder(Weekdays) > PriorityOrder(Morning) > PriorityOrder(Evening)
    ensures PriorityOrder(Evening) > PriorityOrder(Afternoon) > PriorityOrder(Weekend) > PriorityOrder(Night)
    ensures PriorityOrder(Night) > PriorityOrder(OffPeak) > PriorityOrder(Seasonal) > 0
  {
  }

  /** A pattern of weekdays and at least one hour of the day. */
  predicate WellFormed(p: PatternResult) {
    |p.hours| > 0 && (forall i :: 0 <= i < |p.hours| ==> p.hours[i] < 24) && WeekDays(p.days)
  }

  /** Its replica bounds fit 32-bit fields. */
  predicate Usable(p: PatternResult, buffer: real) {
    WellFormed(p) && ReplicaBounds(p, buffer).1 < 0x8000_0000
  }

  predicate AllWellFormed(patterns: seq<PatternResult>) {
    forall p :: p in patterns ==> WellFormed(p)
  }

  predicate AllUsable(patterns: seq<PatternResult>, buffer: real) {
    AllWellFormed(patterns) && forall p :: p in patterns ==> Usable(p, buffer)
  }

  function DayContext(p: PatternResult): string {
    if p.days == [5, 6] then "weekend" else if p.days == [0, 1, 2, 3, 4] then "weekday" else "custom"
  }

  function TimeContext(p: PatternResult): string
    requires WellFormed(p)
  {
    if p.hours[0] >= 22 || p.hours[0] < 6 then "night"
    else if p.hours[0] < 9 then "morning"
    else if p.hours[0] < 12 then "late-morning"
    else if p.hours[0] < 17 then "afternoon"
    else "evening"
  }

  function GenerateName(p: PatternResult): string
    requires WellFormed(p)
  {
    DayContext(p) + ("-" + (TimeContext(p) + ("-" + TypeName(p.kind))))
  }

  function StartHour(p: PatternResult): (h: nat)
    requires WellFormed(p)
    ensures h in p.hours && h < 24 && forall x :: x in p.hours ==> h <= x
  {
    MinOf(p.hours)
  }

  function LastHour(p: PatternResult): (h: nat)
    requires WellFormed(p)
    ensures h in p.hours && h < 24 && forall x :: x in p.hours ==> x <= h
  {
    MaxOf(p.hours)
  }

  function EndHour(p: PatternResult): (h: nat)
    requires WellFormed(p)
    ensures h == (if LastHour(p) < 23 then LastHour(p) + 1 else 23)
  {
    var last := LastHour(p);
    if last + 1 > 23 then 23 else last + 1
  }

  function PatternToTrigger(p: PatternResult, buffer: real, zoneOffset: int): TriggerConfig
    requires Usable(p, buffer)
  {
    var (minReplicas, maxReplicas) := ReplicaBounds(p, buffer);
    TriggerConfig(
      GenerateName(p), p.kind, PriorityOrder(p.kind), zoneOffset,
      ClockText(StartHour(p), 0), ClockText(EndHour(p), 0), DaysText(SortedDays(p.days)),
      minReplicas, maxReplicas, p.confidence)
  }

  function WindowKey(t: TriggerConfig): (string, string, string) {
    (t.recurring, t.startTime, t.endTime)
  }

  // ---------- Deduplication ----------

  predicate Repeats(triggers: seq<TriggerConfig>, i: nat)
    requires i < |triggers|
  {
    exists k :: 0 <= k < i && WindowKey(triggers[k]) == WindowKey(triggers[i])
  }

  /** The triggers whose window no earlier one has. */
  function Deduplicated(triggers: seq<TriggerConfig>): seq<TriggerConfig> {
    if triggers == [] then []
    else
      var last := |triggers| - 1;
      Deduplicated(triggers[..last]) + if Repeats(triggers, last) then [] else [triggers[last]]
  }

  method Deduplicate(triggers: seq<TriggerConfig>) returns (result: seq<TriggerConfig>)
    ensures result == Deduplicated(triggers)
  {
    if |triggers| <= 1 {
      assert |triggers| == 1 ==> Deduplicated(triggers[..0]) == [] && !Repeats(triggers, 0);
      return triggers;
    }
    result := [];
    var seenWindows: set<(string, string, string)> := {};
    for i := 0 to |triggers|
      invariant result == Deduplicated(triggers[..i])
      invariant seenWindows == set k | 0 <= k < i :: WindowKey(triggers[k])
    {
      assert triggers[..i + 1][..i] == triggers[..i];
      assert Repeats(triggers[..i + 1], i) <==> WindowKey(triggers[i]) in seenWindows by {
        assert forall k :: 0 <= k <= i ==> triggers[..i + 1][k] == triggers[k];
      }
      if WindowKey(triggers[i]) !in seenWindows {
        result := result + [triggers[i]];
        seenWindows := seenWindows + {WindowKey(triggers[i])};
      }
    }
    assert triggers[..|triggers|] == triggers;
  }

  predicate ByFallingPriority(triggers: seq<TriggerConfig>) {
    forall i, j :: 0 <= i < j < |triggers| ==> triggers[i].priority >= triggers[j].priority
  }

  /** The kept triggers have pairwise distinct windows and keep the order of priorities, and every
      trigger, kept or dropped, shares its window with a kept one of at least its priority. */
  predicate SoundlyKept(triggers: seq<TriggerConfig>, kept: seq<TriggerConfig>) {
    && ByFallingPriority(kept)
    && (forall i, j :: 0 <= i < j < |kept| ==> WindowKey(kept[i]) != WindowKey(kept[j]))
    && (forall t :: t in kept ==> t in triggers)
    && (forall k :: 0 <= k < |triggers| ==> Represented(triggers[k], kept))
  }

  lemma {:induction false} DeduplicationIsSound(triggers: seq<TriggerConfig>)
    requires ByFallingPriority(triggers)
    ensures SoundlyKept(triggers, Deduplicated(triggers))
  {
    hide WindowKey, Represented;
    if triggers != [] {
      hide SoundlyKept, Repeats;
      var before := triggers[..|triggers| - 1];
      DeduplicationIsSound(before);
      if Repeats(triggers, |triggers| - 1) {
        RepeatedIsDropped(triggers, Deduplicated(before));
        assert Deduplicated(triggers) == Deduplicated(before);
      } else {
        NewWindowIsKept(triggers, Deduplicated(before));
      }
    }
  }

  lemma RepeatedIsDropped(triggers: seq<TriggerConfig>, kept: seq<TriggerConfig>)
    requires triggers != [] && ByFallingPriority(triggers) && Repeats(triggers, |triggers| - 1)
    requires SoundlyKept(triggers[..|triggers| - 1], kept)
    ensures SoundlyKept(triggers, kept)
  {
    hide WindowKey;
    var last := |triggers| - 1;
    var before := triggers[..last];
    var k :| 0 <= k < last && WindowKey(triggers[k]) == WindowKey(triggers[last]);
    assert Represented(before[k], kept);
    forall k | 0 <= k < |triggers| ensures Represented(triggers[k], kept) {
      assert k < last ==> Represented(before[k], kept);
    }
  }

  lemma NewWindowIsKept(triggers: seq<TriggerConfig>, kept: seq<TriggerConfig>)
    requires triggers != [] && ByFallingPriority(triggers) && !Repeats(triggers, |triggers| - 1)
    requires SoundlyKept(triggers[..|triggers| - 1], kept)
    ensures SoundlyKept(triggers, kept + [triggers[|triggers| - 1]])
  {
    hide WindowKey, Represented;
    var last := |triggers| - 1;
    var before, kept' := triggers[..last], kept + [triggers[last]];
    NewWindowIsNew(triggers, kept);
    forall k | 0 <= k < |triggers| ensures Represented(triggers[k], kept') {
      if k < last {
        assert Represented(before[k], kept);
        StillRepresented(triggers[k], kept, triggers[last]);
      } else {
        RepresentsItself(triggers[last], kept);
      }
    }
  }

  lemma NewWindowIsNew(triggers: seq<TriggerConfig>, kept: seq<TriggerConfig>)
    requires triggers != [] && ByFallingPriority(triggers) && !Repeats(triggers, |triggers| - 1)
    requires forall t :: t in kept ==> t in triggers[..|triggers| - 1]
    ensures forall i :: 0 <= i < |kept| ==>
              kept[i].priority >= triggers[|triggers| - 1].priority &&
                  WindowKey(kept[i]) != WindowKey(triggers[|triggers| - 1])
  {
    hide WindowKey;
    forall i | 0 <= i < |kept|
      ensures kept[i].priority >= triggers[|triggers| - 1].priority
      ensures WindowKey(kept[i]) != WindowKey(triggers[|triggers| - 1])
    {
      assert kept[i] in kept && kept[i] in triggers[..|triggers| - 1];
    }
  }

  lemma StillRepresented(t: TriggerConfig, kept: seq<TriggerConfig>, more: TriggerConfig)
    requires Represented(t, kept)
    ensures Represented(t, kept + [more])
  {
    var other :| other in kept && WindowKey(other) == WindowKey(t) && other.priority >= t.priority;
    assert other in kept + [more];
  }

  lemma RepresentsItself(t: TriggerConfig, kept: seq<TriggerConfig>)
    ensures Represented(t, kept + [t])
  {
    assert t in kept + [t];
  }

  predicate Represented(t: TriggerConfig, kept: seq<TriggerConfig>) {
    exists other :: other in kept && WindowKey(other) == WindowKey(t) && other.priority >= t.priority
  }

  // ---------- The whole pass ----------

  function ByPriorityOrder(triggers: seq<TriggerConfig>): (sorted: seq<TriggerConfig>)
    ensures ByFallingPriority(sorted) && multiset(sorted) == multiset(triggers)
  {
    SortedDescending(triggers, PriorityKey)
  }

  function PriorityKey(t: TriggerConfig): real {
    t.priority as real
  }

  /** What is emitted for detected patterns. */
  function Emitted(patterns: seq<PatternResult>, buffer: real, zoneOffset: int): seq<TriggerConfig>
    requires AllUsable(patterns, buffer)
  {
    Deduplicated(ByPriorityOrder(Converted(patterns, buffer, zoneOffset)))
  }

  method ConvertPatterns(patterns: seq<PatternResult>, buffer: real, zoneOffset: int)
    returns (triggers: seq<TriggerConfig>)
    requires AllUsable(patterns, buffer)
    ensures triggers == Converted(patterns, buffer, zoneOffset)
  {
    hide PatternToTrigger, Usable;
    triggers := [];
    for i := 0 to |patterns|
      invariant |triggers| == i
      invariant forall k :: 0 <= k < i ==>
          patterns[k] in patterns && triggers[k] == PatternToTrigger(patterns[k], buffer, zoneOffset)
    {
      triggers := triggers + [PatternToTrigger(patterns[i], buffer, zoneOffset)];
    }
  }

  /** The triggers for the detected patterns; without patterns, defaults from the global statistics. */
  method Process(patterns: seq<PatternResult>, buffer: real, zoneOffset: int, globalMax: real, percentile25: real)
    returns (triggers: seq<TriggerConfig>)
    requires AllUsable(patterns, buffer)
    requires DefaultsFit(buffer, globalMax, percentile25)
    ensures triggers == if patterns == [] then DefaultTriggers(buffer, zoneOffset, globalMax, percentile25)
                        else Emitted(patterns, buffer, zoneOffset)
  {
    if patterns == [] {
      return DefaultTriggers(buffer, zoneOffset, globalMax, percentile25);
    }
    hide PatternToTrigger, Usable, Deduplicated, DefaultTriggers;
    triggers := ConvertPatterns(patterns, buffer, zoneOffset);
    var sorted := ByPriorityOrder(triggers);
    triggers := Deduplicate(sorted);
  }

  function Converted(patterns: seq<PatternResult>, buffer: real, zoneOffset: int): (triggers: seq<TriggerConfig>)
    requires AllUsable(patterns, buffer)
    ensures |triggers| == |patterns|
    ensures forall k :: 0 <= k < |patterns| ==> triggers[k] == PatternToTrigger(patterns[k], buffer, zoneOffset)
  {
    Mapped(patterns, (p: PatternResult) requires Usable(p, buffer) => PatternToTrigger(p, buffer, zoneOffset))
  }

  /** Every emitted trigger comes from a pattern, and every pattern's window is emitted with at least its priority. */
  lemma EmittedIsSound(patterns: seq<PatternResult>, buffer: real, zoneOffset: int)
    requires AllUsable(patterns, buffer)
    ensures var kept := Emitted(patterns, buffer, zoneOffset);
            && SoundlyKept(ByPriorityOrder(Converted(patterns, buffer, zoneOffset)), kept)
            && (forall t :: t in kept ==> exists p :: p in patterns && t == PatternToTrigger(p, buffer, zoneOffset))
            && (forall p :: p in patterns ==> Represented(PatternToTrigger(p, buffer, zoneOffset), kept))
  {
    hide PatternToTrigger, Usable, Deduplicated, WindowKey, Represented, ByPriorityOrder;
    var found := Converted(patterns, buffer, zoneOffset);
    var sorted := ByPriorityOrder(found);
    DeduplicationIsSound(sorted);
    var kept := Emitted(patterns, buffer, zoneOffset);
    forall t | t in kept ensures exists p :: p in patterns && t == PatternToTrigger(p, buffer, zoneOffset) {
      assert t in multiset(sorted) && t in multiset(found);
      var k :| 0 <= k < |found| && found[k] == t;
      assert patterns[k] in patterns;
    }
    forall p | p in patterns ensures Represented(PatternToTrigger(p, buffer, zoneOffset), kept) {
      var k :| 0 <= k < |patterns| && patterns[k] == p;
      assert found[k] in multiset(found) && found[k] in multiset(sorted);
      var j :| 0 <= j < |sorted| && sorted[j] == found[k];
    }
  }

  // ---------- Defaults ----------

  function DefaultBounds(buffer: real, globalMax: real, percentile25: real): (r: (int, int))
    ensures 1 <= r.0 < r.1
  {
    var minReplicas := Max(1, Scaled(percentile25, 1.0 - buffer));
    (minReplicas, Max(minReplicas + 1, Scaled(globalMax, 1.0 + buffer)))
  }

  /** The defaults go by the lower quartile less the buffer and the greatest load plus the buffer, rounded down. */
  lemma DefaultBoundsHoldLoad(buffer: real, globalMax: real, percentile25: real)
    requires globalMax * (1.0 + buffer) >= 0.0
    ensures var (least, most) := DefaultBounds(buffer, globalMax, percentile25);
            var low, high := percentile25 * (1.0 - buffer), globalMax * (1.0 + buffer);
            && (low < 1.0 ==> least == 1)
            && (low >= 1.0 ==> least as real <= low < least as real + 1.0)
            && high < most as real + 1.0 && (most == least + 1 || most as real <= high)
  {
    hide Scaled;
    ScaledIs(percentile25, 1.0 - buffer);
    ScaledIs(globalMax, 1.0 + buffer);
  }

  predicate DefaultsFit(buffer: real, globalMax: real, percentile25: real) {
    DefaultBounds(buffer, globalMax, percentile25).1 < 0x8000_0000
  }

  function DefaultTriggers(buffer: real, zoneOffset: int, globalMax: real, percentile25: real): seq<TriggerConfig>
    requires DefaultsFit(buffer, globalMax, percentile25)
  {
    if globalMax == 0.0 then
      [TriggerConfig("default-baseline", Weekdays, 100, zoneOffset, "09:00:00", "17:00:00", "M,TU,W,TH,F", 2, 10, 0.5)]
    else
      var (minReplicas, maxReplicas) := DefaultBounds(buffer, globalMax, percentile25);
      [TriggerConfig("default-business-hours", Peak, 100, zoneOffset, "09:00:00", "17:00:00", "M,TU,W,TH,F",
                     minReplicas, maxReplicas, 0.5),
       TriggerConfig("default-weekend", Weekend, 60, zoneOffset, "00:00:00", "23:59:00", "SAT,SUN",
                     Max(1, minReplicas / 2), Max(2, maxReplicas / 2), 0.5)]
  }

  // ---------- What the scheduler makes of it ----------

  function ToTrigger(t: TriggerConfig): Trigger {
    GeneratedTrigger(t.name, t.priority, t.zoneOffset, t.startTime, t.endTime, t.recurring, t.minReplicas,
                     t.maxReplicas, 2)
  }

  /** The start configuration sets exactly the bounds of the trigger configuration, and the end configuration one
      replica and the larger of two and its least. */
  lemma ConfigBounds(t: TriggerConfig)
    ensures var trigger := ToTrigger(t);
            && trigger.startHPAConfig == Some(HPAConfig(Some(t.minReplicas), Some(t.maxReplicas)))
            && trigger.endHPAConfig == Some(HPAConfig(Some(1), Some(if t.minReplicas > 2 then t.minReplicas else 2)))
  {
  }

  /** Every HPA accepts the start and the end configuration of the trigger. */
  ghost predicate ConfigsAccepted(t: TriggerConfig) {
    && Complete(ToTrigger(t).startHPAConfig.value) && Complete(ToTrigger(t).endHPAConfig.value)
    && forall hpa :: Accepts(hpa, ToTrigger(t).startHPAConfig.value) && Accepts(hpa, ToTrigger(t).endHPAConfig.value)
  }

  lemma PatternConfigsAccepted(p: PatternResult, buffer: real, zoneOffset: int)
    requires Usable(p, buffer)
    ensures ConfigsAccepted(PatternToTrigger(p, buffer, zoneOffset))
  {
    var t := PatternToTrigger(p, buffer, zoneOffset);
    GeneratedConfigsAccepted(t.name, t.priority, t.zoneOffset, t.startTime, t.endTime, t.recurring, t.minReplicas,
                             t.maxReplicas, 2);
  }

  lemma DefaultConfigsAccepted(buffer: real, zoneOffset: int, globalMax: real, percentile25: real, t: TriggerConfig)
    requires DefaultsFit(buffer, globalMax, percentile25)
    requires t in DefaultTriggers(buffer, zoneOffset, globalMax, percentile25)
    ensures ConfigsAccepted(t)
  {
    GeneratedConfigsAccepted(t.name, t.priority, t.zoneOffset, t.startTime, t.endTime, t.recurring, t.minReplicas,
                             t.maxReplicas, 2);
  }

  // ---------- Which triggers are emitted ----------

  function FirstOf(triggers: seq<TriggerConfig>, window: (string, string, string)): Option<TriggerConfig> {
    if triggers == [] then None
    else if WindowKey(triggers[0]) == window then Some(triggers[0])
    else FirstOf(triggers[1..], window)
  }

  /** The first of those of highest priority with a window. */
  function BestOf(triggers: seq<TriggerConfig>, window: (string, string, string)): Option<TriggerConfig> {
    if triggers == [] then None
    else
      var best := BestOf(triggers[1..], window);
      if WindowKey(triggers[0]) != window || (best.Some? && best.value.priority > triggers[0].priority) then best
      else Some(triggers[0])
  }

  lemma {:induction false} FirstOfMore(triggers: seq<TriggerConfig>, more: TriggerConfig,
                                       window: (string, string, string))
    ensures FirstOf(triggers + [more], window)
         == if FirstOf(triggers, window).Some? then FirstOf(triggers, window)
            else if WindowKey(more) == window then Some(more) else None
  {
    hide WindowKey;
    if triggers != [] {
      assert (triggers + [more])[1..] == triggers[1..] + [more];
      FirstOfMore(triggers[1..], more, window);
    } else {
      assert [] + [more] == [more];
    }
  }

  lemma {:induction false} FirstOfIs(triggers: seq<TriggerConfig>, window: (string, string, string))
    ensures FirstOf(triggers, window).Some? <==> exists k :: 0 <= k < |triggers| && WindowKey(triggers[k]) == window
    ensures FirstOf(triggers, window).Some? ==>
        FirstOf(triggers, window).value in triggers && WindowKey(FirstOf(triggers, window).value) == window
  {
    hide WindowKey;
    if triggers != [] {
      FirstOfIs(triggers[1..], window);
      assert triggers == [triggers[0]] + triggers[1..];
    }
  }

  /** Exactly the first trigger of each window is kept. */
  lemma {:induction false} DeduplicatedMembers(triggers: seq<TriggerConfig>, t: TriggerConfig)
    ensures t in Deduplicated(triggers) <==> FirstOf(triggers, WindowKey(t)) == Some(t)
  {
    hide WindowKey;
    if triggers != [] {
      var last := |triggers| - 1;
      var before := triggers[..last];
      assert triggers == before + [triggers[last]];
      DeduplicatedMembers(before, t);
      FirstOfMore(before, triggers[last], WindowKey(t));
      FirstOfIs(before, WindowKey(triggers[last]));
      assert Repeats(triggers, last) <==> FirstOf(before, WindowKey(triggers[last])).Some? by {
        assert forall k :: 0 <= k < last ==> before[k] == triggers[k];
      }
    }
  }

  lemma {:induction false} FirstOfPlaced(x: TriggerConfig, sorted: seq<TriggerConfig>, window: (string, string, string))
    requires Descending(sorted, PriorityKey)
    ensures FirstOf(Placed(x, sorted, PriorityKey), window)
         == var first := FirstOf(sorted, window);
            if WindowKey(x) != window || (first.Some? && first.value.priority > x.priority) then first else Some(x)
  {
    hide WindowKey;
    if sorted == [] || PriorityKey(sorted[0]) <= PriorityKey(x) {
      assert ([x] + sorted)[1..] == sorted;
      FirstOfIs(sorted, window);
    } else {
      var placed := Placed(x, sorted[1..], PriorityKey);
      assert Placed(x, sorted, PriorityKey) == [sorted[0]] + placed;
      assert ([sorted[0]] + placed)[1..] == placed;
      FirstOfPlaced(x, sorted[1..], window);
    }
  }

  lemma {:induction false} FirstOfSorted(triggers: seq<TriggerConfig>, window: (string, string, string))
    ensures FirstOf(SortedDescending(triggers, PriorityKey), window) == BestOf(triggers, window)
  {
    hide WindowKey;
    if triggers != [] {
      FirstOfSorted(triggers[1..], window);
      FirstOfPlaced(triggers[0], SortedDescending(triggers[1..], PriorityKey), window);
    }
  }

  /** No other trigger with its window has a higher priority, and no earlier one the same. */
  predicate Leads(triggers: seq<TriggerConfig>, i: nat)
    requires i < |triggers|
  {
    forall k :: 0 <= k < |triggers| && WindowKey(triggers[k]) == WindowKey(triggers[i]) ==>
      triggers[k].priority < triggers[i].priority || (triggers[k].priority == triggers[i].priority && i <= k)
  }

  lemma {:induction false} BestLeads(triggers: seq<TriggerConfig>, window: (string, string, string)) returns (i: nat)
    requires exists k :: 0 <= k < |triggers| && WindowKey(triggers[k]) == window
    ensures i < |triggers| && Leads(triggers, i) && WindowKey(triggers[i]) == window
    ensures BestOf(triggers, window) == Some(triggers[i])
  {
    hide WindowKey;
    var rest := triggers[1..];
    if k :| 1 <= k < |triggers| && WindowKey(triggers[k]) == window {
      assert rest[k - 1] == triggers[k];
      var j := BestLeads(rest, window);
      assert forall k :: 1 <= k < |triggers| ==> rest[k - 1] == triggers[k];
      i := if WindowKey(triggers[0]) != window || rest[j].priority > triggers[0].priority then j + 1 else 0;
    } else {
      NoBest(rest, window);
      i := 0;
    }
  }

  lemma {:induction false} NoBest(triggers: seq<TriggerConfig>, window: (string, string, string))
    requires forall k :: 0 <= k < |triggers| ==> WindowKey(triggers[k]) != window
    ensures BestOf(triggers, window) == None
  {
    if triggers != [] {
      NoBest(triggers[1..], window);
    }
  }

  /** Sorting by priority and deduplicating emits exactly the triggers that lead their windows. */
  lemma LeadersAreKept(triggers: seq<TriggerConfig>, t: TriggerConfig)
    ensures t in Deduplicated(ByPriorityOrder(triggers))
        <==> exists i :: 0 <= i < |triggers| && Leads(triggers, i) && triggers[i] == t
  {
    hide WindowKey, Deduplicated, Leads;
    var window := WindowKey(t);
    DeduplicatedMembers(ByPriorityOrder(triggers), t);
    FirstOfSorted(triggers, window);
    if exists k :: 0 <= k < |triggers| && WindowKey(triggers[k]) == window {
      var best := BestLeads(triggers, window);
      if i :| 0 <= i < |triggers| && Leads(triggers, i) && triggers[i] == t {
        OneLeader(triggers, i, best);
      }
    } else {
      NoBest(triggers, window);
    }
  }

  lemma OneLeader(triggers: seq<TriggerConfig>, i: nat, j: nat)
    requires i < |triggers| && j < |triggers| && Leads(triggers, i) && Leads(triggers, j)
    requires WindowKey(triggers[i]) == WindowKey(triggers[j])
    ensures i == j
  {
  }
}
