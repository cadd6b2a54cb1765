/** The text that both trigger generators emit, and what the scheduler makes of it. */
module GeneratedTriggers {
  import opened Options
  import opened Sequences
  import opened Text
  import opened Calendar
  import opened Triggers
  import opened CronTab
  import opened HpaConfig
  import opened Scheduler
  import opened SchedulerRuns
  import opened SchedulerLaws

  /** Weekday codes with Monday first, as the generators number days. */
  const MONDAY_FIRST: seq<string> := ["M", "TU", "W", "TH", "F", "SAT", "SUN"]

  predicate WeekDays(days: seq<nat>) {
    forall i :: 0 <= i < |days| ==> days[i] < 7
  }

  function SortedDays(days: seq<nat>): (sorted: seq<nat>)
    requires WeekDays(days)
    ensures WeekDays(sorted) && forall d :: d in sorted <==> d in days
  {
    SortKeepsMembers(days, FallingDay);
    var sorted := SortedDescending(days, FallingDay);
    assert forall i :: 0 <= i < |sorted| ==> sorted[i] in sorted;
    sorted
  }

  lemma SortedDaysAscend(days: seq<nat>)
    requires WeekDays(days)
    ensures multiset(SortedDays(days)) == multiset(days)
    ensures var sorted := SortedDays(days); forall i, j :: 0 <= i < j < |sorted| ==> sorted[i] <= sorted[j]
  {
    var sorted := SortedDescending(days, FallingDay);
    forall i, j | 0 <= i < j < |sorted| ensures sorted[i] <= sorted[j] {
      assert FallingDay(sorted[i]) >= FallingDay(sorted[j]);
    }
  }

  function FallingDay(d: nat): real {
    -(d as real)
  }

  lemma AscendingDaysStay(days: seq<nat>)
    requires WeekDays(days) && forall i, j :: 0 <= i < j < |days| ==> days[i] <= days[j]
    ensures SortedDays(days) == days
  {
    SortedStays(days, FallingDay);
  }

  function DayCodes(days: seq<nat>): (codes: seq<string>)
    requires WeekDays(days)
    ensures |codes| == |days| && forall i :: 0 <= i < |days| ==> codes[i] == MONDAY_FIRST[days[i]]
  {
    Mapped(days, (d: nat) requires d < 7 => MONDAY_FIRST[d])
  }

  function DaysText(days: seq<nat>): string
    requires WeekDays(days)
  {
    Join(DayCodes(days), ',')
  }

  function ClockText(hour: nat, minute: nat): string
    requires hour < 24 && minute < 60
  {
    TwoDigits(hour) + ":" + TwoDigits(minute) + ":00"
  }

  lemma ClockTextParses(hour: nat, minute: nat)
    requires hour < 24 && minute < 60
    ensures ParseClock(ClockText(hour, minute)) == Ok(Clock(hour, minute, 0))
  {
    var clock, text := Clock(hour, minute, 0), ClockText(hour, minute);
    ZeroText();
    assert text == TwoDigits(hour) + (":" + (TwoDigits(minute) + (":" + (TwoDigits(0) + ""))));
    assert IsNumberText(TwoDigits(hour), hour, false) && IsFraction("");
    ParseClockIff(text, clock);
  }

  lemma ZeroText()
    ensures TwoDigits(0) == "00"
  {
  }

  /** The scheduler's Sunday-first weekday of the generators' day `d`. */
  function SundayFirst(d: nat): nat
    requires d < 7
  {
    if d == 6 then 0 else d + 1
  }

  lemma CodesMatch(d: nat)
    requires d < 7
    ensures MONDAY_FIRST[d] == WEEKDAY_SHORT[SundayFirst(d)] && Trim(MONDAY_FIRST[d]) == MONDAY_FIRST[d]
    ensures ',' !in MONDAY_FIRST[d]
    ensures MONDAY_FIRST[d] != ""
  {
    if d == 0 {} else if d == 1 {} else if d == 2 {} else if d == 3 {} else if d == 4 {} else if d == 5 {} else {}
    TrimNothing(MONDAY_FIRST[d]);
  }

  lemma ShortCodesDiffer(d: nat, e: nat)
    requires d < 7 && e < 7 && WEEKDAY_SHORT[d] == WEEKDAY_SHORT[e]
    ensures d == e
  {
    WeekdayTablesAgree(d);
    WeekdayTablesAgree(e);
    DecimalRoundTrip(d);
    DecimalRoundTrip(e);
  }

  lemma DaysTextSplits(days: seq<nat>)
    requires WeekDays(days) && days != []
    ensures Split(DaysText(days), ',') == DayCodes(days) && DaysText(days) != ""
  {
    var codes := DayCodes(days);
    forall i | 0 <= i < |days| ensures ',' !in codes[i] && codes[i] != "" {
      CodesMatch(days[i]);
    }
    SplitJoin(codes, ',');
    assert Split("", ',') == [""];
  }

  lemma CodeListed(days: seq<nat>, i: nat)
    requires WeekDays(days) && i < |days|
    ensures Trim(DayCodes(days)[i]) == WEEKDAY_SHORT[SundayFirst(days[i])]
    ensures Lists(DaysText(days), SundayFirst(days[i]))
  {
    CodesMatch(days[i]);
    DaysTextSplits(days);
    assert DayCodes(days)[i] in DayCodes(days);
  }

  /** The day list the scheduler reads back is the one the generator wrote. */
  lemma DaysTextLists(days: seq<nat>, d: nat)
    requires WeekDays(days) && days != [] && d < 7
    ensures Lists(DaysText(days), SundayFirst(d)) <==> d in days
    ensures DaysText(days) != "" && ListsSome(DaysText(days))
  {
    hide DaysText, Split, Trim, DayCodes;
    var codes := DayCodes(days);
    DaysTextSplits(days);
    CodeListed(days, 0);
    if d in days {
      var i :| 0 <= i < |days| && days[i] == d;
      CodeListed(days, i);
    } else if Lists(DaysText(days), SundayFirst(d)) {
      var code :| code in codes && Trim(code) == WEEKDAY_SHORT[SundayFirst(d)];
      var i :| 0 <= i < |codes| && codes[i] == code;
      CodeListed(days, i);
      ShortCodesDiffer(SundayFirst(d), SundayFirst(days[i]));
      assert false;
    }
  }

  lemma WorkingDaysText()
    ensures DaysText(SortedDays([0, 1, 2, 3, 4])) == "M,TU,W,TH,F"
  {
    hide SortedDays, Join;
    var days: seq<nat> := [0, 1, 2, 3, 4];
    AscendingDaysStay(days);
    assert DayCodes(days) == ["M", "TU", "W", "TH", "F"];
    WorkingDaysJoin();
  }

  lemma WorkingDaysJoin()
    ensures Join(["M", "TU", "W", "TH", "F"], ',') == "M,TU,W,TH,F"
  {
    hide Join;
    var first, second, third := ["TU", "W", "TH", "F"], ["W", "TH", "F"], ["TH", "F"];
    OneJoined("F");
    JoinStep("TH", ["F"]);
    JoinStep("W", third);
    JoinStep("TU", second);
    JoinStep("M", first);
    assert third == ["TH"] + ["F"] && second == ["W"] + third && first == ["TU"] + second;
    assert ["M", "TU", "W", "TH", "F"] == ["M"] + first;
  }

  lemma OneJoined(code: string)
    ensures Join([code], ',') == code
  {
  }

  lemma JoinStep(code: string, rest: seq<string>)
    requires rest != []
    ensures Join([code] + rest, ',') == code + "," + Join(rest, ',')
  {
    assert ([code] + rest)[1..] == rest;
  }

  /** Minutes between two bounds on listed days, as the generators mean a trigger. */
  predicate Intended(days: seq<nat>, start: nat, end: nat, local: int) {
    start <= MinuteOfDay(local) < end && exists d: nat :: d < 7 && d in days && SundayFirst(d) == Weekday(local)
  }

  /** A generated trigger in the custom resource's terms; its end configuration allows at least `floor` replicas. */
  function GeneratedTrigger(name: string, priority: int, zoneOffset: int, startTime: string, endTime: string,
                            recurring: string, min: int32, max: int32, floor: int32): Trigger {
    Trigger(name, Some(priority), zoneOffset, Some(Interval(recurring, NoDate, NoDate)), startTime, endTime,
            Some(HPAConfig(Some(min), Some(max))),
            Some(HPAConfig(Some(1), Some(if floor >= min then floor else min))), false)
  }

  /** The text of the trigger says: on `days`, from minute `start` to minute `end`. */
  predicate Says(trigger: Trigger, days: seq<nat>, start: nat, end: nat) {
    && WeekDays(days)
    && trigger.interval.Some? && trigger.interval.value.recurring == DaysText(days) &&
        trigger.interval.value.startDate == NoDate
    && ParseClock(trigger.startTime).Ok? && MinutesSinceMidnight(ParseClock(trigger.startTime).value) == start
    && ParseClock(trigger.endTime).Ok? && MinutesSinceMidnight(ParseClock(trigger.endTime).value) == end
  }

  /** The scheduler is within the trigger's window exactly when the generator meant it to be. */
  lemma WithinAsIntended(trigger: Trigger, days: seq<nat>, start: nat, end: nat, now: int)
    requires Says(trigger, days, start, end) && start <= end
    ensures IsWithin(trigger, now) <==> Intended(days, start, end, Local(trigger, now))
  {
    hide Lists, ListsSome, ParseClock, Weekday, MinuteOfDay;
    if days == [] {
      assert DaysText(days) == "";
    } else {
      hide DaysText;
      var weekday := Weekday(Local(trigger, now));
      var d := if weekday == 0 then 6 else weekday - 1;
      assert SundayFirst(d) == weekday;
      DaysTextLists(days, d);
      assert RecursAt(trigger, now) <==> d in days;
      if e: nat :| e < 7 && e in days && SundayFirst(e) == weekday {
        assert e == d;
      }
    }
  }

  /** A generated trigger is scheduled when it has days; it is well scheduled when its window is proper, and
      never when that is empty. */
  lemma SaysIsWellScheduled(trigger: Trigger, days: seq<nat>, start: nat, end: nat)
    requires Says(trigger, days, start, end)
    ensures Schedulable(trigger) <==> days != []
    ensures days == [] || start < end ==> WellScheduled(trigger)
    ensures days != [] && start == end ==> !WellScheduled(trigger)
  {
    hide ParseClock;
    if days == [] {
      assert DaysText(days) == "";
    } else {
      hide DaysText;
      DaysTextLists(days, 0);
    }
  }

  lemma GeneratedConfigsAccepted(name: string, priority: int, zoneOffset: int, startTime: string, endTime: string,
                                 recurring: string, min: int32, max: int32, floor: int32)
    requires 1 <= min <= max && floor >= 1
    ensures var trigger := GeneratedTrigger(name, priority, zoneOffset, startTime, endTime, recurring, min, max, floor);
            && Complete(trigger.startHPAConfig.value) && Complete(trigger.endHPAConfig.value)
            && forall hpa :: Accepts(hpa, trigger.startHPAConfig.value) && Accepts(hpa, trigger.endHPAConfig.value)
  {
  }

  // ---------- Lists of triggers that make a right schedule ----------

  /** A context keeps every one of the triggers, under a non-empty name of its own, and they meet the
      hypotheses of the run theorem, with complete start configurations. */
  ghost predicate RightSchedule(triggers: seq<Trigger>) {
    var schedules := Registered(triggers);
    && |schedules| == |triggers|
    && (forall trigger :: trigger in triggers ==> trigger.name in schedules && schedules[trigger.name] == trigger)
    && AllDependable(schedules) && CompleteStarts(schedules) && "" !in schedules
  }

  predicate PrioritiesDiffer(triggers: seq<Trigger>) {
    forall i, j :: 0 <= i < j < |triggers| ==> Priority(triggers[i]) != Priority(triggers[j])
  }

  predicate Named(triggers: seq<Trigger>) {
    forall i :: 0 <= i < |triggers| ==> triggers[i].name != "" && !triggers[i].suspend
  }

  predicate AllComplete(triggers: seq<Trigger>) {
    forall i :: 0 <= i < |triggers| ==> triggers[i].startHPAConfig.Some? && Complete(triggers[i].startHPAConfig.value)
  }

  /** The schedules are the triggers, each under its name. */
  predicate KeepsEach(schedules: Schedules, triggers: seq<Trigger>) {
    && |schedules| == |triggers|
    && (forall i :: 0 <= i < |triggers| ==> triggers[i].name in schedules && schedules[triggers[i].name] == triggers[i])
    && (forall name :: name in schedules ==>
        exists i :: 0 <= i < |triggers| && schedules[name] == triggers[i] && triggers[i].name == name)
  }

  lemma KeepsEachIff(triggers: seq<Trigger>)
    requires Named(triggers)
    ensures |Registered(triggers)| == |triggers| <==> DistinctNames(triggers)
    ensures DistinctNames(triggers) ==> KeepsEach(Registered(triggers), triggers)
  {
    hide Registered;
    var schedules := Registered(triggers);
    forall trigger | trigger in triggers ensures !trigger.suspend {
      var i :| 0 <= i < |triggers| && triggers[i] == trigger;
    }
    NoneSuspended(triggers);
    RegisteredKeepsAllIff(triggers);
    if DistinctNames(triggers) {
      forall i | 0 <= i < |triggers|
        ensures triggers[i].name in schedules && schedules[triggers[i].name] == triggers[i]
      {
        assert triggers[i] in triggers;
      }
      forall name | name in schedules
        ensures exists i :: 0 <= i < |triggers| && schedules[name] == triggers[i] && triggers[i].name == name
      {
        RegisteredComesFrom(triggers, name);
      }
    }
  }

  /** Of named triggers with complete start configurations, exactly the lists of dependable triggers
      with distinct names make a right schedule. */
  lemma RightScheduleIff(triggers: seq<Trigger>)
    requires Named(triggers) && AllComplete(triggers)
    ensures RightSchedule(triggers)
       <==> DistinctNames(triggers) && forall i :: 0 <= i < |triggers| ==> Dependable(triggers[i])
  {
    hide Dependable, Complete, Registered;
    KeepsEachIff(triggers);
    if RightSchedule(triggers) {
      forall i | 0 <= i < |triggers| ensures Dependable(triggers[i]) {
        assert triggers[i].name in Registered(triggers) && Registered(triggers)[triggers[i].name] == triggers[i];
      }
    }
    if DistinctNames(triggers) && forall i :: 0 <= i < |triggers| ==> Dependable(triggers[i]) {
      KeptAreRight(Registered(triggers), triggers);
    }
  }

  lemma KeptAreRight(schedules: Schedules, triggers: seq<Trigger>)
    requires KeepsEach(schedules, triggers) && Named(triggers) && AllComplete(triggers)
    requires forall i :: 0 <= i < |triggers| ==> Dependable(triggers[i])
    ensures AllDependable(schedules) && CompleteStarts(schedules) && "" !in schedules
    ensures forall trigger :: trigger in triggers ==> trigger.name in schedules && schedules[trigger.name] == trigger
  {
    hide Dependable, Complete;
  }

  lemma RightPrioritiesIff(triggers: seq<Trigger>)
    requires RightSchedule(triggers) && Named(triggers)
    ensures DistinctPriorities(Registered(triggers), Registered(triggers).Keys) <==> PrioritiesDiffer(triggers)
  {
    hide Registered, AllDependable, CompleteStarts;
    KeepsEachIff(triggers);
    if !PrioritiesDiffer(triggers) {
      var i, j :| 0 <= i < j < |triggers| && Priority(triggers[i]) == Priority(triggers[j]);
      assert triggers[i].name != triggers[j].name;
    }
  }

  /** An open trigger of at least the given priority is active, and an existing HPA has exactly its bounds. */
  predicate Serves(schedules: Schedules, now: int, priority: int, s: State) {
    && s.active in WithinAt(schedules, now)
    && Priority(schedules[s.active]) >= priority
    && schedules[s.active].startHPAConfig.Some?
    && var config := schedules[s.active].startHPAConfig.value;
       s.hpa.Some? ==>
         Some(s.hpa.value.maxReplicas) == config.maxReplicas && s.hpa.value.minReplicas == config.minReplicas
  }

  /** In every run over a right schedule, an open trigger has one of at least its priority serve the HPA. */
  lemma OpenTriggerIsServed(triggers: seq<Trigger>, trigger: Trigger, start: int, hpa: Option<Hpa>,
                            minutes: seq<Minute>, i: nat)
    requires RightSchedule(triggers) && trigger in triggers && (hpa.Some? ==> ValidHpa(hpa.value))
    requires Run(Registered(triggers), start, hpa, minutes) && i < |minutes| && IsWithin(trigger, start + i)
    ensures Serves(Registered(triggers), start + i, Priority(trigger), Last(minutes[i]))
  {
    var schedules := Registered(triggers);
    hide IsWithin, Registered, Run, AllDependable;
    RunRefinesRule(schedules, start, hpa, minutes);
    assert Governs(schedules, start + i, Last(minutes[i]));
    assert trigger.name in WithinAt(schedules, start + i);
  }

  /** The trigger behind the active name: open, of at least the priority, with its start bounds on an existing HPA. */
  predicate IsServing(trigger: Trigger, now: int, priority: int, s: State) {
    && trigger.name == s.active && IsWithin(trigger, now) && Priority(trigger) >= priority
    && trigger.startHPAConfig.Some?
    && (s.hpa.Some? ==>
          && Some(s.hpa.value.maxReplicas) == trigger.startHPAConfig.value.maxReplicas
          && s.hpa.value.minReplicas == trigger.startHPAConfig.value.minReplicas)
  }

  lemma ServingTrigger(triggers: seq<Trigger>, now: int, priority: int, s: State) returns (m: nat)
    requires Serves(Registered(triggers), now, priority, s)
    ensures m < |triggers| && IsServing(triggers[m], now, priority, s)
  {
    hide IsWithin, Registered;
    RegisteredComesFrom(triggers, s.active);
    m :| 0 <= m < |triggers| && triggers[m] == Registered(triggers)[s.active];
  }

  /** What a generated trigger tells the scheduler to do: inside its window exactly the given bounds, and after it
      at least one replica and at most the larger of the floor and the least inside the window. */
  lemma GeneratedBounds(name: string, priority: int, zoneOffset: int, startTime: string, endTime: string,
                        recurring: string, min: int32, max: int32, floor: int32)
    ensures var trigger := GeneratedTrigger(name, priority, zoneOffset, startTime, endTime, recurring, min, max, floor);
            && trigger.startHPAConfig.Some? && trigger.endHPAConfig.Some?
            && forall hpa ::
                 && Overlay(hpa, trigger.startHPAConfig.value) == Hpa(Some(min), max)
                 && Overlay(hpa, trigger.endHPAConfig.value) == Hpa(Some(1), if min > floor then min else floor)
  {
  }
}
