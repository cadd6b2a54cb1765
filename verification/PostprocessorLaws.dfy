/** What the scheduler makes of the second generator's output: when its windows are open, when its
    names are distinct, and how its triggers fare in a run. */
module PostprocessorLaws {
  import opened Options
  import opened Sequences
  import opened Text
  import opened Calendar
  import opened Triggers
  import opened CronTab
  import opened HpaConfig
  import opened Scheduler
  import opened SchedulerRuns
  import opened SchedulerLaws
  import opened GeneratedTriggers
  import opened Postprocessor

  // ---------- Windows ----------

  lemma PatternSays(p: PatternResult, buffer: real, zoneOffset: int)
    requires Usable(p, buffer)
    ensures Says(ToTrigger(PatternToTrigger(p, buffer, zoneOffset)), SortedDays(p.days), 60 * StartHour(p),
                 60 * EndHour(p))
  {
    hide ReplicaBounds, GenerateName, DaysText, SortedDays, ParseClock, ClockText, StartHour, EndHour;
    ClockTextParses(StartHour(p), 0);
    ClockTextParses(EndHour(p), 0);
  }

  predicate HasHourBefore23(p: PatternResult) {
    exists h :: h in p.hours && h < 23
  }

  lemma ProperIffBefore23(p: PatternResult, buffer: real)
    requires Usable(p, buffer)
    ensures StartHour(p) < EndHour(p) <==> HasHourBefore23(p)
    ensures StartHour(p) <= EndHour(p)
  {
    assert StartHour(p) in p.hours && LastHour(p) in p.hours;
  }

  lemma SortedDaysEmpty(days: seq<nat>)
    requires WeekDays(days)
    ensures SortedDays(days) == [] <==> days == []
  {
    assert days != [] ==> days[0] in days;
    FirstOfDays(SortedDays(days));
  }

  lemma FirstOfDays(days: seq<nat>)
    ensures days == [] || days[0] in days
  {
  }

  /** The trigger of a pattern with days is well scheduled exactly when the pattern has an hour before 23;
      hour 23 alone yields the empty window from 23:00 to 23:00. Without days it is never scheduled. */
  lemma WellScheduledIffBefore23(p: PatternResult, buffer: real, zoneOffset: int)
    requires Usable(p, buffer)
    ensures Dependable(ToTrigger(PatternToTrigger(p, buffer, zoneOffset))) <==> p.days == [] || HasHourBefore23(p)
    ensures Schedulable(ToTrigger(PatternToTrigger(p, buffer, zoneOffset))) <==> p.days != []
  {
    PatternSays(p, buffer, zoneOffset);
    PatternConfigsAccepted(p, buffer, zoneOffset);
    ProperIffBefore23(p, buffer);
    SortedDaysEmpty(p.days);
    hide PatternToTrigger, SortedDays, DaysText;
    SaysIsWellScheduled(ToTrigger(PatternToTrigger(p, buffer, zoneOffset)), SortedDays(p.days), 60 * StartHour(p),
                        60 * EndHour(p));
  }

  lemma OpenAsSaid(p: PatternResult, buffer: real, zoneOffset: int, now: int)
    requires Usable(p, buffer)
    ensures IsWithin(ToTrigger(PatternToTrigger(p, buffer, zoneOffset)), now)
       <==> Intended(SortedDays(p.days), 60 * StartHour(p), 60 * EndHour(p), now + zoneOffset)
  {
    hide IsWithin, Intended, Says, StartHour, EndHour, SortedDays, ReplicaBounds, ClockText, DaysText, GenerateName;
    var trigger := ToTrigger(PatternToTrigger(p, buffer, zoneOffset));
    assert Local(trigger, now) == now + zoneOffset;
    hide PatternToTrigger, ToTrigger, WellFormed;
    PatternSays(p, buffer, zoneOffset);
    ProperIffBefore23(p, buffer);
    WithinAsIntended(trigger, SortedDays(p.days), 60 * StartHour(p), 60 * EndHour(p), now);
  }

  /** Local minute `local` lies on a day of the pattern. */
  predicate OnItsDays(p: PatternResult, local: int) {
    exists d: nat :: d < 7 && d in p.days && SundayFirst(d) == Weekday(local)
  }

  /** At local minute `local` the hour is between the least and the greatest of the pattern, but not 23. */
  predicate InItsHull(p: PatternResult, local: int)
    requires WellFormed(p)
  {
    StartHour(p) <= MinuteOfDay(local) / 60 <= LastHour(p) && MinuteOfDay(local) / 60 != 23
  }

  /** The window is open from the least hour of the pattern to the greatest, but never at 23. */
  lemma OpenOverHull(p: PatternResult, buffer: real, zoneOffset: int, now: int)
    requires Usable(p, buffer)
    ensures IsWithin(ToTrigger(PatternToTrigger(p, buffer, zoneOffset)), now)
       <==> OnItsDays(p, now + zoneOffset) && InItsHull(p, now + zoneOffset)
  {
    hide IsWithin, PatternToTrigger, Intended, OnItsDays;
    OpenAsSaid(p, buffer, zoneOffset, now);
    IntendedOverHull(p, buffer, now + zoneOffset);
  }

  lemma IntendedOverHull(p: PatternResult, buffer: real, local: int)
    requires Usable(p, buffer)
    ensures Intended(SortedDays(p.days), 60 * StartHour(p), 60 * EndHour(p), local)
       <==> OnItsDays(p, local) && InItsHull(p, local)
  {
    hide SortedDays, Weekday, SundayFirst;
    var minute := MinuteOfDay(local);
    assert 60 * StartHour(p) <= minute <==> StartHour(p) <= minute / 60;
    assert minute < 60 * EndHour(p) <==> minute / 60 < EndHour(p);
  }

  /** The hours run from the least to the greatest without a gap, and end before 23. */
  predicate FillsItsWindow(p: PatternResult)
    requires WellFormed(p)
  {
    23 !in p.hours && forall h :: StartHour(p) <= h <= LastHour(p) ==> h in p.hours
  }

  /** The window is open exactly at the hours of the pattern, at every minute, if and only if these fill it. */
  lemma OpenAtItsHoursIff(p: PatternResult, buffer: real, zoneOffset: int)
    requires Usable(p, buffer) && p.days != []
    ensures (forall now :: OpenAsObserved(p, buffer, zoneOffset, now)) <==> FillsItsWindow(p)
  {
    hide IsWithin, PatternToTrigger;
    if FillsItsWindow(p) {
      forall now ensures OpenAsObserved(p, buffer, zoneOffset, now) {
        OpenOverHull(p, buffer, zoneOffset, now);
      }
    } else {
      var h: nat := 23;
      if 23 !in p.hours {
        h :| StartHour(p) <= h <= LastHour(p) && h !in p.hours;
      }
      var local := MinuteAtHour(p, h);
      hide OnItsDays, MinuteOfDay;
      OpenOverHull(p, buffer, zoneOffset, local - zoneOffset);
      assert !OpenAsObserved(p, buffer, zoneOffset, local - zoneOffset);
    }
  }

  lemma MinuteAtHour(p: PatternResult, h: nat) returns (local: int)
    requires WellFormed(p) && p.days != [] && h < 24
    ensures OnItsDays(p, local) && MinuteOfDay(local) / 60 == h
  {
    var d := p.days[0];
    local := MomentOn(SundayFirst(d), 60 * h, 0);
    assert d in p.days;
  }

  predicate OpenAsObserved(p: PatternResult, buffer: real, zoneOffset: int, now: int)
    requires Usable(p, buffer)
  {
    IsWithin(ToTrigger(PatternToTrigger(p, buffer, zoneOffset)), now)
    <==> OnItsDays(p, now + zoneOffset) && MinuteOfDay(now + zoneOffset) / 60 in p.hours
  }

  /** Hours before and after midnight, as for a night, are not what the window is open for: with hours 0 and 23,
      it is open from 00:00 to 23:00. */
  lemma AroundMidnightIsAllDay(p: PatternResult)
    requires WellFormed(p) && 0 in p.hours && 23 in p.hours
    ensures !FillsItsWindow(p) && StartHour(p) == 0 && EndHour(p) == 23
  {
  }

  const NIGHT_HOURS: seq<nat> := [22, 23, 0, 1, 2, 3, 4, 5]
  const OFF_PEAK_HOURS: seq<nat> := [17, 18, 19, 20, 21, 22, 23, 0, 1, 2, 3, 4, 5, 6, 7, 8]

  lemma NightIsAllDay(p: PatternResult)
    requires WellFormed(p) && p.hours == NIGHT_HOURS
    ensures !FillsItsWindow(p) && StartHour(p) == 0 && EndHour(p) == 23
  {
    assert p.hours[1] == 23 && p.hours[2] == 0;
    AroundMidnightIsAllDay(p);
  }

  lemma OffPeakIsAllDay(p: PatternResult)
    requires WellFormed(p) && p.hours == OFF_PEAK_HOURS
    ensures !FillsItsWindow(p) && StartHour(p) == 0 && EndHour(p) == 23
  {
    assert p.hours[6] == 23 && p.hours[7] == 0;
    AroundMidnightIsAllDay(p);
  }

  // ---------- Which patterns are emitted ----------

  predicate SameWindow(p: PatternResult, q: PatternResult)
    requires WellFormed(p) && WellFormed(q)
  {
    multiset(p.days) == multiset(q.days) && StartHour(p) == StartHour(q) && EndHour(p) == EndHour(q)
  }

  lemma SameDaysIff(days: seq<nat>, others: seq<nat>)
    requires WeekDays(days) && WeekDays(others)
    ensures multiset(days) == multiset(others) <==> SortedDays(days) == SortedDays(others)
  {
    SortedDaysAscend(days);
    SortedDaysAscend(others);
    if multiset(days) == multiset(others) {
      AscendingIsUnique(SortedDays(days), SortedDays(others));
    }
  }

  lemma {:induction false} AscendingIsUnique(days: seq<nat>, others: seq<nat>)
    requires multiset(days) == multiset(others) && Ascends(days) && Ascends(others)
    ensures days == others
  {
    assert |multiset(days)| == |days| && |multiset(others)| == |others|;
    if days != [] {
      SameFirst(days, others);
      RestOf(days);
      RestOf(others);
      hide Ascends;
      AscendingIsUnique(days[1..], others[1..]);
    }
  }

  predicate Ascends(days: seq<nat>) {
    forall i, j :: 0 <= i < j < |days| ==> days[i] <= days[j]
  }

  lemma SameFirst(days: seq<nat>, others: seq<nat>)
    requires days != [] && others != [] && multiset(days) == multiset(others) && Ascends(days) && Ascends(others)
    ensures days[0] == others[0]
  {
    FirstIsLeast(days, others[0]);
    FirstIsLeast(others, days[0]);
    assert days[0] in multiset(days) && others[0] in multiset(others);
  }

  lemma FirstIsLeast(days: seq<nat>, d: nat)
    requires days != [] && Ascends(days)
    ensures d in multiset(days) ==> days[0] <= d
  {
    if d in days {
      var i :| 0 <= i < |days| && days[i] == d;
    }
  }

  lemma RestOf(days: seq<nat>)
    requires days != [] && Ascends(days)
    ensures Ascends(days[1..]) && days == [days[0]] + days[1..]
    ensures multiset(days[1..]) == multiset(days) - multiset{days[0]}
  {
    assert days == [days[0]] + days[1..];
  }

  lemma ClockTextInjective(h: nat, k: nat)
    requires h < 24 && k < 24 && ClockText(h, 0) == ClockText(k, 0)
    ensures h == k
  {
    ClockTextParses(h, 0);
    ClockTextParses(k, 0);
  }

  lemma DaysTextInjective(days: seq<nat>, others: seq<nat>)
    requires WeekDays(days) && WeekDays(others) && DaysText(days) == DaysText(others)
    ensures days == others
  {
    assert DaysText([]) == "";
    if days != [] {
      DaysTextSplits(days);
    }
    if others != [] {
      DaysTextSplits(others);
    }
    if days != [] && others != [] {
      forall i | 0 <= i < |days| ensures days[i] == others[i] {
        assert DayCodes(days)[i] == DayCodes(others)[i];
        CodesMatch(days[i]);
        CodesMatch(others[i]);
        ShortCodesDiffer(SundayFirst(days[i]), SundayFirst(others[i]));
      }
    }
  }

  lemma KeyOf(p: PatternResult, buffer: real, zoneOffset: int)
    requires Usable(p, buffer)
    ensures WindowKey(PatternToTrigger(p, buffer, zoneOffset))
         == (DaysText(SortedDays(p.days)), ClockText(StartHour(p), 0), ClockText(EndHour(p), 0))
  {
    hide DaysText, ClockText, SortedDays, ReplicaBounds, GenerateName, StartHour, EndHour;
  }

  lemma WindowKeyIff(p: PatternResult, q: PatternResult, buffer: real, zoneOffset: int)
    requires Usable(p, buffer) && Usable(q, buffer)
    ensures WindowKey(PatternToTrigger(p, buffer, zoneOffset)) == WindowKey(PatternToTrigger(q, buffer, zoneOffset))
        <==> SameWindow(p, q)
  {
    hide DaysText, ClockText, SortedDays, ReplicaBounds, GenerateName, StartHour, EndHour;
    SameDaysIff(p.days, q.days);
    KeyOf(p, buffer, zoneOffset);
    KeyOf(q, buffer, zoneOffset);
    hide PatternToTrigger, WindowKey;
    if WindowKey(PatternToTrigger(p, buffer, zoneOffset)) == WindowKey(PatternToTrigger(q, buffer, zoneOffset)) {
      ClockTextInjective(StartHour(p), StartHour(q));
      ClockTextInjective(EndHour(p), EndHour(q));
      DaysTextInjective(SortedDays(p.days), SortedDays(q.days));
    }
  }

  /** No pattern with its window is of a kind of higher priority, and no earlier one of its kind. */
  predicate Prevails(patterns: seq<PatternResult>, i: nat)
    requires i < |patterns| && AllWellFormed(patterns)
  {
    forall k :: 0 <= k < |patterns| && SameWindow(patterns[k], patterns[i]) ==>
      PriorityOrder(patterns[k].kind) < PriorityOrder(patterns[i].kind) ||
          (patterns[k].kind == patterns[i].kind && i <= k)
  }

  lemma PrioritiesTellKinds(k: TriggerType, m: TriggerType)
    ensures PriorityOrder(k) == PriorityOrder(m) <==> k == m
  {
  }

  lemma PrevailsIffLeads(patterns: seq<PatternResult>, buffer: real, zoneOffset: int, i: nat)
    requires AllUsable(patterns, buffer) && i < |patterns|
    ensures Prevails(patterns, i) <==> Leads(Converted(patterns, buffer, zoneOffset), i)
  {
    hide SameWindow, WindowKey, ReplicaBounds, GenerateName, ClockText, DaysText, SortedDays, StartHour, EndHour,
        PriorityOrder, WellFormed;
    var found := Converted(patterns, buffer, zoneOffset);
    forall k | 0 <= k < |patterns|
      ensures WindowKey(found[k]) == WindowKey(found[i]) <==> SameWindow(patterns[k], patterns[i])
      ensures found[k].priority == PriorityOrder(patterns[k].kind)
      ensures PriorityOrder(patterns[k].kind) == PriorityOrder(patterns[i].kind)
          <==> patterns[k].kind == patterns[i].kind
    {
      assert patterns[k] in patterns && patterns[i] in patterns;
      WindowKeyIff(patterns[k], patterns[i], buffer, zoneOffset);
      PriorityOf(patterns[k], buffer, zoneOffset);
      PrioritiesTellKinds(patterns[k].kind, patterns[i].kind);
    }
  }

  lemma PriorityOf(p: PatternResult, buffer: real, zoneOffset: int)
    requires Usable(p, buffer)
    ensures PatternToTrigger(p, buffer, zoneOffset).priority == PriorityOrder(p.kind)
    ensures PatternToTrigger(p, buffer, zoneOffset).name == GenerateName(p)
  {
  }

  /** Exactly the patterns that prevail are emitted. */
  lemma EmittedMembers(patterns: seq<PatternResult>, buffer: real, zoneOffset: int, t: TriggerConfig)
    requires AllUsable(patterns, buffer)
    ensures t in Emitted(patterns, buffer, zoneOffset)
       <==> exists i ::
              0 <= i < |patterns| && Prevails(patterns, i) && PatternToTrigger(patterns[i], buffer, zoneOffset) == t
  {
    hide PatternToTrigger, WellFormed, Prevails, Leads, ByPriorityOrder, Deduplicated;
    var found := Converted(patterns, buffer, zoneOffset);
    LeadersAreKept(found, t);
    forall i | 0 <= i < |patterns| ensures Prevails(patterns, i) <==> Leads(found, i) {
      PrevailsIffLeads(patterns, buffer, zoneOffset, i);
    }
  }

  /** With a night on the same days, the off-peak pattern does not prevail. */
  lemma NightDisplacesOffPeak(patterns: seq<PatternResult>, i: nat, k: nat)
    requires AllWellFormed(patterns) && i < |patterns| && k < |patterns|
    requires patterns[i].kind == OffPeak && patterns[i].hours == OFF_PEAK_HOURS
    requires patterns[k].kind == Night && patterns[k].hours == NIGHT_HOURS && patterns[k].days == patterns[i].days
    ensures !Prevails(patterns, i)
  {
    assert patterns[i] in patterns && patterns[k] in patterns;
    OffPeakIsAllDay(patterns[i]);
    NightIsAllDay(patterns[k]);
    assert SameWindow(patterns[k], patterns[i]);
  }

  // ---------- Names ----------

  predicate SameContext(p: PatternResult, q: PatternResult)
    requires WellFormed(p) && WellFormed(q)
  {
    && p.kind == q.kind
    && (p.days == [5, 6] <==> q.days == [5, 6]) && (p.days == [0, 1, 2, 3, 4] <==> q.days == [0, 1, 2, 3, 4])
    && PartOfDay(p.hours[0]) == PartOfDay(q.hours[0])
  }

  /** Night from 22 to 6, then parts from 6, 9, 12 and 17. */
  function PartOfDay(hour: nat): nat {
    if hour < 6 then 22 else if hour < 9 then 6 else if hour < 12 then 9 else if hour < 17 then 12
    else if hour < 22 then 17 else 22
  }

  lemma SameContextIff(p: PatternResult, q: PatternResult)
    requires WellFormed(p) && WellFormed(q)
    ensures SameContext(p, q)
       <==> p.kind == q.kind && DayContext(p) == DayContext(q) && TimeContext(p) == TimeContext(q)
  {
    DayContextIff(p, q);
    assert TimeContext(p)[0] == TimeContext(q)[0] ==> PartOfDay(p.hours[0]) == PartOfDay(q.hours[0]);
  }

  lemma DayContextIff(p: PatternResult, q: PatternResult)
    ensures DayContext(p) == DayContext(q)
       <==> && (p.days == [5, 6] <==> q.days == [5, 6])
            && (p.days == [0, 1, 2, 3, 4] <==> q.days == [0, 1, 2, 3, 4])
  {
    if DayContext(p) == DayContext(q) {
      assert DayContext(p)[0] == DayContext(q)[0] && DayContext(p)[4] == DayContext(q)[4];
    }
  }

  lemma Strip(a: string, b: string, x: string, y: string)
    requires |a| == |b| && a + x == b + y
    ensures a == b && x == y
  {
    assert (a + x)[..|a|] == a && (b + y)[..|a|] == b;
    assert (a + x)[|a|..] == x && (b + y)[|a|..] == y;
  }

  lemma DayContextsApart(p: PatternResult, q: PatternResult, x: string, y: string)
    requires DayContext(p) + ("-" + x) == DayContext(q) + ("-" + y)
    ensures DayContext(p) == DayContext(q) && x == y
  {
    var s, t := DayContext(p) + ("-" + x), DayContext(q) + ("-" + y);
    assert s[0] == DayContext(p)[0] && s[4] == DayContext(p)[4] && t[0] == DayContext(q)[0] && t[4] == DayContext(q)[4];
    Strip(DayContext(p), DayContext(q), "-" + x, "-" + y);
    Strip("-", "-", x, y);
  }

  lemma TimeContextsApart(p: PatternResult, q: PatternResult, x: string, y: string)
    requires WellFormed(p) && WellFormed(q) && TimeContext(p) + ("-" + x) == TimeContext(q) + ("-" + y)
    ensures TimeContext(p) == TimeContext(q) && x == y
  {
    var s, t := TimeContext(p) + ("-" + x), TimeContext(q) + ("-" + y);
    assert s[0] == TimeContext(p)[0] && t[0] == TimeContext(q)[0];
    Strip(TimeContext(p), TimeContext(q), "-" + x, "-" + y);
    Strip("-", "-", x, y);
  }

  lemma TypeNamesApart(k: TriggerType, m: TriggerType)
    requires TypeName(k) == TypeName(m)
    ensures k == m
  {
    assert TypeName(k)[0] == TypeName(m)[0] && |TypeName(k)| == |TypeName(m)|;
    assert TypeName(Weekend)[4] == 'e' && TypeName(Weekdays)[4] == 'd';
  }

  /** A name tells the kind, the days and the time of day of its pattern, and nothing else. */
  lemma NameIff(p: PatternResult, q: PatternResult)
    requires WellFormed(p) && WellFormed(q)
    ensures GenerateName(p) == GenerateName(q) <==> SameContext(p, q)
  {
    hide DayContext, TimeContext, TypeName, SameContext;
    SameContextIff(p, q);
    if GenerateName(p) == GenerateName(q) {
      DayContextsApart(p, q, TimeContext(p) + ("-" + TypeName(p.kind)), TimeContext(q) + ("-" + TypeName(q.kind)));
      TimeContextsApart(p, q, TypeName(p.kind), TypeName(q.kind));
      TypeNamesApart(p.kind, q.kind);
    }
  }

  /** No two patterns that prevail are of one kind, day context and time of day. */
  predicate NoNameClash(patterns: seq<PatternResult>)
    requires AllWellFormed(patterns)
  {
    forall i, j :: 0 <= i < j < |patterns| && Prevails(patterns, i) && Prevails(patterns, j) ==>
        !SameContext(patterns[i], patterns[j])
  }

  function ToTriggers(configs: seq<TriggerConfig>): (triggers: seq<Trigger>)
    ensures |triggers| == |configs| && forall i :: 0 <= i < |configs| ==> triggers[i] == ToTrigger(configs[i])
  {
    Mapped(configs, ToTrigger)
  }

  /** Two patterns that prevail are emitted at different places. */
  lemma PrevailingPlaces(patterns: seq<PatternResult>, buffer: real, zoneOffset: int, i: nat, j: nat)
    returns (a: nat, b: nat)
    requires AllUsable(patterns, buffer) && i < j < |patterns| && Prevails(patterns, i) && Prevails(patterns, j)
    ensures var kept := Emitted(patterns, buffer, zoneOffset);
            && a < |kept| && b < |kept| && a != b
            && kept[a] == PatternToTrigger(patterns[i], buffer, zoneOffset) &&
                kept[b] == PatternToTrigger(patterns[j], buffer, zoneOffset)
  {
    hide PatternToTrigger, Emitted, WellFormed, SameWindow, WindowKey;
    var kept := Emitted(patterns, buffer, zoneOffset);
    var t, u := PatternToTrigger(patterns[i], buffer, zoneOffset), PatternToTrigger(patterns[j], buffer, zoneOffset);
    EmittedMembers(patterns, buffer, zoneOffset, t);
    EmittedMembers(patterns, buffer, zoneOffset, u);
    a :| 0 <= a < |kept| && kept[a] == t;
    b :| 0 <= b < |kept| && kept[b] == u;
    WindowKeyIff(patterns[i], patterns[j], buffer, zoneOffset);
    SameWindowBack(patterns[i], patterns[j]);
  }

  lemma SameWindowBack(p: PatternResult, q: PatternResult)
    requires WellFormed(p) && WellFormed(q)
    ensures SameWindow(p, q) <==> SameWindow(q, p)
  {
  }

  /** Emitted names are distinct, so that the scheduler keeps every emitted trigger, if and only if no two
      patterns that prevail share kind, day context and time of day. */
  lemma NamesDifferIff(patterns: seq<PatternResult>, buffer: real, zoneOffset: int)
    requires AllUsable(patterns, buffer)
    ensures var triggers := ToTriggers(Emitted(patterns, buffer, zoneOffset));
            && (DistinctNames(triggers) <==> NoNameClash(patterns))
            && (|Registered(triggers)| == |triggers| <==> NoNameClash(patterns))
  {
    hide PatternToTrigger, Emitted, WellFormed, SameContext, Prevails, GenerateName, Registered;
    var kept := Emitted(patterns, buffer, zoneOffset);
    var triggers := ToTriggers(kept);
    forall i | 0 <= i < |triggers| ensures triggers[i].name == kept[i].name != "" && !triggers[i].suspend {
      var _ := NameOfEmitted(patterns, buffer, zoneOffset, kept[i]);
      ToTriggerKeeps(kept[i]);
    }
    KeepsEachIff(triggers);
    if NoNameClash(patterns) {
      forall a, b | 0 <= a < b < |kept| ensures kept[a].name != kept[b].name {
        EmittedWindowsDiffer(patterns, buffer, zoneOffset, a, b);
        var i := NameOfEmitted(patterns, buffer, zoneOffset, kept[a]);
        var j := NameOfEmitted(patterns, buffer, zoneOffset, kept[b]);
        NameIff(patterns[i], patterns[j]);
        NameIff(patterns[j], patterns[i]);
      }
    } else {
      var i, j :| 0 <= i < j < |patterns| && Prevails(patterns, i) && Prevails(patterns, j) &&
          SameContext(patterns[i], patterns[j]);
      var a, b := PrevailingPlaces(patterns, buffer, zoneOffset, i, j);
      PriorityOf(patterns[i], buffer, zoneOffset);
      PriorityOf(patterns[j], buffer, zoneOffset);
      NameIff(patterns[i], patterns[j]);
      assert triggers[a].name == triggers[b].name;
    }
  }

  /** Only patterns that prevail can clash: two of one context, of which one shares its window with a
      pattern of higher priority, do not. */
  lemma DroppedPatternDoesNotClash(p: PatternResult, q: PatternResult, r: PatternResult)
    requires WellFormed(p) && WellFormed(q) && WellFormed(r)
    requires p.kind == q.kind && SameWindow(r, p) && PriorityOrder(r.kind) > PriorityOrder(p.kind)
    ensures NoNameClash([p, q, r])
  {
    hide SameWindow;
    var patterns := [p, q, r];
    assert SameWindow(patterns[2], patterns[0]);
    assert !Prevails(patterns, 0);
  }

  lemma EmittedWindowsDiffer(patterns: seq<PatternResult>, buffer: real, zoneOffset: int, a: nat, b: nat)
    requires AllUsable(patterns, buffer)
    requires a < b < |Emitted(patterns, buffer, zoneOffset)|
    ensures Emitted(patterns, buffer, zoneOffset)[a] != Emitted(patterns, buffer, zoneOffset)[b]
    ensures Emitted(patterns, buffer, zoneOffset)[a].priority >= Emitted(patterns, buffer, zoneOffset)[b].priority
  {
    hide Emitted, WellFormed, WindowKey, Represented;
    EmittedIsSound(patterns, buffer, zoneOffset);
  }

  /** The prevailing pattern behind an emitted trigger. */
  lemma NameOfEmitted(patterns: seq<PatternResult>, buffer: real, zoneOffset: int, t: TriggerConfig) returns (i: nat)
    requires AllUsable(patterns, buffer) && t in Emitted(patterns, buffer, zoneOffset)
    ensures i < |patterns| && Prevails(patterns, i) && t == PatternToTrigger(patterns[i], buffer, zoneOffset)
    ensures t.name == GenerateName(patterns[i]) != "" && t.priority == PriorityOrder(patterns[i].kind)
  {
    hide PatternToTrigger, Emitted, WellFormed, Prevails;
    EmittedMembers(patterns, buffer, zoneOffset, t);
    i :| 0 <= i < |patterns| && Prevails(patterns, i) && PatternToTrigger(patterns[i], buffer, zoneOffset) == t;
    PriorityOf(patterns[i], buffer, zoneOffset);
  }

  lemma ToTriggerKeeps(t: TriggerConfig)
    ensures ToTrigger(t).name == t.name && Priority(ToTrigger(t)) == t.priority && !ToTrigger(t).suspend
    ensures ToTrigger(t).startHPAConfig.Some?
  {
  }

  // ---------- Right schedules ----------

  /** Patterns with days but no hour before 23 are the only ones whose trigger is not dependable. */
  predicate AllOpenSometime(patterns: seq<PatternResult>) {
    forall p :: p in patterns ==> p.days == [] || HasHourBefore23(p)
  }

  /** Every pattern shares its window with one that prevails and is of at least its priority. */
  lemma PrevailingFor(patterns: seq<PatternResult>, buffer: real, k: nat) returns (i: nat)
    requires AllUsable(patterns, buffer) && k < |patterns|
    ensures i < |patterns| && Prevails(patterns, i) && SameWindow(patterns[i], patterns[k])
    ensures PriorityOrder(patterns[i].kind) >= PriorityOrder(patterns[k].kind)
  {
    hide PatternToTrigger, WellFormed, Prevails, Leads, WindowKey, SameWindow, PriorityOrder;
    var found := Converted(patterns, buffer, 0);
    i := BestLeads(found, WindowKey(found[k]));
    PrevailsIffLeads(patterns, buffer, 0, i);
    assert patterns[i] in patterns && patterns[k] in patterns;
    WindowKeyIff(patterns[i], patterns[k], buffer, 0);
    PriorityOf(patterns[i], buffer, 0);
    PriorityOf(patterns[k], buffer, 0);
    LeadsAtLeast(found, i, k);
  }

  lemma LeadsAtLeast(triggers: seq<TriggerConfig>, i: nat, k: nat)
    requires i < |triggers| && k < |triggers| && Leads(triggers, i) && WindowKey(triggers[k]) == WindowKey(triggers[i])
    ensures triggers[i].priority >= triggers[k].priority
  {
  }

  lemma SameWindowSameHours(p: PatternResult, q: PatternResult, buffer: real)
    requires Usable(p, buffer) && Usable(q, buffer) && SameWindow(p, q)
    ensures (p.days == [] || HasHourBefore23(p)) <==> (q.days == [] || HasHourBefore23(q))
  {
    hide SortedDays, HasHourBefore23;
    ProperIffBefore23(p, buffer);
    ProperIffBefore23(q, buffer);
    SortedDaysEmpty(p.days);
    SortedDaysEmpty(q.days);
  }

  /** What is emitted makes a right schedule if and only if names do not clash and every pattern with days has
      an hour before 23. */
  lemma EmittedAreRightIff(patterns: seq<PatternResult>, buffer: real, zoneOffset: int)
    requires AllUsable(patterns, buffer)
    ensures RightSchedule(ToTriggers(Emitted(patterns, buffer, zoneOffset)))
        <==> NoNameClash(patterns) && AllOpenSometime(patterns)
    ensures Named(ToTriggers(Emitted(patterns, buffer, zoneOffset)))
  {
    hide PatternToTrigger, Emitted, WellFormed, Prevails, GenerateName, HasHourBefore23, Dependable, NoNameClash,
        RightSchedule, ToTrigger, Complete, SameWindow;
    var kept := Emitted(patterns, buffer, zoneOffset);
    var triggers := ToTriggers(kept);
    forall a | 0 <= a < |kept|
      ensures triggers[a].name != "" && !triggers[a].suspend
      ensures triggers[a].startHPAConfig.Some? && Complete(triggers[a].startHPAConfig.value)
      ensures exists i ::
                && 0 <= i < |patterns|
                && (Dependable(triggers[a]) <==> patterns[i].days == [] || HasHourBefore23(patterns[i]))
    {
      var i := NameOfEmitted(patterns, buffer, zoneOffset, kept[a]);
      ToTriggerKeeps(kept[a]);
      assert patterns[i] in patterns;
      PatternConfigsAccepted(patterns[i], buffer, zoneOffset);
      WellScheduledIffBefore23(patterns[i], buffer, zoneOffset);
    }
    RightScheduleIff(triggers);
    NamesDifferIff(patterns, buffer, zoneOffset);
    if forall a :: 0 <= a < |triggers| ==> Dependable(triggers[a]) {
      forall p | p in patterns ensures p.days == [] || HasHourBefore23(p) {
        EmittedWithIts(patterns, buffer, zoneOffset, p);
      }
    }
  }

  /** If every emitted trigger is dependable, a pattern with days has an hour before 23. */
  lemma EmittedWithIts(patterns: seq<PatternResult>, buffer: real, zoneOffset: int, p: PatternResult)
    requires AllUsable(patterns, buffer) && p in patterns
    requires forall t :: t in Emitted(patterns, buffer, zoneOffset) ==> Dependable(ToTrigger(t))
    ensures p.days == [] || HasHourBefore23(p)
  {
    hide PatternToTrigger, Emitted, WellFormed, Prevails, HasHourBefore23, Dependable, SameWindow, ToTrigger,
        PriorityOrder;
    var k :| 0 <= k < |patterns| && patterns[k] == p;
    var i := PrevailingFor(patterns, buffer, k);
    EmittedMembers(patterns, buffer, zoneOffset, PatternToTrigger(patterns[i], buffer, zoneOffset));
    assert patterns[i] in patterns;
    WellScheduledIffBefore23(patterns[i], buffer, zoneOffset);
    SameWindowSameHours(patterns[i], p, buffer);
  }

  predicate DistinctKinds(patterns: seq<PatternResult>) {
    forall i, j :: 0 <= i < j < |patterns| ==> patterns[i].kind != patterns[j].kind
  }

  /** With at most one pattern of each kind, as the model infers them, names never clash, and priorities differ. */
  lemma DistinctKindsSuffice(patterns: seq<PatternResult>, buffer: real, zoneOffset: int)
    requires AllUsable(patterns, buffer) && DistinctKinds(patterns)
    ensures NoNameClash(patterns) && PrioritiesDiffer(ToTriggers(Emitted(patterns, buffer, zoneOffset)))
  {
    hide PatternToTrigger, Emitted, WellFormed, Prevails, GenerateName, PriorityOrder, ToTrigger;
    var kept := Emitted(patterns, buffer, zoneOffset);
    forall a, b | 0 <= a < b < |kept| ensures Priority(ToTrigger(kept[a])) != Priority(ToTrigger(kept[b])) {
      EmittedWindowsDiffer(patterns, buffer, zoneOffset, a, b);
      var i := NameOfEmitted(patterns, buffer, zoneOffset, kept[a]);
      var j := NameOfEmitted(patterns, buffer, zoneOffset, kept[b]);
      ToTriggerKeeps(kept[a]);
      ToTriggerKeeps(kept[b]);
      PrioritiesTellKinds(patterns[i].kind, patterns[j].kind);
    }
  }

  /** At most one pattern of each kind: the emitted triggers make a right schedule, with distinct priorities,
      if and only if every pattern with days has an hour before 23. */
  lemma InferredAreRightIff(patterns: seq<PatternResult>, buffer: real, zoneOffset: int)
    requires AllUsable(patterns, buffer) && DistinctKinds(patterns)
    ensures var triggers := ToTriggers(Emitted(patterns, buffer, zoneOffset));
            var schedules := Registered(triggers);
            && (RightSchedule(triggers) <==> AllOpenSometime(patterns))
            && (RightSchedule(triggers) ==> DistinctPriorities(schedules, schedules.Keys))
  {
    hide Emitted, WellFormed, NoNameClash, AllOpenSometime, RightSchedule, Registered, PrioritiesDiffer, Named,
        DistinctKinds;
    DistinctKindsSuffice(patterns, buffer, zoneOffset);
    EmittedAreRightIff(patterns, buffer, zoneOffset);
    var triggers := ToTriggers(Emitted(patterns, buffer, zoneOffset));
    if RightSchedule(triggers) {
      RightPrioritiesIff(triggers);
    }
  }

  /** The defaults make a right schedule with distinct priorities. */
  lemma DefaultsAreRight(buffer: real, zoneOffset: int, globalMax: real, percentile25: real)
    requires DefaultsFit(buffer, globalMax, percentile25)
    ensures var triggers := ToTriggers(DefaultTriggers(buffer, zoneOffset, globalMax, percentile25));
            RightSchedule(triggers) && PrioritiesDiffer(triggers)
  {
    var configs := DefaultTriggers(buffer, zoneOffset, globalMax, percentile25);
    var triggers := ToTriggers(configs);
    forall i | 0 <= i < |configs| ensures Dependable(triggers[i]) && Complete(triggers[i].startHPAConfig.value) {
      DefaultIsDependable(buffer, zoneOffset, globalMax, percentile25, configs[i]);
    }
    hide Dependable, Complete, RightSchedule;
    RightScheduleIff(triggers);
  }

  lemma DefaultIsDependable(buffer: real, zoneOffset: int, globalMax: real, percentile25: real, t: TriggerConfig)
    requires DefaultsFit(buffer, globalMax, percentile25)
    requires t in DefaultTriggers(buffer, zoneOffset, globalMax, percentile25)
    ensures Dependable(ToTrigger(t)) && Complete(ToTrigger(t).startHPAConfig.value)
  {
    DefaultConfigsAccepted(buffer, zoneOffset, globalMax, percentile25, t);
    DefaultTexts(buffer, zoneOffset, globalMax, percentile25, t);
    hide DefaultTriggers, DefaultsFit, ToTrigger, ParseClock, DaysText, ClockText, Says, Robust, Complete;
    if t.recurring == "SAT,SUN" {
      DefaultWindowSays(t, [5, 6], 0, 0, 23, 59);
      SaysIsWellScheduled(ToTrigger(t), [5, 6], 0, 1439);
    } else {
      DefaultWindowSays(t, [0, 1, 2, 3, 4], 9, 0, 17, 0);
      SaysIsWellScheduled(ToTrigger(t), [0, 1, 2, 3, 4], 540, 1020);
    }
    assert ConfigsAccepted(t);
    CompleteIsRobust(ToTrigger(t).startHPAConfig.value);
  }

  lemma CompleteIsRobust(config: HPAConfig)
    requires Complete(config)
    ensures Robust(config)
  {
  }

  lemma DefaultTexts(buffer: real, zoneOffset: int, globalMax: real, percentile25: real, t: TriggerConfig)
    requires DefaultsFit(buffer, globalMax, percentile25)
    requires t in DefaultTriggers(buffer, zoneOffset, globalMax, percentile25)
    ensures || (t.recurring == "SAT,SUN" && t.startTime == ClockText(0, 0) && t.endTime == ClockText(23, 59))
            || (t.recurring == "M,TU,W,TH,F" && t.startTime == ClockText(9, 0) && t.endTime == ClockText(17, 0))
  {
    hide DefaultBounds, ClockText;
    DefaultClockTexts();
  }

  lemma DefaultClockTexts()
    ensures "00:00:00" == ClockText(0, 0) && "23:59:00" == ClockText(23, 59)
    ensures "09:00:00" == ClockText(9, 0) && "17:00:00" == ClockText(17, 0)
  {
  }

  lemma DefaultWindowSays(t: TriggerConfig, days: seq<nat>, startHour: nat, startMinute: nat, endHour: nat,
                          endMinute: nat)
    requires (days == [5, 6] && t.recurring == "SAT,SUN") || (days == [0, 1, 2, 3, 4] && t.recurring == "M,TU,W,TH,F")
    requires startHour < 24 && startMinute < 60 && endHour < 24 && endMinute < 60
    requires t.startTime == ClockText(startHour, startMinute) && t.endTime == ClockText(endHour, endMinute)
    ensures Says(ToTrigger(t), days, 60 * startHour + startMinute, 60 * endHour + endMinute)
  {
    DefaultDaysText();
    hide DaysText, ParseClock;
    ClockTextParses(startHour, startMinute);
    ClockTextParses(endHour, endMinute);
  }

  lemma DefaultDaysText()
    ensures DaysText([5, 6]) == "SAT,SUN" && DaysText([0, 1, 2, 3, 4]) == "M,TU,W,TH,F"
  {
    WorkingDaysText();
    WeekendDaysText();
    hide DaysText, SortedDays;
    AscendingDaysStay([0, 1, 2, 3, 4]);
  }

  lemma WeekendDaysText()
    ensures DaysText([5, 6]) == "SAT,SUN"
  {
    hide Join;
    var codes := DayCodes([5, 6]);
    assert codes == ["SAT"] + ["SUN"];
    JoinStep("SAT", ["SUN"]);
    OneJoined("SUN");
  }

  /** The trigger of pattern `j` is open and active, of at least the priority, and an existing HPA has the bounds
      calculated for pattern `j`. */
  predicate PatternGoverns(patterns: seq<PatternResult>, buffer: real, zoneOffset: int, j: nat, priority: int, now: int,
                           s: State)
    requires AllUsable(patterns, buffer)
  {
    && j < |patterns| && Prevails(patterns, j) && PriorityOrder(patterns[j].kind) >= priority
    && s.active == GenerateName(patterns[j])
    && IsWithin(ToTrigger(PatternToTrigger(patterns[j], buffer, zoneOffset)), now)
    && var (least, most) := ReplicaBounds(patterns[j], buffer);
       s.hpa.Some? ==>
         s.hpa.value.minReplicas.Some? && s.hpa.value.minReplicas.value == least && s.hpa.value.maxReplicas == most
  }

  /** From patterns to the running scheduler. In every run over a right schedule of what is emitted, at every
      minute of every hour before 23 of a pattern, on its days, the trigger of some pattern of a kind of at least its
      priority is open and active, and sets the HPA to the bounds calculated for that pattern. */
  lemma HoursAreServed(patterns: seq<PatternResult>, buffer: real, zoneOffset: int, k: nat,
                       start: int, hpa: Option<Hpa>, minutes: seq<Minute>, i: nat) returns (j: nat)
    requires AllUsable(patterns, buffer) && k < |patterns|
    requires NoNameClash(patterns) && AllOpenSometime(patterns)
    requires var triggers := ToTriggers(Emitted(patterns, buffer, zoneOffset));
             (hpa.Some? ==> ValidHpa(hpa.value)) && Run(Registered(triggers), start, hpa, minutes) && i < |minutes|
    requires var local := start + i + zoneOffset;
             && OnItsDays(patterns[k], local)
             && MinuteOfDay(local) / 60 in patterns[k].hours && MinuteOfDay(local) / 60 != 23
    ensures PatternGoverns(patterns, buffer, zoneOffset, j, PriorityOrder(patterns[k].kind),
                           start + i, Last(minutes[i]))
  {
    hide PatternToTrigger, Emitted, WellFormed, Prevails, SameWindow, IsWithin, RightSchedule, Registered, Run, Serves,
      NoNameClash, AllOpenSometime, PriorityOrder, OnItsDays, MinuteOfDay, ToTrigger, IsServing, PatternGoverns;
    EmittedAreRightIff(patterns, buffer, zoneOffset);
    var t := OpenForPattern(patterns, buffer, zoneOffset, k, start + i);
    var kept, s := Emitted(patterns, buffer, zoneOffset), Last(minutes[i]);
    var triggers := ToTriggers(kept);
    var a :| 0 <= a < |kept| && kept[a] == t;
    assert triggers[a] in triggers;
    ToTriggerKeeps(t);
    OpenTriggerIsServed(triggers, triggers[a], start, hpa, minutes, i);
    var m := ServingTrigger(triggers, start + i, t.priority, s);
    j := NameOfEmitted(patterns, buffer, zoneOffset, kept[m]);
    assert patterns[j] in patterns;
    ServingGoverns(patterns, buffer, zoneOffset, j, t.priority, PriorityOrder(patterns[k].kind), start + i, s);
  }

  lemma ServingGoverns(patterns: seq<PatternResult>, buffer: real, zoneOffset: int, j: nat, priority: int, lower: int,
                       now: int, s: State)
    requires AllUsable(patterns, buffer) && j < |patterns| && Prevails(patterns, j) && patterns[j] in patterns
    requires lower <= priority
    requires IsServing(ToTrigger(PatternToTrigger(patterns[j], buffer, zoneOffset)), now, priority, s)
    ensures PatternGoverns(patterns, buffer, zoneOffset, j, lower, now, s)
  {
    hide Prevails, IsWithin, GenerateName, ClockText, DaysText, SortedDays, StartHour, EndHour, ReplicaBounds,
      PriorityOrder;
    ConfigBounds(PatternToTrigger(patterns[j], buffer, zoneOffset));
  }

  /** An emitted trigger of at least the pattern's priority is open at its hours. */
  lemma OpenForPattern(patterns: seq<PatternResult>, buffer: real, zoneOffset: int, k: nat, now: int)
    returns (t: TriggerConfig)
    requires AllUsable(patterns, buffer) && k < |patterns|
    requires var local := now + zoneOffset;
             OnItsDays(patterns[k], local) && MinuteOfDay(local) / 60 in patterns[k].hours &&
                 MinuteOfDay(local) / 60 != 23
    ensures t in Emitted(patterns, buffer, zoneOffset) && IsWithin(ToTrigger(t), now)
    ensures t.priority >= PriorityOrder(patterns[k].kind)
  {
    hide PatternToTrigger, Emitted, WellFormed, Prevails, IsWithin, PriorityOrder, OnItsDays, MinuteOfDay, SameWindow;
    var i := PrevailingFor(patterns, buffer, k);
    t := PatternToTrigger(patterns[i], buffer, zoneOffset);
    EmittedMembers(patterns, buffer, zoneOffset, t);
    assert patterns[i] in patterns && patterns[k] in patterns;
    PriorityOf(patterns[i], buffer, zoneOffset);
    OpenOverHull(patterns[k], buffer, zoneOffset, now);
    SameWindowOpens(patterns[i], patterns[k], buffer, zoneOffset, now);
  }

  lemma SameWindowOpens(p: PatternResult, q: PatternResult, buffer: real, zoneOffset: int, now: int)
    requires Usable(p, buffer) && Usable(q, buffer) && SameWindow(p, q)
    ensures IsWithin(ToTrigger(PatternToTrigger(p, buffer, zoneOffset)), now)
       <==> IsWithin(ToTrigger(PatternToTrigger(q, buffer, zoneOffset)), now)
  {
    hide IsWithin, PatternToTrigger, Intended;
    SameDaysIff(p.days, q.days);
    OpenAsSaid(p, buffer, zoneOffset, now);
    OpenAsSaid(q, buffer, zoneOffset, now);
  }
}
