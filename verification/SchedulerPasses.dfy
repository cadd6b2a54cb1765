/** What a pass does to the HPA while no window is open: the end configurations of the triggers that
    have closed today are applied, and nothing else. */
module SchedulerPasses {
  import opened Options
  import opened Calendar
  import opened Triggers
  import opened CronTab
  import opened HpaConfig
  import opened Scheduler
  import opened SchedulerRuns
  import opened SchedulerLaws

  /** The day filter passes the trigger, its clock times can be read, and its end minute is at or before now. */
  predicate ClosedToday(trigger: Trigger, now: int) {
    && RecursAt(trigger, now)
    && ParseClock(trigger.startTime).Ok? && ParseClock(trigger.endTime).Ok?
    && var end := ParseClock(trigger.endTime).value;
       60 * end.hour + end.minute <= MinuteOfDay(Local(trigger, now))
  }

  function ClosedOf(order: seq<Trigger>, now: int): seq<Trigger> {
    if order == [] then []
    else
      var last := order[|order| - 1];
      ClosedOf(order[..|order| - 1], now) + if ClosedToday(last, now) then [last] else []
  }

  /** The end configurations that are set, in order. */
  function EndConfigs(triggers: seq<Trigger>): seq<HPAConfig> {
    if triggers == [] then []
    else
      var config := triggers[|triggers| - 1].endHPAConfig;
      EndConfigs(triggers[..|triggers| - 1]) + if config.Some? then [config.value] else []
  }

  /** An HPA, if it exists, after the end configurations of `triggers` one by one. */
  function EndsApplied(hpa: Option<Hpa>, triggers: seq<Trigger>): Option<Hpa> {
    if hpa.None? then None else Some(UpdatedAll(hpa.value, EndConfigs(triggers)))
  }

  lemma EndsAppliedMore(hpa: Option<Hpa>, triggers: seq<Trigger>, last: Trigger)
    ensures EndsApplied(hpa, triggers + [last])
         == if hpa.None? || last.endHPAConfig.None? then EndsApplied(hpa, triggers)
            else Some(Updated(EndsApplied(hpa, triggers).value, last.endHPAConfig.value))
  {
    assert (triggers + [last])[..|triggers|] == triggers;
    var configs := EndConfigs(triggers);
    assert configs + [] == configs;
    if hpa.Some? && last.endHPAConfig.Some? {
      UpdatedAllSplits(hpa.value, configs, [last.endHPAConfig.value]);
      OneUpdate(UpdatedAll(hpa.value, configs), last.endHPAConfig.value);
    }
  }

  lemma OneUpdate(hpa: Hpa, config: HPAConfig)
    ensures UpdatedAll(hpa, [config]) == Updated(hpa, config)
  {
    assert [config][1..] == [];
    assert UpdatedAll(Updated(hpa, config), []) == Updated(hpa, config);
  }

  /** Scheduling one trigger while no window is open. */
  lemma ScheduleAppliesEnd(schedules: Schedules, trigger: Trigger, now: int, s: State)
    requires WithinAt(schedules, now) == {} && !IsWithin(trigger, now)
    ensures var s' := ScheduleStep(schedules, trigger, now, s);
            && s'.active == s.active
            && s'.hpa == if ClosedToday(trigger, now) && s.hpa.Some? && trigger.endHPAConfig.Some?
                         then Some(Updated(s.hpa.value, trigger.endHPAConfig.value)) else s.hpa
  {
    hide RecursAt, ParseClock, CronEntry, Updated;
  }

  lemma {:induction false} PassAppliesEnds(schedules: Schedules, order: seq<Trigger>, now: int, s: State)
    requires Keyed(schedules) && WithinAt(schedules, now) == {}
    requires forall trigger :: trigger in order ==> !IsWithin(trigger, now)
    ensures var s' := ScheduleAll(schedules, order, now, s);
            s'.active == s.active && s'.hpa == EndsApplied(s.hpa, ClosedOf(order, now))
  {
    if order == [] {
      assert s.hpa.Some? ==> UpdatedAll(s.hpa.value, []) == s.hpa.value;
    } else {
      hide ScheduleStep, IsWithin, ClosedToday, WithinAt, EndsApplied, Updated;
      var before, last := order[..|order| - 1], order[|order| - 1];
      PassAppliesEnds(schedules, before, now, s);
      ScheduleAppliesEnd(schedules, last, now, ScheduleAll(schedules, before, now, s));
      EndsAppliedMore(s.hpa, ClosedOf(before, now), last);
      EndsAppliedNone(s.hpa, ClosedOf(before, now));
      assert ClosedOf(before, now) + [] == ClosedOf(before, now);
    }
  }

  lemma EndsAppliedNone(hpa: Option<Hpa>, triggers: seq<Trigger>)
    ensures EndsApplied(hpa, triggers).None? <==> hpa.None?
  {
  }

  lemma {:induction false} ClosedMembers(order: seq<Trigger>, now: int, trigger: Trigger)
    ensures trigger in ClosedOf(order, now) <==> trigger in order && ClosedToday(trigger, now)
  {
    hide ClosedToday;
    if order != [] {
      var n := |order| - 1;
      assert order == order[..n] + [order[n]];
      ClosedMembers(order[..n], now, trigger);
    }
  }

  lemma {:induction false} ClosedKeepOrder(order: seq<Trigger>, now: int)
    requires DistinctNames(order) && forall i, j :: 0 <= i < j < |order| ==> Priority(order[i]) >= Priority(order[j])
    ensures var closed := ClosedOf(order, now);
            && DistinctNames(closed)
            && forall i, j :: 0 <= i < j < |closed| ==> Priority(closed[i]) >= Priority(closed[j])
  {
    hide ClosedToday, Priority;
    if order != [] {
      var n := |order| - 1;
      var before := ClosedOf(order[..n], now);
      ClosedKeepOrder(order[..n], now);
      forall i | 0 <= i < |before|
        ensures before[i].name != order[n].name && Priority(before[i]) >= Priority(order[n])
      {
        assert before[i] in before;
        ClosedMembers(order[..n], now, before[i]);
        var k :| 0 <= k < n && order[..n][k] == before[i];
      }
    }
  }

  /** `closed` are exactly the schedules that have closed today, once each, in non-increasing priority. */
  predicate ClosedByPriority(schedules: Schedules, now: int, closed: seq<Trigger>) {
    && DistinctNames(closed)
    && (forall i, j :: 0 <= i < j < |closed| ==> Priority(closed[i]) >= Priority(closed[j]))
    && (forall trigger :: trigger in closed ==> trigger.name in schedules && schedules[trigger.name] == trigger)
    && (forall name :: name in schedules ==> (schedules[name] in closed <==> ClosedToday(schedules[name], now)))
  }

  /** The other half of a pass. While no window is open it leaves the active name alone, and the HPA comes out
      updated, in some order of non-increasing priority, by the end configurations of exactly the triggers that
      have closed today. */
  lemma PassWithNoneOpen(schedules: Schedules, now: int, s: State, s': State) returns (closed: seq<Trigger>)
    requires Keyed(schedules) && WithinAt(schedules, now) == {} && ExecuteStep(schedules, now, s, s')
    ensures s'.active == s.active
    ensures ClosedByPriority(schedules, now, closed) && s'.hpa == EndsApplied(s.hpa, closed)
  {
    var order: seq<Trigger> :| ExecuteOrder(schedules, order) &&
                 s' == var s1 := ScheduleAll(schedules, order, now, s); s1.(jobs := s1.jobs + [DailyRefresh]);
    closed := ClosedOf(order, now);
    ClosedOfOrder(schedules, order, now);
    hide IsWithin, ClosedOf, ClosedByPriority, EndsApplied, ScheduleAll, HasValidInterval, ByPriority, DistinctNames;
    forall trigger | trigger in order ensures !IsWithin(trigger, now) {
      assert trigger.name !in WithinAt(schedules, now);
    }
    PassAppliesEnds(schedules, order, now, s);
  }

  lemma ClosedOfOrder(schedules: Schedules, order: seq<Trigger>, now: int)
    requires Keyed(schedules) && ExecuteOrder(schedules, order)
    ensures ClosedByPriority(schedules, now, ClosedOf(order, now))
  {
    var closed := ClosedOf(order, now);
    ClosedKeepOrder(order, now);
    hide ClosedToday, ClosedOf, HasValidInterval, ByPriority, DistinctNames;
    forall trigger ensures trigger in closed <==> trigger in order && ClosedToday(trigger, now) {
      ClosedMembers(order, now, trigger);
    }
    forall name | name in schedules && ClosedToday(schedules[name], now) ensures schedules[name] in order {
      ClosedIsValid(schedules[name], now);
      var i :| 0 <= i < |order| && order[i].name == name;
    }
  }

  lemma ClosedIsValid(trigger: Trigger, now: int)
    requires ClosedToday(trigger, now)
    ensures HasValidInterval(trigger)
  {
    RecurringIsValid(trigger, now);
  }

  lemma FirstIsMember(triggers: seq<Trigger>)
    ensures triggers == [] || triggers[0] in triggers
  {
  }

  /** With no window open and none closed today the pass leaves the HPA alone. */
  lemma PassBeforeAnyCloses(schedules: Schedules, now: int, s: State, s': State)
    requires Keyed(schedules) && WithinAt(schedules, now) == {} && ExecuteStep(schedules, now, s, s')
    requires forall name :: name in schedules ==> !ClosedToday(schedules[name], now)
    ensures s'.hpa == s.hpa && s'.active == s.active
  {
    hide ClosedToday, IsWithin, ExecuteStep;
    var closed := PassWithNoneOpen(schedules, now, s, s');
    FirstIsMember(closed);
    assert s.hpa.Some? ==> UpdatedAll(s.hpa.value, []) == s.hpa.value;
  }

  /** A trigger whose day is not today, or which has not opened yet, leaves the HPA alone. */
  lemma NotYetOpenLeavesHpa(trigger: Trigger, now: int, s: State, s': State)
    requires ExecuteStep(Alone(trigger), now, s, s')
    requires || !RecursAt(trigger, now)
             || (Schedulable(trigger) && OpensLater(trigger, now))
    ensures s'.hpa == s.hpa && s'.active == s.active
  {
    hide ExecuteStep, RecursAt, ParseClock;
    NotOpenNotClosed(trigger, now);
    PassBeforeAnyCloses(Alone(trigger), now, s, s');
  }

  /** The window opens and closes later on the same local day. */
  predicate OpensLater(trigger: Trigger, now: int)
    requires Schedulable(trigger)
  {
    var start, end := ParseClock(trigger.startTime).value, ParseClock(trigger.endTime).value;
    MinuteOfDay(Local(trigger, now)) < 60 * start.hour + start.minute < 60 * end.hour + end.minute
  }

  lemma NotOpenNotClosed(trigger: Trigger, now: int)
    requires !RecursAt(trigger, now) || (Schedulable(trigger) && OpensLater(trigger, now))
    ensures WithinAt(Alone(trigger), now) == {} && !ClosedToday(trigger, now)
  {
    hide RecursAt, ParseClock;
    AloneWithin(trigger, now);
  }

  lemma TwoMembers(triggers: seq<Trigger>)
    requires DistinctNames(triggers) && |triggers| > 1
    ensures exists one, two :: one in triggers && two in triggers && one != two
  {
    assert triggers[0] in triggers && triggers[1] in triggers && triggers[0].name != triggers[1].name;
  }

  lemma OneMember(triggers: seq<Trigger>, trigger: Trigger)
    requires DistinctNames(triggers) && trigger in triggers && forall other :: other in triggers ==> other == trigger
    ensures triggers == [trigger]
  {
    if |triggers| > 1 {
      TwoMembers(triggers);
    }
  }

  /** A restart after the window of a trigger on its own leaves its end bounds, if they are accepted, and
      otherwise the HPA as it was. */
  lemma ClosedLeavesEndBounds(trigger: Trigger, now: int, hpa: Hpa, active: string, jobs: seq<Job>, s': State)
    requires ClosedToday(trigger, now) && !IsWithin(trigger, now)
    requires ExecuteStep(Alone(trigger), now, State(active, Some(hpa), jobs), s')
    ensures s'.active == active && s'.hpa.Some?
    ensures trigger.endHPAConfig.Some? && Accepts(hpa, trigger.endHPAConfig.value) ==>
              Carries(s'.hpa.value, trigger.endHPAConfig.value)
    ensures trigger.endHPAConfig.None? || !Accepts(hpa, trigger.endHPAConfig.value) ==> s'.hpa.value == hpa
  {
    AloneWithin(trigger, now);
    assert Keyed(Alone(trigger)) && WithinAt(Alone(trigger), now) == {};
    hide *;
    var closed := PassWithNoneOpen(Alone(trigger), now, State(active, Some(hpa), jobs), s');
    ClosedAlone(trigger, now, closed);
    OneEndApplied(trigger, hpa);
  }

  lemma ClosedAlone(trigger: Trigger, now: int, closed: seq<Trigger>)
    requires ClosedToday(trigger, now) && ClosedByPriority(Alone(trigger), now, closed)
    ensures closed == [trigger]
  {
    hide ClosedToday;
    assert Alone(trigger)[trigger.name] in closed;
    OneMember(closed, trigger);
  }

  lemma OneEndApplied(trigger: Trigger, hpa: Hpa)
    ensures var after := EndsApplied(Some(hpa), [trigger]);
            && after.Some?
            && (trigger.endHPAConfig.Some? && Accepts(hpa, trigger.endHPAConfig.value) ==>
                  Carries(after.value, trigger.endHPAConfig.value))
            && (trigger.endHPAConfig.None? || !Accepts(hpa, trigger.endHPAConfig.value) ==> after.value == hpa)
  {
    assert [] + [trigger] == [trigger];
    EndsAppliedMore(Some(hpa), [], trigger);
    assert UpdatedAll(hpa, []) == hpa && EndConfigs([]) == [];
    hide EndsApplied, UpdatedAll, Accepts;
  }

  /** Neither a recurrence nor both dates, or a clock time that cannot be read. */
  predicate Unscheduled(trigger: Trigger) {
    || trigger.interval.None?
    || (&& trigger.interval.value.recurring == ""
        && (trigger.interval.value.startDate == NoDate || trigger.interval.value.endDate == NoDate))
    || !ParseClock(trigger.startTime).Ok? || !ParseClock(trigger.endTime).Ok?
  }

  /** Such a trigger is never open, no entry of it ever fires, and a pass over it does nothing but add a refresh. */
  lemma UnscheduledIsIdle(trigger: Trigger, now: int, s: State, s': State)
    requires Unscheduled(trigger)
    ensures !IsWithin(trigger, now) && !StartFires(trigger, now) && !EndFires(trigger, now)
    ensures ExecuteStep(Alone(trigger), now, s, s') ==> s' == s.(jobs := s.jobs + [DailyRefresh])
  {
    hide CronEntry, EntryMatches, Lists;
    if ExecuteStep(Alone(trigger), now, s, s') {
      var order: seq<Trigger> :| ExecuteOrder(Alone(trigger), order) &&
                   s' == var s1 := ScheduleAll(Alone(trigger), order, now, s); s1.(jobs := s1.jobs + [DailyRefresh]);
      hide IsWithin, HasValidInterval;
      forall i | 0 <= i < |order| ensures order[i] == trigger && HasValidInterval(trigger) {
        assert order[i].name in Alone(trigger) && order[i] == Alone(trigger)[order[i].name];
        assert exists k :: 0 <= k < |order| && order[k].name == trigger.name;
      }
      IdlePass(trigger, order, now, s);
    }
  }

  lemma {:induction false} IdlePass(trigger: Trigger, order: seq<Trigger>, now: int, s: State)
    requires Unscheduled(trigger)
    requires order != [] ==> HasValidInterval(trigger)
    requires forall i :: 0 <= i < |order| ==> order[i] == trigger
    ensures ScheduleAll(Alone(trigger), order, now, s) == s
  {
    if order != [] {
      IdlePass(trigger, order[..|order| - 1], now, s);
      assert order[|order| - 1] == trigger;
      assert WindowState(trigger, now).Err?;
    }
  }

  /** A trigger without a priority ranks with those of priority zero. */
  lemma UnsetPriorityIsZero(schedules: Schedules, trigger: Trigger, other: Trigger, now: int)
    requires trigger.priority.None? && other.priority == Some(0)
    requires trigger.name == other.name
    ensures HigherPriorityActive(schedules, trigger, now)
       <==> exists name :: name in WithinAt(schedules, now) && name != trigger.name
                           && schedules[name].priority.Some? && schedules[name].priority.value > 0
    ensures HigherPriorityActive(schedules, trigger, now) <==> HigherPriorityActive(schedules, other, now)
  {
    hide IsWithin;
  }
}
