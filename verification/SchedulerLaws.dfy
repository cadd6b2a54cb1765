/** Consequences of the run theorem and the limits of its hypotheses: callbacks of one
    minute commute, the early return of a trigger's end changes nothing, and a trigger
    that misses a hypothesis breaks the rule. */
module SchedulerLaws {
  import opened Options
  import opened Triggers
  import opened Calendar
  import opened CronTab
  import opened HpaConfig
  import opened Scheduler
  import opened SchedulerRuns

  // ---------- Which triggers a context keeps ----------

  /** Trigger `i` is the last with its name that is not suspended. */
  predicate LastOfName(triggers: seq<Trigger>, i: nat)
    requires i < |triggers|
  {
    && !triggers[i].suspend
    && forall j :: i < j < |triggers| ==> triggers[j].suspend || triggers[j].name != triggers[i].name
  }

  lemma {:induction false} RegisteredIsLast(triggers: seq<Trigger>, name: string) returns (i: nat)
    requires name in Registered(triggers)
    ensures i < |triggers| && LastOfName(triggers, i)
    ensures triggers[i].name == name && Registered(triggers)[name] == triggers[i]
  {
    var n := |triggers| - 1;
    var before := triggers[..n];
    if !triggers[n].suspend && triggers[n].name == name {
      i := n;
    } else {
      i := RegisteredIsLast(before, name);
      assert forall j :: 0 <= j < n ==> before[j] == triggers[j];
    }
  }

  /** Of several triggers with one name that are not suspended the last is kept, and a name is missing exactly if
      there is none. */
  lemma {:induction false} RegisteredComesFrom(triggers: seq<Trigger>, name: string)
    ensures name in Registered(triggers) ==>
              && Registered(triggers)[name] in triggers && Registered(triggers)[name].name == name
              && exists i :: 0 <= i < |triggers| && LastOfName(triggers, i) && Registered(triggers)[name] == triggers[i]
    ensures name !in Registered(triggers) ==>
        forall trigger :: trigger in triggers && !trigger.suspend ==>
          trigger.name != name
  {
    if name in Registered(triggers) {
      var i := RegisteredIsLast(triggers, name);
    } else if triggers != [] {
      var n := |triggers| - 1;
      assert triggers == triggers[..n] + [triggers[n]];
      RegisteredComesFrom(triggers[..n], name);
    }
  }

  /** The triggers that are not suspended, in order. */
  function Unsuspended(triggers: seq<Trigger>): seq<Trigger> {
    if triggers == [] then []
    else
      var n := |triggers| - 1;
      Unsuspended(triggers[..n]) + if triggers[n].suspend then [] else [triggers[n]]
  }

  lemma {:induction false} UnsuspendedMembers(triggers: seq<Trigger>, trigger: Trigger)
    ensures trigger in Unsuspended(triggers) <==> trigger in triggers && !trigger.suspend
  {
    if triggers != [] {
      var n := |triggers| - 1;
      assert triggers == triggers[..n] + [triggers[n]];
      UnsuspendedMembers(triggers[..n], trigger);
    }
  }

  lemma {:induction false} SuspendedAreSkipped(triggers: seq<Trigger>)
    ensures Registered(triggers) == Registered(Unsuspended(triggers))
  {
    hide *;
    if triggers == [] {
      NoneUnsuspended();
    } else {
      var n := |triggers| - 1;
      SuspendedAreSkipped(triggers[..n]);
      RegisteredMore(triggers[..n], triggers[n]);
      RegisteredMore(Unsuspended(triggers[..n]), triggers[n]);
      UnsuspendedMore(triggers[..n], triggers[n]);
      assert triggers == triggers[..n] + [triggers[n]];
    }
  }

  lemma NoneUnsuspended()
    ensures Unsuspended([]) == []
  {
  }

  lemma UnsuspendedMore(triggers: seq<Trigger>, last: Trigger)
    ensures Unsuspended(triggers + [last])
         == if last.suspend then Unsuspended(triggers) else Unsuspended(triggers) + [last]
  {
    assert (triggers + [last])[..|triggers|] == triggers;
    assert Unsuspended(triggers) + [] == Unsuspended(triggers);
  }

  lemma RegisteredMore(triggers: seq<Trigger>, last: Trigger)
    ensures Registered(triggers + [last])
         == if last.suspend then Registered(triggers) else Registered(triggers)[last.name := last]
  {
    assert (triggers + [last])[..|triggers|] == triggers;
  }

  /** The last-write-wins map keeps every trigger that is not suspended exactly when the names of those differ. */
  lemma RegisteredKeepsAllIff(triggers: seq<Trigger>)
    ensures var live := Unsuspended(triggers);
            && |Registered(triggers)| <= |live|
            && (|Registered(triggers)| == |live| <==> DistinctNames(live))
            && (DistinctNames(live) ==>
                  forall trigger :: trigger in live ==>
                      trigger.name in Registered(triggers) && Registered(triggers)[trigger.name] == trigger)
  {
    SuspendedAreSkipped(triggers);
    forall trigger | trigger in Unsuspended(triggers) ensures !trigger.suspend {
      UnsuspendedMembers(triggers, trigger);
    }
    LiveAreKeptIff(Unsuspended(triggers));
  }

  lemma {:induction false} NoneSuspended(triggers: seq<Trigger>)
    requires forall trigger :: trigger in triggers ==> !trigger.suspend
    ensures Unsuspended(triggers) == triggers
  {
    if triggers != [] {
      var n := |triggers| - 1;
      assert triggers == triggers[..n] + [triggers[n]];
      NoneSuspended(triggers[..n]);
    }
  }

  lemma {:induction false} LiveAreKeptIff(triggers: seq<Trigger>)
    requires forall trigger :: trigger in triggers ==> !trigger.suspend
    ensures |Registered(triggers)| <= |triggers|
    ensures |Registered(triggers)| == |triggers| <==> DistinctNames(triggers)
    ensures DistinctNames(triggers) ==>
              forall trigger :: trigger in triggers ==>
                  trigger.name in Registered(triggers) && Registered(triggers)[trigger.name] == trigger
  {
    if triggers != [] {
      var n := |triggers| - 1;
      var before, last := triggers[..n], triggers[n];
      assert triggers == before + [last];
      LiveAreKeptIff(before);
      RegisteredComesFrom(before, last.name);
      assert Registered(triggers) == Registered(before)[last.name := last];
      if last.name in Registered(before) {
        var twin := Registered(before)[last.name];
        var i :| 0 <= i < n && before[i] == twin;
        assert triggers[i].name == triggers[n].name;
      } else {
        assert Registered(triggers).Keys == Registered(before).Keys + {last.name};
        assert forall i :: 0 <= i < n ==> triggers[i] in before;
      }
    }
  }

  predicate DistinctPriorities(schedules: Schedules, names: set<string>)
    requires names <= schedules.Keys
  {
    forall a, b :: a in names && b in names && Priority(schedules[a]) == Priority(schedules[b]) ==> a == b
  }

  predicate CompleteStarts(schedules: Schedules) {
    forall name :: name in schedules ==>
        schedules[name].startHPAConfig.Some? && Complete(schedules[name].startHPAConfig.value)
  }

  /** The rule leaves no choice when open priorities are distinct and configurations complete. */
  lemma RuleIsUnique(schedules: Schedules, now: int, s: State, s': State)
    requires Governs(schedules, now, s) && Governs(schedules, now, s')
    ensures WithinAt(schedules, now) == {} ==> s.active == s'.active == ""
    ensures WithinAt(schedules, now) != {} ==> Priority(schedules[s.active]) == Priority(schedules[s'.active])
    ensures WithinAt(schedules, now) != {} && DistinctPriorities(schedules, WithinAt(schedules, now)) ==>
              && s.active == s'.active
              && (CompleteStarts(schedules) && s.hpa.Some? && s'.hpa.Some? ==> s.hpa == s'.hpa)
  {
    if WithinAt(schedules, now) != {} && DistinctPriorities(schedules, WithinAt(schedules, now)) {
      assert s.active == s'.active;
      if CompleteStarts(schedules) && s.hpa.Some? && s'.hpa.Some? {
        var config := schedules[s.active].startHPAConfig.value;
        assert s.hpa.value == Hpa(config.minReplicas, config.maxReplicas.value) == s'.hpa.value;
      }
    }
  }

  /** Same-minute confluence: two minutes that begin right for the previous minute, fire the due
      callbacks in any two orders with any repetitions, end with equal active priority; with
      distinct open priorities they end with the same active trigger, and with complete
      configurations the same HPA. */
  lemma Confluence(schedules: Schedules, now: int, minute: Minute, minute': Minute)
    requires AllDependable(schedules)
    requires MinuteRun(schedules, now, minute) && NoneMissed(schedules, now, minute)
    requires Settled(schedules, now - 1, First(minute))
    requires MinuteRun(schedules, now, minute') && NoneMissed(schedules, now, minute')
    requires Settled(schedules, now - 1, First(minute'))
    ensures Governs(schedules, now, Last(minute)) && Governs(schedules, now, Last(minute'))
    ensures WithinAt(schedules, now) == {} ==> Last(minute).active == Last(minute').active == ""
    ensures WithinAt(schedules, now) != {} ==>
              Priority(schedules[Last(minute).active]) == Priority(schedules[Last(minute').active])
    ensures WithinAt(schedules, now) != {} && DistinctPriorities(schedules, WithinAt(schedules, now)) ==>
              && Last(minute).active == Last(minute').active
              && (CompleteStarts(schedules) && (First(minute).hpa.Some? <==> First(minute').hpa.Some?) ==>
                    Last(minute).hpa == Last(minute').hpa)
  {
    MinuteSettles(schedules, now, minute);
    MinuteSettles(schedules, now, minute');
    MinuteKeepsHpa(schedules, now, minute);
    MinuteKeepsHpa(schedules, now, minute');
    RuleIsUnique(schedules, now, Last(minute), Last(minute'));
  }

  lemma MinuteKeepsHpa(schedules: Schedules, now: int, minute: Minute)
    requires AllDependable(schedules) && MinuteRun(schedules, now, minute) && Settled(schedules, now - 1, First(minute))
    ensures First(minute).hpa.Some? <==> Last(minute).hpa.Some?
  {
    MinutePrefix(schedules, now, minute, |minute.fired|);
  }

  /** The early return of a trigger's end is sound: when that end is the only window edge of the
      minute and the state was right, the end callback and the plain search for the next highest
      trigger reach the same state, although the callback may stop without touching anything. */
  lemma EarlyReturnIsSound(schedules: Schedules, name: string, now: int, s: State, ended: State, searched: State)
    requires Keyed(schedules) && CompleteStarts(schedules) && name in schedules
    requires WithinAt(schedules, now - 1) == WithinAt(schedules, now) + {name} && name !in WithinAt(schedules, now)
    requires DistinctPriorities(schedules, WithinAt(schedules, now - 1))
    requires Governs(schedules, now - 1, s)
    requires EndStep(schedules, schedules[name], now, s, ended)
    requires NextHighestStep(schedules, schedules[name], now, s, searched)
    ensures ended == searched
  {
    hide IsWithin, Accepts;
    var before, open := WithinAt(schedules, now - 1), WithinAt(schedules, now);
    assert open - {schedules[name].name} == open;
    if open != {} {
      var top :| IsTop(schedules, open, top) &&
                 ended == if Priority(schedules[top]) > Priority(schedules[name]) then s
                 else Activated(schedules[top], s);
      var top' :| IsTop(schedules, open, top') && searched == Activated(schedules[top'], s);
      assert top in before && top' in before && top == top';
      if Priority(schedules[top]) > Priority(schedules[name]) {
        assert IsTop(schedules, before, top) && s.active == top;
        ReapplyingChangesNothing(s.hpa, schedules[top].startHPAConfig.value);
      }
    }
  }

  lemma ReapplyingChangesNothing(hpa: Option<Hpa>, config: HPAConfig)
    requires Complete(config) && (hpa.Some? ==> Carries(hpa.value, config))
    ensures AfterUpdate(hpa, Some(config)) == hpa
  {
  }

  /** `name` is active, and an HPA that exists carries its start bounds. */
  predicate InCharge(schedules: Schedules, name: string, s: State) {
    && s.active == name && name in schedules
    && var config := schedules[name].startHPAConfig;
       (s.hpa.Some? && config.Some? ==> Carries(s.hpa.value, config.value))
  }

  /** The window of `name` alone opens or closes at `now`; of the others that are open, `other` has maximum priority. */
  predicate Overlap(schedules: Schedules, name: string, other: string, now: int) {
    && name in schedules && (name in WithinAt(schedules, now) <==> name !in WithinAt(schedules, now - 1))
    && WithinAt(schedules, now) - {name} == WithinAt(schedules, now - 1) - {name}
    && IsTop(schedules, WithinAt(schedules, now) - {name}, other)
    && DistinctPriorities(schedules, WithinAt(schedules, now) + {name})
  }

  /** The documented overlap scenarios, from a state that was right the minute before. */
  lemma OverlapScenarios(schedules: Schedules, name: string, other: string, now: int, s: State, s': State)
    requires AllDependable(schedules) && Overlap(schedules, name, other, now) && Governs(schedules, now - 1, s)
    requires if name in WithinAt(schedules, now) then s' == StartStep(schedules, schedules[name], now, s)
             else EndStep(schedules, schedules[name], now, s, s')
    // a lower-priority trigger starts: nothing changes, the other stays in charge
    ensures name in WithinAt(schedules, now) && Priority(schedules[name]) < Priority(schedules[other]) ==>
              s' == s && InCharge(schedules, other, s)
    // a higher-priority trigger starts: it takes charge from the other
    ensures name in WithinAt(schedules, now) && Priority(schedules[name]) > Priority(schedules[other]) ==>
              InCharge(schedules, other, s) && InCharge(schedules, name, s')
    // a higher-priority trigger ends: the other takes charge from it
    ensures name !in WithinAt(schedules, now) && Priority(schedules[name]) > Priority(schedules[other]) ==>
              InCharge(schedules, name, s) && InCharge(schedules, other, s')
    // a lower-priority trigger ends: nothing changes, the other stays in charge
    ensures name !in WithinAt(schedules, now) && Priority(schedules[name]) < Priority(schedules[other]) ==>
              s' == s && InCharge(schedules, other, s)
  {
    hide IsWithin, Dependable, Carries;
    var before, open := WithinAt(schedules, now - 1), WithinAt(schedules, now);
    assert other in open && other in before && other != name;
    if name in open {
      assert before == open - {name};
      assert TopIs(schedules, before, other, s.active);
      StartStepEffect(schedules, name, now, s);
      assert Priority(schedules[name]) > Priority(schedules[other]) ==> IsTop(schedules, open, name);
      if IsTop(schedules, open, name) {
        assert TopIs(schedules, open, name, s'.active);
      } else {
        assert s' == s;
      }
    } else {
      assert before == open + {name} && open - {name} == open;
      EndStepEffect(schedules, name, now, s, s');
      if Priority(schedules[name]) > Priority(schedules[other]) {
        assert TopIs(schedules, before, name, s.active);
        assert TopIs(schedules, open, other, s'.active);
      } else if Priority(schedules[name]) < Priority(schedules[other]) {
        assert TopIs(schedules, before, other, s.active);
      }
    }
  }

  /** With distinct priorities there is one top. */
  predicate TopIs(schedules: Schedules, names: set<string>, top: string, active: string)
    requires names <= schedules.Keys
  {
    IsTop(schedules, names, top) && IsTop(schedules, names, active) && top == active
  }

  /** When the only open trigger ends, no trigger is active afterwards, an HPA that exists carries the end
      configuration exactly if that was accepted over the start bounds, and a trigger without one leaves
      the HPA as it was. */
  lemma OnlyTriggerEnds(schedules: Schedules, name: string, now: int, s: State, s': State)
    requires AllDependable(schedules) && name in schedules && Governs(schedules, now - 1, s)
    requires WithinAt(schedules, now - 1) == {name} && WithinAt(schedules, now) == {}
    requires EndStep(schedules, schedules[name], now, s, s')
    ensures InCharge(schedules, name, s) && s'.active == ""
    ensures var config := schedules[name].endHPAConfig;
            if s.hpa.None? || config.None? then s'.hpa == s.hpa
            else
              && s'.hpa.Some? && ValidHpa(s'.hpa.value)
              && (Carries(s'.hpa.value, config.value) <==> Accepts(s.hpa.value, config.value))
              && (Robust(config.value) ==> Carries(s'.hpa.value, config.value))
  {
    hide IsWithin, Dependable;
    assert WithinAt(schedules, now) - {schedules[name].name} == {};
    assert IsTop(schedules, {name}, s.active);
    if s.hpa.Some? && schedules[name].endHPAConfig.Some? {
      RobustIffNeverRejected(schedules[name].endHPAConfig.value);
    }
  }

  // ---------- The hypotheses are needed ----------

  ghost predicate ObeysRule(schedules: Schedules, start: int, minutes: seq<Minute>) {
    forall i :: 0 <= i < |minutes| ==> Governs(schedules, start + i, Last(minutes[i]))
  }

  /** Every run of a fresh context, whether or not the HPA exists, obeys the rule after every minute. */
  ghost predicate RunsObeyRule(schedules: Schedules) {
    forall start: int, hpa: Option<Hpa>, minutes: seq<Minute> ::
      (hpa.Some? ==> ValidHpa(hpa.value)) && Run(schedules, start, hpa, minutes) ==>
          ObeysRule(schedules, start, minutes)
  }

  function Alone(trigger: Trigger): Schedules {
    map[trigger.name := trigger]
  }

  function StartJobOf(trigger: Trigger): Job
    requires Schedulable(trigger)
  {
    CronEntryMatches(trigger, trigger.startTime, 0);
    StartJob(trigger.name, CronEntry(trigger, trigger.startTime).value)
  }

  function EndJobOf(trigger: Trigger): Job
    requires Schedulable(trigger)
  {
    CronEntryMatches(trigger, trigger.endTime, 0);
    EndJob(trigger.name, CronEntry(trigger, trigger.endTime).value)
  }

  lemma DueAlone(trigger: Trigger, now: int)
    requires Schedulable(trigger)
    ensures Due(Alone(trigger), StartJobOf(trigger), now) <==> StartFires(trigger, now)
    ensures Due(Alone(trigger), EndJobOf(trigger), now) <==> EndFires(trigger, now)
  {
    CronEntryMatches(trigger, trigger.startTime, 0);
    CronEntryMatches(trigger, trigger.endTime, 0);
  }

  lemma AloneWithin(trigger: Trigger, now: int)
    ensures WithinAt(Alone(trigger), now) == if IsWithin(trigger, now) then {trigger.name} else {}
    ensures !HigherPriorityActive(Alone(trigger), trigger, now)
  {
  }

  /** The first pass over a trigger on its own. */
  function FirstPass(trigger: Trigger, now: int, hpa: Option<Hpa>): State {
    var s := ScheduleStep(Alone(trigger), trigger, now, State("", hpa, []));
    s.(jobs := s.jobs + [DailyRefresh])
  }

  lemma FirstPassIs(trigger: Trigger, now: int, hpa: Option<Hpa>)
    requires Schedulable(trigger)
    ensures var s := FirstPass(trigger, now, hpa);
            && s.jobs == [StartJobOf(trigger), EndJobOf(trigger), DailyRefresh]
            && (IsWithin(trigger, now) ==>
                s.active == trigger.name && s.hpa == AfterUpdate(hpa, trigger.startHPAConfig))
            && (!IsWithin(trigger, now) ==> s.active == "" && (hpa.None? ==> s.hpa.None?))
  {
    hide CronEntry, AfterUpdate, RecursAt, ParseClock;
    AloneWithin(trigger, now);
    CronEntryMatches(trigger, trigger.startTime, 0);
    CronEntryMatches(trigger, trigger.endTime, 0);
    ScheduledJobs(Alone(trigger), trigger.name, now, State("", hpa, []));
    if hpa.None? {
      assert AfterUpdate(hpa, trigger.endHPAConfig) == hpa by { NoneUpdated(trigger.endHPAConfig); }
    }
  }

  lemma NoneUpdated(config: Option<HPAConfig>)
    ensures AfterUpdate(None, config) == None
  {
  }

  lemma FirstPassIsExecuted(trigger: Trigger, now: int, hpa: Option<Hpa>)
    requires Schedulable(trigger)
    ensures ExecuteStep(Alone(trigger), now, State("", hpa, []), FirstPass(trigger, now, hpa))
  {
    hide ScheduleStep;
    var order := [trigger];
    assert ExecuteOrder(Alone(trigger), order) by {
      assert order[0].name == trigger.name;
    }
    assert order[..0] == [];
    assert ScheduleAll(Alone(trigger), order, now, State("", hpa, []))
        == ScheduleStep(Alone(trigger), trigger, now, State("", hpa, []));
  }

  function Idle(s: State): (minute: Minute)
    ensures First(minute) == Last(minute) == s
  {
    Trace([], [s])
  }

  /** A run of one minute in which nothing but the first pass happens. */
  lemma FirstMinuteRuns(trigger: Trigger, now: int, hpa: Option<Hpa>)
    requires Schedulable(trigger)
    ensures Run(Alone(trigger), now, hpa, [Idle(FirstPass(trigger, now, hpa))])
  {
    hide ExecuteStep, FirstPass;
    FirstPassIsExecuted(trigger, now, hpa);
  }

  /** The same, and then one more minute. */
  lemma SecondMinuteRuns(trigger: Trigger, now: int, hpa: Option<Hpa>, minute: Minute)
    requires Schedulable(trigger) && First(minute) == FirstPass(trigger, now - 1, hpa)
    requires MinuteRun(Alone(trigger), now, minute) && NoneMissed(Alone(trigger), now, minute)
    ensures Run(Alone(trigger), now - 1, hpa, [Idle(FirstPass(trigger, now - 1, hpa)), minute])
  {
    hide ExecuteStep, FirstPass, MinuteRun, NoneMissed;
    var minutes := [Idle(FirstPass(trigger, now - 1, hpa)), minute];
    FirstMinuteRuns(trigger, now - 1, hpa);
    assert FirstMinute(Alone(trigger), now - 1, hpa, minutes[0]);
    assert now - 1 + 1 == now;
    assert Continues(Alone(trigger), now - 1, minutes, 1);
  }

  /** A window that no cron entry closes leaves the trigger active: a run that passes while
      the window is open and sees it closed in the next minute. */
  lemma StaleTrigger(trigger: Trigger, now: int)
    requires Schedulable(trigger) && trigger.name != ""
    requires IsWithin(trigger, now - 1) && !IsWithin(trigger, now) && !StartFires(trigger, now)
    requires !EndFires(trigger, now)
    ensures !RunsObeyRule(Alone(trigger))
  {
    hide IsWithin, StartFires, EndFires, Due, FirstPass, Run;
    DueAlone(trigger, now);
    AloneWithin(trigger, now);
    FirstPassIs(trigger, now - 1, None);
    var s := FirstPass(trigger, now - 1, None);
    SecondMinuteRuns(trigger, now, None, Idle(s));
    SecondMinuteBreaksRule(trigger, now, None, Idle(s));
  }

  lemma SecondMinuteBreaksRule(trigger: Trigger, now: int, hpa: Option<Hpa>, minute: Minute)
    requires Schedulable(trigger) && First(minute) == FirstPass(trigger, now - 1, hpa)
    requires (hpa.Some? ==> ValidHpa(hpa.value))
    requires Run(Alone(trigger), now - 1, hpa, [Idle(FirstPass(trigger, now - 1, hpa)), minute])
    requires !Governs(Alone(trigger), now, Last(minute))
    ensures !RunsObeyRule(Alone(trigger))
  {
    hide Run, Governs, FirstPass;
    var minutes := [Idle(FirstPass(trigger, now - 1, hpa)), minute];
    assert !ObeysRule(Alone(trigger), now - 1, minutes) by {
      assert minutes[1] == minute && now - 1 + 1 == now;
    }
  }

  /** A start entry firing outside the window activates the trigger all the same: a run that
      passes a minute before. */
  lemma StrayTrigger(trigger: Trigger, now: int)
    requires Schedulable(trigger) && trigger.name != ""
    requires StartFires(trigger, now) && !IsWithin(trigger, now - 1) && !IsWithin(trigger, now)
    ensures !RunsObeyRule(Alone(trigger))
  {
    hide IsWithin, StartFires, EndFires, Due, FirstPass, Run, MinuteRun, NoneMissed, Governs;
    FirstPassIs(trigger, now - 1, None);
    var s := FirstPass(trigger, now - 1, None);
    var minute := StrayMinute(trigger, now, s);
    SecondMinuteRuns(trigger, now, None, minute);
    assert !Governs(Alone(trigger), now, Last(minute)) by {
      AloneWithin(trigger, now);
      NotGoverned(Alone(trigger), now, Last(minute));
    }
    SecondMinuteBreaksRule(trigger, now, None, minute);
  }

  lemma NotGoverned(schedules: Schedules, now: int, s: State)
    requires WithinAt(schedules, now) == {} && s.active != ""
    ensures !Governs(schedules, now, s)
  {
  }

  /** The minute of a stray start: the end, if it is due as well, and then the start. */
  lemma StrayMinute(trigger: Trigger, now: int, s: State) returns (minute: Minute)
    requires Schedulable(trigger) && StartFires(trigger, now) && !IsWithin(trigger, now)
    requires s == State("", None, [StartJobOf(trigger), EndJobOf(trigger), DailyRefresh])
    ensures First(minute) == s && Last(minute).active == trigger.name
    ensures MinuteRun(Alone(trigger), now, minute) && NoneMissed(Alone(trigger), now, minute)
  {
    hide *;
    var start, end := StartJobOf(trigger), EndJobOf(trigger);
    var s' := s.(active := trigger.name);
    DueAlone(trigger, now);
    StraySteps(trigger, now, s);
    assert s.jobs[0] == start && s.jobs[1] == end;
    if EndFires(trigger, now) {
      minute := MinuteOfTwo(Alone(trigger), now, end, start, s, s, s');
    } else {
      minute := MinuteOfOne(Alone(trigger), now, start, s, s');
    }
  }

  /** One job fires, the only one that is due. */
  lemma MinuteOfOne(schedules: Schedules, now: int, job: Job, s: State, s': State) returns (minute: Minute)
    requires job in s.jobs && Due(schedules, job, now) && JobStep(schedules, now, job, s, s')
    requires forall other :: other in s.jobs && other != DailyRefresh && Due(schedules, other, now) ==> other == job
    ensures First(minute) == s && Last(minute) == s'
    ensures MinuteRun(schedules, now, minute) && NoneMissed(schedules, now, minute)
  {
    hide Due, JobStep;
    minute := Trace([job], [s, s']);
    assert FiresAt(schedules, now, minute, 0);
    assert minute.fired[0] == job;
  }

  /** Two jobs fire, the only ones that are due. */
  lemma MinuteOfTwo(schedules: Schedules, now: int, job: Job, next: Job, s: State, s1: State, s2: State)
    returns (minute: Minute)
    requires job in s.jobs && Due(schedules, job, now) && JobStep(schedules, now, job, s, s1)
    requires next in s1.jobs && Due(schedules, next, now) && JobStep(schedules, now, next, s1, s2)
    requires forall other :: other in s.jobs && other != DailyRefresh && Due(schedules, other, now) ==>
        other in [job, next]
    ensures First(minute) == s && Last(minute) == s2
    ensures MinuteRun(schedules, now, minute) && NoneMissed(schedules, now, minute)
  {
    hide Due, JobStep;
    minute := Trace([job, next], [s, s1, s2]);
    assert FiresAt(schedules, now, minute, 0) && FiresAt(schedules, now, minute, 1);
  }

  lemma StraySteps(trigger: Trigger, now: int, s: State)
    requires Schedulable(trigger) && !IsWithin(trigger, now) && s.active == "" && s.hpa == None
    ensures JobStep(Alone(trigger), now, EndJobOf(trigger), s, s)
    ensures JobStep(Alone(trigger), now, StartJobOf(trigger), s, s.(active := trigger.name))
  {
    hide IsWithin, CronEntry;
    AloneWithin(trigger, now);
  }

  lemma CarriedIsAccepted(hpa: Hpa, config: HPAConfig)
    requires ValidHpa(hpa) && Carries(hpa, config)
    ensures Accepts(hpa, config)
  {
  }

  /** A start configuration that some valid HPA rejects is lost when a context starts over that
      HPA inside the window. */
  lemma RejectedStart(trigger: Trigger)
    requires Schedulable(trigger) && WellScheduled(trigger)
    requires trigger.startHPAConfig.Some? && !Robust(trigger.startHPAConfig.value)
    ensures !RunsObeyRule(Alone(trigger))
  {
    var config := trigger.startHPAConfig.value;
    RobustIffNeverRejected(config);
    var hpa: Hpa :| ValidHpa(hpa) && !Accepts(hpa, config);
    if Carries(hpa, config) {
      CarriedIsAccepted(hpa, config);
    }
    hide IsWithin, WellScheduled, FirstPass, Run, Accepts, Carries, Robust;
    var now := OpeningMinute(trigger);
    AloneWithin(trigger, now);
    FirstPassIs(trigger, now, Some(hpa));
    FirstMinuteRuns(trigger, now, Some(hpa));
    var minutes: seq<Minute> := [Idle(FirstPass(trigger, now, Some(hpa)))];
    assert !Governs(Alone(trigger), now, Last(minutes[0]));
    assert !ObeysRule(Alone(trigger), now, minutes) by {
      assert now + 0 == now;
    }
  }

  lemma OpeningMinute(trigger: Trigger) returns (now: int)
    requires Schedulable(trigger) && WellScheduled(trigger)
    ensures IsWithin(trigger, now)
  {
    hide Lists, ParseClock;
    var d :| 0 <= d < 7 && Lists(trigger.interval.value.recurring, d);
    var local := MomentOn(d, MinutesSinceMidnight(ParseClock(trigger.startTime).value), 0);
    now := local - trigger.zoneOffset;
    assert Local(trigger, now) == local;
  }

  /** Exactly when the scheduler keeps its rule for a scheduled trigger on its own: every run of a
      fresh context obeys it if and only if the trigger meets the hypotheses of the run theorem. */
  lemma RunsObeyRuleIffDependable(trigger: Trigger)
    requires Schedulable(trigger) && trigger.name != ""
    ensures RunsObeyRule(Alone(trigger)) <==> Dependable(trigger)
  {
    hide IsWithin, StartFires, EndFires, Schedulable;
    if Dependable(trigger) {
      DependableRunsObeyRule(Alone(trigger));
    } else if WellScheduled(trigger) {
      RejectedStart(trigger);
    } else {
      var now := MisannouncedMinute(trigger);
      if StartFires(trigger, now) {
        StrayTrigger(trigger, now);
      } else {
        StaleTrigger(trigger, now);
      }
    }
  }

  predicate SubMap(part: Schedules, schedules: Schedules) {
    forall name :: name in part ==> name in schedules && part[name] == schedules[name]
  }

  /** For sets of triggers: of named triggers that all get cron entries, every selection obeys the rule in all
      runs if and only if each trigger meets the hypotheses. */
  lemma SelectionsObeyRuleIffAllDependable(schedules: Schedules)
    requires Keyed(schedules) && "" !in schedules
    requires forall name :: name in schedules ==> Schedulable(schedules[name])
    ensures (forall part: Schedules :: SubMap(part, schedules) ==> RunsObeyRule(part)) <==> AllDependable(schedules)
  {
    hide Dependable, Schedulable, RunsObeyRule;
    if AllDependable(schedules) {
      forall part: Schedules | SubMap(part, schedules) ensures RunsObeyRule(part) {
        DependableRunsObeyRule(part);
      }
    }
    if forall part: Schedules :: SubMap(part, schedules) ==> RunsObeyRule(part) {
      forall name | name in schedules ensures Dependable(schedules[name]) {
        assert SubMap(Alone(schedules[name]), schedules);
        RunsObeyRuleIffDependable(schedules[name]);
      }
    }
  }

  lemma DependableRunsObeyRule(schedules: Schedules)
    requires AllDependable(schedules)
    ensures RunsObeyRule(schedules)
  {
    hide AllDependable, Run, Governs;
    forall start: int, hpa: Option<Hpa>, minutes: seq<Minute>
      | (hpa.Some? ==> ValidHpa(hpa.value)) && Run(schedules, start, hpa, minutes)
      ensures ObeysRule(schedules, start, minutes)
    {
      RunRefinesRule(schedules, start, hpa, minutes);
    }
  }
}
