/** The scheduling context of one SmartHPA: its trigger schedules, the active
    trigger, the cron jobs it has registered, and the HPA it governs.

    Each callback is specified by what it does to a State value: a function where
    the code is deterministic, a relation where Go's map order and unstable sort
    leave the choice among equal priorities open. */
module Scheduler {
  import opened Options
  import opened Triggers
  import opened CronTab
  import opened HpaConfig

  datatype Job = StartJob(name: string, entry: string) | EndJob(name: string, entry: string) | DailyRefresh

  /** `hpa` is None when the API server has no such HPA. */
  datatype State = State(active: string, hpa: Option<Hpa>, jobs: seq<Job>)

  /** Schedules by trigger name. */
  type Schedules = map<string, Trigger>

  predicate Keyed(schedules: Schedules) {
    forall name :: name in schedules ==> schedules[name].name == name
  }

  function Priority(trigger: Trigger): int {
    if trigger.priority.Some? then trigger.priority.value else 0
  }

  /** The names of the triggers that are inside their window at `now`. */
  function WithinAt(schedules: Schedules, now: int): set<string> {
    set name | name in schedules && IsWithin(schedules[name], now)
  }

  predicate HigherPriorityActive(schedules: Schedules, trigger: Trigger, now: int) {
    exists name :: name in WithinAt(schedules, now) && name != trigger.name &&
        Priority(schedules[name]) > Priority(trigger)
  }

  predicate IsTop(schedules: Schedules, names: set<string>, top: string)
    requires names <= schedules.Keys
  {
    top in names && forall name :: name in names ==> Priority(schedules[name]) <= Priority(schedules[top])
  }

  function AfterUpdate(hpa: Option<Hpa>, config: Option<HPAConfig>): Option<Hpa> {
    if hpa.None? || config.None? then hpa else Some(Updated(hpa.value, config.value))
  }

  function Activated(trigger: Trigger, s: State): State {
    s.(active := trigger.name, hpa := AfterUpdate(s.hpa, trigger.startHPAConfig))
  }

  function StartStep(schedules: Schedules, trigger: Trigger, now: int, s: State): State {
    if HigherPriorityActive(schedules, trigger, now) then s else Activated(trigger, s)
  }

  ghost predicate EndStep(schedules: Schedules, trigger: Trigger, now: int, s: State, s': State) {
    var others := WithinAt(schedules, now) - {trigger.name};
    if others == {} then
      s' == s.(active := "", hpa := AfterUpdate(s.hpa, trigger.endHPAConfig))
    else
      exists top :: IsTop(schedules, others, top) &&
        s' == if Priority(schedules[top]) > Priority(trigger) then s else Activated(schedules[top], s)
  }

  ghost predicate NextHighestStep(schedules: Schedules, trigger: Trigger, now: int, s: State, s': State) {
    var others := WithinAt(schedules, now) - {trigger.name};
    if others == {} then
      s' == s.(active := "", hpa := AfterUpdate(s.hpa, trigger.endHPAConfig))
    else
      exists top :: IsTop(schedules, others, top) && s' == Activated(schedules[top], s)
  }

  function InitialStep(schedules: Schedules, trigger: Trigger, state: TimeWindowState, now: int, s: State): State {
    match state
    case Within => StartStep(schedules, trigger, now, s)
    case After =>
      if WithinAt(schedules, now) - {trigger.name} != {} then s
      else s.(hpa := AfterUpdate(s.hpa, trigger.endHPAConfig))
    case _ => s
  }

  function ScheduleStep(schedules: Schedules, trigger: Trigger, now: int, s: State): State {
    match WindowState(trigger, now)
    case Err(_) => s
    case Ok(state) =>
      var s1 := InitialStep(schedules, trigger, state, now, s);
      match (CronEntry(trigger, trigger.startTime), CronEntry(trigger, trigger.endTime))
      case (Ok(startCron), Ok(endCron)) =>
        s1.(jobs := s1.jobs + [StartJob(trigger.name, startCron), EndJob(trigger.name, endCron)])
      case _ => s1
  }

  function ScheduleAll(schedules: Schedules, order: seq<Trigger>, now: int, s: State): State {
    if order == [] then s
    else
      var last := |order| - 1;
      ScheduleStep(schedules, order[last], now, ScheduleAll(schedules, order[..last], now, s))
  }

  predicate ByPriority(triggers: seq<Trigger>) {
    forall i, j :: 0 <= i < j < |triggers| ==> Priority(triggers[i]) >= Priority(triggers[j])
  }

  predicate DistinctNames(triggers: seq<Trigger>) {
    forall i, j :: 0 <= i < j < |triggers| ==> triggers[i].name != triggers[j].name
  }

  /** A pass over every schedule with a valid interval, once each, in non-increasing priority. */
  ghost predicate ExecuteOrder(schedules: Schedules, order: seq<Trigger>) {
    && ByPriority(order)
    && DistinctNames(order)
    && (forall i :: 0 <= i < |order| ==> order[i].name in schedules && order[i] == schedules[order[i].name])
    && (forall name ::
          name in schedules && HasValidInterval(schedules[name]) <==>
          exists i :: 0 <= i < |order| && order[i].name == name)
  }

  ghost predicate ExecuteStep(schedules: Schedules, now: int, s: State, s': State) {
    exists order :: ExecuteOrder(schedules, order) &&
      s' == var s1 := ScheduleAll(schedules, order, now, s); s1.(jobs := s1.jobs + [DailyRefresh])
  }

  /** The schedules of a list of triggers: suspended ones are skipped, and of several with one name the last wins. */
  function Registered(triggers: seq<Trigger>): Schedules {
    if triggers == [] then map[]
    else
      var last := triggers[|triggers| - 1];
      var before := Registered(triggers[..|triggers| - 1]);
      if last.suspend then before else before[last.name := last]
  }

  method InsertByPriority(sorted: seq<Trigger>, trigger: Trigger) returns (result: seq<Trigger>)
    requires ByPriority(sorted)
    ensures ByPriority(result) && multiset(result) == multiset(sorted) + multiset{trigger}
  {
    var k := 0;
    while k < |sorted| && Priority(sorted[k]) > Priority(trigger)
      invariant 0 <= k <= |sorted|
      invariant forall j :: 0 <= j < k ==> Priority(sorted[j]) > Priority(trigger)
    {
      k := k + 1;
    }
    InsertedByPriority(sorted, k, trigger);
    InsertedMembers(sorted, k, trigger);
    result := Inserted(sorted, k, trigger);
  }

  method SortByPriority(triggers: seq<Trigger>) returns (sorted: seq<Trigger>)
    ensures multiset(sorted) == multiset(triggers)
    ensures ByPriority(sorted)
  {
    sorted := [];
    for i := 0 to |triggers|
      invariant multiset(sorted) == multiset(triggers[..i])
      invariant ByPriority(sorted)
    {
      assert triggers[..i + 1] == triggers[..i] + [triggers[i]];
      sorted := InsertByPriority(sorted, triggers[i]);
    }
    assert triggers[..|triggers|] == triggers;
  }

  function Inserted(sorted: seq<Trigger>, k: nat, trigger: Trigger): (inserted: seq<Trigger>)
    requires k <= |sorted|
    ensures |inserted| == |sorted| + 1 && inserted[k] == trigger
    ensures forall i :: 0 <= i < |inserted| && i != k ==> inserted[i] == sorted[if i < k then i else i - 1]
  {
    sorted[..k] + [trigger] + sorted[k..]
  }

  lemma InsertedByPriority(sorted: seq<Trigger>, k: nat, trigger: Trigger)
    requires ByPriority(sorted) && k <= |sorted|
    requires forall j :: 0 <= j < k ==> Priority(sorted[j]) >= Priority(trigger)
    requires k < |sorted| ==> Priority(sorted[k]) <= Priority(trigger)
    ensures ByPriority(Inserted(sorted, k, trigger))
  {
    var inserted := Inserted(sorted, k, trigger);
    forall i, j | 0 <= i < j < |inserted| ensures Priority(inserted[i]) >= Priority(inserted[j]) {
      if i < k {
      } else if i == k {
        assert inserted[j] == sorted[j - 1];
        assert k < j - 1 ==> Priority(sorted[k]) >= Priority(sorted[j - 1]);
      } else {
        assert inserted[i] == sorted[i - 1] && inserted[j] == sorted[j - 1];
      }
    }
  }

  lemma InsertedMembers(sorted: seq<Trigger>, k: nat, trigger: Trigger)
    requires k <= |sorted|
    ensures multiset(Inserted(sorted, k, trigger)) == multiset(sorted) + multiset{trigger}
  {
    assert sorted == sorted[..k] + sorted[k..];
  }

  lemma WithinRecurs(trigger: Trigger, now: int)
    ensures WindowState(trigger, now) == Ok(Within) ==> RecursAt(trigger, now)
  {
  }

  /** Sorting keeps the members and their distinctness. */
  lemma PermutationKeepsNames(triggers: seq<Trigger>, sorted: seq<Trigger>)
    requires multiset(sorted) == multiset(triggers) && DistinctNames(triggers)
    ensures DistinctNames(sorted)
    ensures forall trigger :: trigger in sorted <==> trigger in triggers
  {
    forall trigger ensures trigger in sorted <==> trigger in triggers {
      assert trigger in multiset(sorted) <==> trigger in multiset(triggers);
    }
    forall i, j | 0 <= i < j < |sorted| ensures sorted[i].name != sorted[j].name {
      if sorted[i].name == sorted[j].name {
        assert sorted[i] in triggers && sorted[j] in triggers;
        var a :| 0 <= a < |triggers| && triggers[a] == sorted[i];
        var b :| 0 <= b < |triggers| && triggers[b] == sorted[j];
        assert a == b;
        OccursTwice(sorted, i, j);
        OccursOnce(triggers, a);
      }
    }
  }

  lemma OccursTwice(triggers: seq<Trigger>, i: nat, j: nat)
    requires i < j < |triggers| && triggers[i] == triggers[j]
    ensures multiset(triggers)[triggers[i]] >= 2
  {
    assert triggers == triggers[..j] + triggers[j..];
    assert triggers[i] in triggers[..j] && triggers[j] in triggers[j..];
  }

  lemma OccursOnce(triggers: seq<Trigger>, a: nat)
    requires DistinctNames(triggers) && a < |triggers|
    ensures multiset(triggers)[triggers[a]] == 1
  {
    assert triggers == triggers[..a] + [triggers[a]] + triggers[a + 1..];
    assert triggers[a] !in triggers[..a] && triggers[a] !in triggers[a + 1..];
  }

  class SmartHPAContext {
    var schedules: Schedules
    var activeTriggerName: string
    var jobs: seq<Job>
    var hpa: Option<Hpa>

    constructor InitializeContext(triggers: seq<Trigger>, hpa: Option<Hpa>)
      ensures schedules == Registered(triggers) && Keyed(schedules)
      ensures Current() == State("", hpa, [])
    {
      schedules, activeTriggerName, jobs, this.hpa := map[], "", [], hpa;
      new;
      for i := 0 to |triggers|
        invariant schedules == Registered(triggers[..i]) && Keyed(schedules)
        invariant Current() == State("", hpa, [])
      {
        assert triggers[..i + 1][..i] == triggers[..i];
        if !triggers[i].suspend {
          schedules := schedules[triggers[i].name := triggers[i]];
        }
      }
      assert triggers[..|triggers|] == triggers;
    }

    function Current(): State
      reads this
    {
      State(activeTriggerName, hpa, jobs)
    }

    method UpdateHPAConfig(config: HPAConfig) returns (ok: bool)
      modifies this`hpa
      ensures hpa == AfterUpdate(old(hpa), Some(config))
      ensures ok == (old(hpa).Some? && Accepts(old(hpa).value, config))
    {
      if hpa.None? {
        return false;
      }
      var hpaCopy := new HpaObject.DeepCopy(hpa.value);
      ok := hpaCopy.ApplyHPAConfig(config);
      if ok {
        hpa := Some(hpaCopy.Spec());
      }
    }

    method HasHigherPriorityActive(trigger: Trigger, now: int) returns (higher: bool)
      requires Keyed(schedules)
      ensures higher == HigherPriorityActive(schedules, trigger, now)
    {
      var pending := schedules.Keys;
      while pending != {}
        invariant pending <= schedules.Keys
        invariant forall name :: name in schedules && name !in pending ==>
                    !(name in WithinAt(schedules, now) && name != trigger.name &&
                        Priority(schedules[name]) > Priority(trigger))
        decreases |pending|
      {
        var name :| name in pending;
        pending := pending - {name};
        var schedule := schedules[name];
        if schedule.name != trigger.name {
          var state := WindowState(schedule, now);
          if state == Ok(Within) && Priority(schedule) > Priority(trigger) {
            assert name in WithinAt(schedules, now);
            return true;
          }
        }
      }
      return false;
    }

    method GetActiveSchedulesSortedByPriority(excludeName: string, now: int) returns (active: seq<Trigger>)
      requires Keyed(schedules)
      ensures ByPriority(active) && DistinctNames(active)
      ensures forall trigger :: trigger in active <==>
                trigger.name in WithinAt(schedules, now) - {excludeName} && trigger == schedules[trigger.name]
    {
      hide WindowState, RecursAt;
      var found: seq<Trigger> := [];
      var pending := schedules.Keys;
      while pending != {}
        invariant pending <= schedules.Keys && DistinctNames(found)
        invariant forall trigger :: trigger in found <==>
                    && trigger.name in WithinAt(schedules, now) - {excludeName} && trigger.name !in pending
                    && trigger == schedules[trigger.name]
        decreases |pending|
      {
        var name :| name in pending;
        pending := pending - {name};
        var schedule := schedules[name];
        if schedule.name != excludeName {
          var state := WindowState(schedule, now);
          var recurs := NeedRecurring(schedule, now);
          WithinRecurs(schedule, now);
          if state == Ok(Within) && recurs {
            found := found + [schedule];
          }
        }
      }
      active := SortByPriority(found);
      PermutationKeepsNames(found, active);
    }

    method OnStart(trigger: Trigger, now: int)
      requires Keyed(schedules)
      modifies this`activeTriggerName, this`hpa
      ensures Current() == StartStep(schedules, trigger, now, old(Current()))
    {
      var higher := HasHigherPriorityActive(trigger, now);
      if higher {
        return;
      }
      activeTriggerName := trigger.name;
      if trigger.startHPAConfig.Some? {
        var _ := UpdateHPAConfig(trigger.startHPAConfig.value);
      }
    }

    method OnEnd(trigger: Trigger, now: int)
      requires Keyed(schedules)
      modifies this`activeTriggerName, this`hpa
      ensures EndStep(schedules, trigger, now, old(Current()), Current())
    {
      var activeSchedules := GetActiveSchedulesSortedByPriority(trigger.name, now);
      ghost var others := WithinAt(schedules, now) - {trigger.name};
      if |activeSchedules| > 0 {
        var top := activeSchedules[0];
        assert IsTop(schedules, others, top.name) by { FirstIsTop(schedules, others, activeSchedules); }
        if Priority(top) > Priority(trigger) {
          return;
        }
        activeTriggerName := top.name;
        if top.startHPAConfig.Some? {
          var _ := UpdateHPAConfig(top.startHPAConfig.value);
        }
        return;
      }
      assert others == {} by { NoneListed(schedules, others, activeSchedules); }
      activeTriggerName := "";
      if trigger.endHPAConfig.Some? {
        var _ := UpdateHPAConfig(trigger.endHPAConfig.value);
      }
    }

    method ApplyNextHighestPriorityConfig(current: Trigger, now: int)
      requires Keyed(schedules)
      modifies this`activeTriggerName, this`hpa
      ensures NextHighestStep(schedules, current, now, old(Current()), Current())
    {
      var activeSchedules := GetActiveSchedulesSortedByPriority(current.name, now);
      ghost var others := WithinAt(schedules, now) - {current.name};
      if |activeSchedules| > 0 {
        var top := activeSchedules[0];
        assert IsTop(schedules, others, top.name) by { FirstIsTop(schedules, others, activeSchedules); }
        activeTriggerName := top.name;
        if top.startHPAConfig.Some? {
          var _ := UpdateHPAConfig(top.startHPAConfig.value);
        }
        return;
      }
      assert others == {} by { NoneListed(schedules, others, activeSchedules); }
      activeTriggerName := "";
      if current.endHPAConfig.Some? {
        var _ := UpdateHPAConfig(current.endHPAConfig.value);
      }
    }

    method ApplyInitialConfig(trigger: Trigger, state: TimeWindowState, now: int)
      requires Keyed(schedules)
      modifies this`activeTriggerName, this`hpa
      ensures Current() == InitialStep(schedules, trigger, state, now, old(Current()))
    {
      match state {
        case Within =>
          var higher := HasHigherPriorityActive(trigger, now);
          if higher {
            return;
          }
          activeTriggerName := trigger.name;
          if trigger.startHPAConfig.Some? {
            var _ := UpdateHPAConfig(trigger.startHPAConfig.value);
          }
        case After =>
          var activeSchedules := GetActiveSchedulesSortedByPriority(trigger.name, now);
          ghost var others := WithinAt(schedules, now) - {trigger.name};
          if |activeSchedules| > 0 {
            assert activeSchedules[0].name in others;
            return;
          }
          assert others == {} by { NoneListed(schedules, others, activeSchedules); }
          if trigger.endHPAConfig.Some? {
            var _ := UpdateHPAConfig(trigger.endHPAConfig.value);
          }
        case _ =>
      }
    }

    method Schedule(trigger: Trigger, now: int)
      requires Keyed(schedules)
      modifies this`activeTriggerName, this`hpa, this`jobs
      ensures Current() == ScheduleStep(schedules, trigger, now, old(Current()))
    {
      var state := WindowState(trigger, now);
      if state.Err? {
        return;
      }
      ApplyInitialConfig(trigger, state.value, now);
      var startCron := CronEntry(trigger, trigger.startTime);
      if startCron.Err? {
        return;
      }
      var endCron := CronEntry(trigger, trigger.endTime);
      if endCron.Err? {
        return;
      }
      jobs := jobs + [StartJob(trigger.name, startCron.value)];
      jobs := jobs + [EndJob(trigger.name, endCron.value)];
    }

    /** Every schedule with a valid interval, highest priority first. */
    method SchedulesInOrder() returns (order: seq<Trigger>)
      requires Keyed(schedules)
      ensures ExecuteOrder(schedules, order)
    {
      hide HasValidInterval;
      var found: seq<Trigger> := [];
      var pending := schedules.Keys;
      while pending != {}
        invariant pending <= schedules.Keys && DistinctNames(found)
        invariant forall trigger :: trigger in found <==>
                    && trigger.name in schedules && trigger.name !in pending
                    && trigger == schedules[trigger.name] && HasValidInterval(trigger)
        decreases |pending|
      {
        var name :| name in pending;
        pending := pending - {name};
        if HasValidInterval(schedules[name]) {
          found := found + [schedules[name]];
        }
      }
      order := SortByPriority(found);
      PermutationKeepsNames(found, order);
      forall name ensures name in schedules && HasValidInterval(schedules[name])
          <==> exists i :: 0 <= i < |order| && order[i].name == name
      {
        if name in schedules && HasValidInterval(schedules[name]) {
          assert schedules[name] in order;
        }
      }
    }

    method Execute(now: int)
      requires Keyed(schedules)
      modifies this`activeTriggerName, this`hpa, this`jobs
      ensures ExecuteStep(schedules, now, old(Current()), Current())
    {
      hide ScheduleStep;
      var order := SchedulesInOrder();
      var processed: set<string> := {};
      for i := 0 to |order|
        invariant processed == set j | 0 <= j < i :: order[j].name
        invariant Current() == ScheduleAll(schedules, order[..i], now, old(Current()))
      {
        assert order[..i + 1][..i] == order[..i];
        if order[i].name !in processed {
          processed := processed + {order[i].name};
          Schedule(order[i], now);
        }
      }
      assert order[..|order|] == order;
      jobs := jobs + [DailyRefresh];
    }
  }

  lemma FirstIsTop(schedules: Schedules, others: set<string>, active: seq<Trigger>)
    requires others <= schedules.Keys && Keyed(schedules) && active != [] && ByPriority(active)
    requires forall trigger :: trigger in active <==> trigger.name in others && trigger == schedules[trigger.name]
    ensures IsTop(schedules, others, active[0].name)
  {
    assert active[0] in active;
    forall name | name in others ensures Priority(schedules[name]) <= Priority(active[0]) {
      assert schedules[name] in active;
    }
  }

  lemma NoneListed(schedules: Schedules, others: set<string>, active: seq<Trigger>)
    requires others <= schedules.Keys && Keyed(schedules)
    requires forall trigger :: trigger in active <==> trigger.name in others && trigger == schedules[trigger.name]
    ensures active == [] ==> others == {}
  {
    if name :| name in others {
      assert schedules[name] in active;
    }
  }
}
