/** Whole runs of a scheduling context. The context reacts only to cron edges; the
    claim is that after every minute it agrees with the level-triggered rule "the
    highest-priority trigger whose window contains now governs the HPA". */
module SchedulerRuns {
  import opened Options
  import opened Triggers
  import opened CronTab
  import opened HpaConfig
  import opened Scheduler

  // ---------- What a correct state is ----------

  predicate HpaValid(s: State) {
    s.hpa.Some? ==> ValidHpa(s.hpa.value)
  }

  /** The level-triggered rule: with no window open no trigger is active; otherwise the
      active trigger has maximum priority among the open ones and the HPA carries its bounds. */
  predicate Governs(schedules: Schedules, now: int, s: State) {
    var open := WithinAt(schedules, now);
    && HpaValid(s)
    && if open == {} then s.active == ""
       else
         && IsTop(schedules, open, s.active)
         && var config := schedules[s.active].startHPAConfig;
            (s.hpa.Some? && config.Some? ==> Carries(s.hpa.value, config.value))
  }

  // ---------- Minutes and runs ----------

  /** A job really registered for one of the schedules. */
  predicate Genuine(schedules: Schedules, job: Job) {
    match job
    case StartJob(name, entry) =>
      name in schedules && Schedulable(schedules[name]) &&
          CronEntry(schedules[name], schedules[name].startTime) == Ok(entry)
    case EndJob(name, entry) =>
      name in schedules && Schedulable(schedules[name]) &&
          CronEntry(schedules[name], schedules[name].endTime) == Ok(entry)
    case DailyRefresh => true
  }

  /** Only genuine jobs, and both jobs of every schedulable trigger; duplicates are allowed. */
  predicate AllRegistered(schedules: Schedules, jobs: seq<Job>) {
    && (forall job :: job in jobs ==> Genuine(schedules, job))
    && (forall name :: name in schedules && Schedulable(schedules[name]) ==> Registers(schedules[name], jobs))
  }

  predicate Registers(trigger: Trigger, jobs: seq<Job>) {
    && (CronEntry(trigger, trigger.startTime).Ok? ==>
        StartJob(trigger.name, CronEntry(trigger, trigger.startTime).value) in jobs)
    && (CronEntry(trigger, trigger.endTime).Ok? ==>
        EndJob(trigger.name, CronEntry(trigger, trigger.endTime).value) in jobs)
  }

  /** The cron entry of the job matches minute `now` in its trigger's zone. The refresh
      runs in the zone of the process, so it may fall on any minute. */
  predicate Due(schedules: Schedules, job: Job, now: int) {
    match job
    case DailyRefresh => true
    case _ => job.name in schedules && EntryMatches(job.entry, Local(schedules[job.name], now))
  }

  ghost predicate JobStep(schedules: Schedules, now: int, job: Job, s: State, s': State) {
    match job
    case StartJob(name, _) => name in schedules && s' == StartStep(schedules, schedules[name], now, s)
    case EndJob(name, _) => name in schedules && EndStep(schedules, schedules[name], now, s, s')
    case DailyRefresh => ExecuteStep(schedules, now, s, s')
  }

  /** The jobs fired in one minute, in order, and the states before, between and after them. */
  datatype Trace = Trace(fired: seq<Job>, states: seq<State>)
  type Minute = trace: Trace | |trace.states| == |trace.fired| + 1 witness Trace([], [State("", None, [])])

  /** Every fired job is registered and due; the order and the number of repeats are free. */
  ghost predicate MinuteRun(schedules: Schedules, now: int, minute: Minute) {
    forall i: nat :: i < |minute.fired| ==> FiresAt(schedules, now, minute, i)
  }

  ghost predicate FiresAt(schedules: Schedules, now: int, minute: Minute, i: nat)
    requires i < |minute.fired|
  {
    && minute.fired[i] in minute.states[i].jobs
    && Due(schedules, minute.fired[i], now)
    && JobStep(schedules, now, minute.fired[i], minute.states[i], minute.states[i + 1])
  }

  /** Every due start and end job registered when the minute begins fires at least once. */
  ghost predicate NoneMissed(schedules: Schedules, now: int, minute: Minute) {
    forall job :: job in minute.states[0].jobs && job != DailyRefresh && Due(schedules, job, now) ==>
        job in minute.fired
  }

  function First(minute: Minute): State {
    minute.states[0]
  }

  function Last(minute: Minute): State {
    minute.states[|minute.states| - 1]
  }

  ghost predicate FirstMinute(schedules: Schedules, now: int, hpa: Option<Hpa>, minute: Minute) {
    ExecuteStep(schedules, now, State("", hpa, []), First(minute)) && MinuteRun(schedules, now, minute)
  }

  ghost predicate NextMinute(schedules: Schedules, now: int, previous: Minute, minute: Minute) {
    First(minute) == Last(previous) && MinuteRun(schedules, now, minute) && NoneMissed(schedules, now, minute)
  }

  /** A run: the pass of a fresh context at minute `start`, then minute after minute. */
  ghost predicate Run(schedules: Schedules, start: int, hpa: Option<Hpa>, minutes: seq<Minute>) {
    && minutes != []
    && FirstMinute(schedules, start, hpa, minutes[0])
    && (forall i: nat :: 0 < i < |minutes| ==> Continues(schedules, start, minutes, i))
  }

  ghost predicate Continues(schedules: Schedules, start: int, minutes: seq<Minute>, i: nat)
    requires 0 < i < |minutes|
  {
    NextMinute(schedules, start + i, minutes[i - 1], minutes[i])
  }

  // ---------- Hypotheses ----------

  /** Cron entries exact, and a start configuration, if any, that no valid HPA rejects. */
  predicate Dependable(trigger: Trigger) {
    WellScheduled(trigger) && (trigger.startHPAConfig.Some? ==> Robust(trigger.startHPAConfig.value))
  }

  predicate AllDependable(schedules: Schedules) {
    Keyed(schedules) && forall name :: name in schedules ==> Dependable(schedules[name])
  }

  // ---------- One step ----------

  /** Jobs whose step settles the state at `now`, whatever the state was. */
  predicate Decisive(schedules: Schedules, now: int, job: Job) {
    var open := WithinAt(schedules, now);
    match job
    case StartJob(name, _) => IsTop(schedules, open, name)
    case EndJob(name, _) =>
      name in schedules && name !in open && forall other :: other in open ==>
          Priority(schedules[other]) <= Priority(schedules[name])
    case DailyRefresh => open != {}
  }

  /** Nothing that matters at `now` has changed. */
  predicate Unmoved(schedules: Schedules, now: int, s: State, s': State) {
    s'.active == s.active && (WithinAt(schedules, now) != {} ==> s'.hpa == s.hpa)
  }

  predicate Extends(s: State, s': State) {
    s.jobs <= s'.jobs && (s.hpa.Some? <==> s'.hpa.Some?) && (HpaValid(s) ==> HpaValid(s'))
  }

  lemma UnmovedGoverns(schedules: Schedules, now: int, s: State, s': State)
    requires Governs(schedules, now, s) && Unmoved(schedules, now, s, s') && HpaValid(s')
    ensures Governs(schedules, now, s')
  {
  }

  lemma ActivatedGoverns(schedules: Schedules, now: int, name: string, s: State)
    requires AllDependable(schedules) && IsTop(schedules, WithinAt(schedules, now), name) && HpaValid(s)
    ensures Governs(schedules, now, Activated(schedules[name], s))
  {
    var config := schedules[name].startHPAConfig;
    if s.hpa.Some? && config.Some? {
      RobustIffNeverRejected(config.value);
      assert Accepts(s.hpa.value, config.value);
    }
  }

  lemma TopExists(schedules: Schedules, names: set<string>) returns (top: string)
    requires names <= schedules.Keys && names != {}
    ensures IsTop(schedules, names, top)
  {
    top :| top in names;
    var pending := names - {top};
    while pending != {}
      invariant pending <= names && top in names
      invariant forall name :: name in names - pending ==> Priority(schedules[name]) <= Priority(schedules[top])
      decreases |pending|
    {
      var name :| name in pending;
      pending := pending - {name};
      if Priority(schedules[name]) > Priority(schedules[top]) {
        top := name;
      }
    }
  }

  lemma StartStepEffect(schedules: Schedules, name: string, now: int, s: State)
    requires AllDependable(schedules) && name in WithinAt(schedules, now) && HpaValid(s)
    ensures var s' := StartStep(schedules, schedules[name], now, s);
            && Extends(s, s')
            && (if IsTop(schedules, WithinAt(schedules, now), name) then Governs(schedules, now, s') else s' == s)
  {
    if IsTop(schedules, WithinAt(schedules, now), name) {
      ActivatedGoverns(schedules, now, name, s);
    }
  }

  lemma EndStepEffect(schedules: Schedules, name: string, now: int, s: State, s': State)
    requires AllDependable(schedules) && name in schedules && name !in WithinAt(schedules, now) && HpaValid(s)
    requires EndStep(schedules, schedules[name], now, s, s')
    ensures Extends(s, s')
    ensures if forall other :: other in WithinAt(schedules, now) ==>
        Priority(schedules[other]) <= Priority(schedules[name])
            then Governs(schedules, now, s') else s' == s
  {
    var open := WithinAt(schedules, now);
    assert open - {schedules[name].name} == open;
    if open != {} {
      var top :| IsTop(schedules, open, top) &&
                 s' == if Priority(schedules[top]) > Priority(schedules[name]) then s else Activated(schedules[top], s);
      ActivatedGoverns(schedules, now, top, s);
    }
  }

  /** One schedule of a pass: decisive exactly for an open trigger of maximum priority. */
  lemma ScheduleStepEffect(schedules: Schedules, name: string, now: int, s: State)
    requires AllDependable(schedules) && name in schedules && HpaValid(s)
    ensures var s' := ScheduleStep(schedules, schedules[name], now, s);
            && Extends(s, s')
            && (if IsTop(schedules, WithinAt(schedules, now), name) then Governs(schedules, now, s')
                else Unmoved(schedules, now, s, s'))
  {
    var open := WithinAt(schedules, now);
    if name in open {
      StartStepEffect(schedules, name, now, s);
    } else {
      assert open - {schedules[name].name} == open;
    }
  }

  predicate HoldsTop(schedules: Schedules, now: int, order: seq<Trigger>) {
    exists i :: 0 <= i < |order| && IsTop(schedules, WithinAt(schedules, now), order[i].name)
  }

  predicate PassedTo(schedules: Schedules, now: int, settled: bool, s: State, s': State) {
    Extends(s, s') && if settled then Governs(schedules, now, s') else Unmoved(schedules, now, s, s')
  }

  lemma PassesCompose(schedules: Schedules, now: int, settled: bool, settled': bool, s: State, s1: State, s2: State)
    requires HpaValid(s) && PassedTo(schedules, now, settled, s, s1) && PassedTo(schedules, now, settled', s1, s2)
    ensures PassedTo(schedules, now, settled || settled', s, s2)
  {
    if settled && !settled' {
      UnmovedGoverns(schedules, now, s1, s2);
    }
  }

  lemma {:induction false} PassEffect(schedules: Schedules, order: seq<Trigger>, now: int, s: State)
    requires AllDependable(schedules) && HpaValid(s)
    requires forall i :: 0 <= i < |order| ==> order[i].name in schedules && order[i] == schedules[order[i].name]
    ensures PassedTo(schedules, now, HoldsTop(schedules, now, order), s, ScheduleAll(schedules, order, now, s))
  {
    if order != [] {
      var last := |order| - 1;
      var s1 := ScheduleAll(schedules, order[..last], now, s);
      PassEffect(schedules, order[..last], now, s);
      ScheduleStepEffect(schedules, order[last].name, now, s1);
      var atLast := IsTop(schedules, WithinAt(schedules, now), order[last].name);
      PassesCompose(schedules, now, HoldsTop(schedules, now, order[..last]), atLast,
                    s, s1, ScheduleStep(schedules, order[last], now, s1));
      HoldsTopSplits(schedules, now, order);
    }
  }

  lemma HoldsTopSplits(schedules: Schedules, now: int, order: seq<Trigger>)
    requires order != []
    ensures HoldsTop(schedules, now, order)
       <==> || HoldsTop(schedules, now, order[..|order| - 1])
            || IsTop(schedules, WithinAt(schedules, now), order[|order| - 1].name)
  {
    hide IsTop, IsWithin;
    var last := |order| - 1;
    if i :| 0 <= i < last && IsTop(schedules, WithinAt(schedules, now), order[i].name) {
      assert order[..last][i] == order[i];
    }
  }

  /** A pass at any minute and from any state puts a top trigger in charge when a window is
      open, so no other trigger's end configuration survives; otherwise it leaves the active name alone. */
  lemma ExecuteEffect(schedules: Schedules, now: int, s: State, s': State)
    requires AllDependable(schedules) && HpaValid(s) && ExecuteStep(schedules, now, s, s')
    ensures Extends(s, s')
    ensures if WithinAt(schedules, now) != {} then Governs(schedules, now, s') else s'.active == s.active
  {
    var order: seq<Trigger> :| ExecuteOrder(schedules, order) &&
                 s' == var s1 := ScheduleAll(schedules, order, now, s); s1.(jobs := s1.jobs + [DailyRefresh]);
    PassEffect(schedules, order, now, s);
    if WithinAt(schedules, now) != {} {
      var top := TopExists(schedules, WithinAt(schedules, now));
      RecurringIsValid(schedules[top], now);
      var i :| 0 <= i < |order| && order[i].name == top;
    }
  }

  /** One fired job either settles the state at `now` or changes nothing that matters,
      and which of the two does not depend on the state. */
  lemma JobEffect(schedules: Schedules, now: int, job: Job, s: State, s': State)
    requires AllDependable(schedules) && HpaValid(s)
    requires Genuine(schedules, job) && Due(schedules, job, now) && JobStep(schedules, now, job, s, s')
    ensures PassedTo(schedules, now, Decisive(schedules, now, job), s, s')
  {
    match job {
      case StartJob(name, _) =>
        WellScheduledEdges(schedules[name], now);
        StartStepEffect(schedules, name, now, s);
      case EndJob(name, _) =>
        WellScheduledEdges(schedules[name], now);
        EndStepEffect(schedules, name, now, s, s');
      case DailyRefresh =>
        ExecuteEffect(schedules, now, s, s');
    }
  }

  // ---------- Registered jobs ----------

  lemma {:induction false} PassRegisters(schedules: Schedules, order: seq<Trigger>, now: int, s: State)
    requires Keyed(schedules)
    requires forall i :: 0 <= i < |order| ==>
        order[i].name in schedules && order[i] == schedules[order[i].name] && HasValidInterval(order[i])
    requires forall job :: job in s.jobs ==> Genuine(schedules, job)
    ensures var s' := ScheduleAll(schedules, order, now, s);
            && s.jobs <= s'.jobs
            && (forall job :: job in s'.jobs ==> Genuine(schedules, job))
            && (forall i :: 0 <= i < |order| && Schedulable(order[i]) ==> Registers(order[i], s'.jobs))
  {
    hide Genuine, Registers, Schedulable, ScheduleStep, HasValidInterval;
    if order != [] {
      var last := |order| - 1;
      var s1 := ScheduleAll(schedules, order[..last], now, s);
      PassRegisters(schedules, order[..last], now, s);
      ScheduleRegisters(schedules, order[last].name, now, s1);
      var s2 := ScheduleStep(schedules, order[last], now, s1);
      forall i | 0 <= i < |order| && Schedulable(order[i]) ensures Registers(order[i], s2.jobs) {
        if i < last {
          assert order[..last][i] == order[i];
          RegistersGrows(order[i], s1.jobs, s2.jobs);
        }
      }
    }
  }

  lemma RegistersGrows(trigger: Trigger, jobs: seq<Job>, more: seq<Job>)
    requires Registers(trigger, jobs) && jobs <= more
    ensures Registers(trigger, more)
  {
    assert more == jobs + more[|jobs|..];
  }

  lemma ScheduleRegisters(schedules: Schedules, name: string, now: int, s: State)
    requires Keyed(schedules) && name in schedules && HasValidInterval(schedules[name])
    requires forall job :: job in s.jobs ==> Genuine(schedules, job)
    ensures var s' := ScheduleStep(schedules, schedules[name], now, s);
            && s.jobs <= s'.jobs
            && (forall job :: job in s'.jobs ==> Genuine(schedules, job))
            && (Schedulable(schedules[name]) ==> Registers(schedules[name], s'.jobs))
  {
    if WindowState(schedules[name], now).Ok? {
      CronEntryMatches(schedules[name], schedules[name].startTime, 0);
      CronEntryMatches(schedules[name], schedules[name].endTime, 0);
      ScheduledJobs(schedules, name, now, s);
      AddedJobs(schedules, name, s.jobs);
    }
  }

  /** The two jobs of a schedulable trigger. */
  function JobsOf(schedules: Schedules, name: string): (jobs: seq<Job>)
    requires name in schedules
    requires CronEntry(schedules[name], schedules[name].startTime).Ok?
    requires CronEntry(schedules[name], schedules[name].endTime).Ok?
  {
    [StartJob(name, CronEntry(schedules[name], schedules[name].startTime).value),
     EndJob(name, CronEntry(schedules[name], schedules[name].endTime).value)]
  }

  lemma AddedJobs(schedules: Schedules, name: string, jobs: seq<Job>)
    requires Keyed(schedules) && name in schedules && Schedulable(schedules[name])
    requires CronEntry(schedules[name], schedules[name].startTime).Ok?
    requires CronEntry(schedules[name], schedules[name].endTime).Ok?
    requires forall job :: job in jobs ==> Genuine(schedules, job)
    ensures var more := jobs + JobsOf(schedules, name);
            && jobs <= more
            && (forall job :: job in more ==> Genuine(schedules, job))
            && Registers(schedules[name], more)
  {
    hide CronEntry, Schedulable;
    var added := JobsOf(schedules, name);
    assert (jobs + added)[|jobs|] == added[0] && (jobs + added)[|jobs| + 1] == added[1];
  }

  lemma ScheduledJobs(schedules: Schedules, name: string, now: int, s: State)
    requires Keyed(schedules) && name in schedules && WindowState(schedules[name], now).Ok?
    requires CronEntry(schedules[name], schedules[name].startTime).Ok?
    requires CronEntry(schedules[name], schedules[name].endTime).Ok?
    ensures ScheduleStep(schedules, schedules[name], now, s).jobs == s.jobs + JobsOf(schedules, name)
  {
    hide CronEntry, WindowState, WithinAt, StartStep, HigherPriorityActive;
    InitialKeepsJobs(schedules, schedules[name], WindowState(schedules[name], now).value, now, s);
    hide InitialStep;
  }

  lemma InitialKeepsJobs(schedules: Schedules, trigger: Trigger, state: TimeWindowState, now: int, s: State)
    ensures InitialStep(schedules, trigger, state, now, s).jobs == s.jobs
  {
    hide IsWithin, AfterUpdate;
  }

  /** A pass leaves both jobs of every schedulable trigger registered, and only genuine jobs. */
  lemma ExecuteRegisters(schedules: Schedules, now: int, s: State, s': State)
    requires Keyed(schedules) && ExecuteStep(schedules, now, s, s')
    requires forall job :: job in s.jobs ==> Genuine(schedules, job)
    ensures AllRegistered(schedules, s'.jobs)
  {
    hide Registers, ScheduleStep, CronEntry, HasValidInterval;
    var order: seq<Trigger> :| ExecuteOrder(schedules, order) &&
                 s' == var s1 := ScheduleAll(schedules, order, now, s); s1.(jobs := s1.jobs + [DailyRefresh]);
    PassRegisters(schedules, order, now, s);
    var s1 := ScheduleAll(schedules, order, now, s);
    forall name | name in schedules && Schedulable(schedules[name]) ensures Registers(schedules[name], s'.jobs) {
      var i :| 0 <= i < |order| && order[i].name == name;
      RegistersGrows(order[i], s1.jobs, s'.jobs);
    }
  }

  lemma RegisteredAfterJob(schedules: Schedules, now: int, job: Job, s: State, s': State)
    requires AllDependable(schedules) && AllRegistered(schedules, s.jobs) && JobStep(schedules, now, job, s, s')
    ensures AllRegistered(schedules, s'.jobs)
  {
    if job == DailyRefresh {
      ExecuteRegisters(schedules, now, s, s');
    }
  }

  // ---------- One minute ----------

  /** After the first `n` jobs of a minute. */
  lemma {:induction false} MinutePrefix(schedules: Schedules, now: int, minute: Minute, n: nat)
    requires AllDependable(schedules) && MinuteRun(schedules, now, minute) && n <= |minute.fired|
    requires AllRegistered(schedules, First(minute).jobs) && HpaValid(First(minute))
    ensures AllRegistered(schedules, minute.states[n].jobs)
    ensures PassedTo(schedules, now, SomeDecisive(schedules, now, minute.fired[..n]), First(minute), minute.states[n])
  {
    hide *;
    if n == 0 {
      NoJobs(schedules, now, minute);
    } else {
      MinutePrefix(schedules, now, minute, n - 1);
      FiredIs(schedules, now, minute, n - 1);
      var job, before := minute.fired[n - 1], minute.fired[..n - 1];
      OneMoreJob(schedules, now, SomeDecisive(schedules, now, before), First(minute),
                 job, minute.states[n - 1], minute.states[n]);
      SomeDecisiveMore(schedules, now, before, job);
      assert minute.fired[..n] == before + [job];
    }
  }

  lemma NoJobs(schedules: Schedules, now: int, minute: Minute)
    requires AllRegistered(schedules, First(minute).jobs)
    ensures AllRegistered(schedules, minute.states[0].jobs)
    ensures PassedTo(schedules, now, SomeDecisive(schedules, now, minute.fired[..0]), First(minute), minute.states[0])
  {
    hide Decisive, AllRegistered;
    assert !SomeDecisive(schedules, now, minute.fired[..0]);
  }

  lemma FiredIs(schedules: Schedules, now: int, minute: Minute, i: nat)
    requires MinuteRun(schedules, now, minute) && i < |minute.fired|
    ensures minute.fired[i] in minute.states[i].jobs && Due(schedules, minute.fired[i], now)
    ensures JobStep(schedules, now, minute.fired[i], minute.states[i], minute.states[i + 1])
  {
    hide Due, JobStep;
    assert FiresAt(schedules, now, minute, i);
  }

  lemma OneMoreJob(schedules: Schedules, now: int, before: bool, first: State, job: Job, s: State, s': State)
    requires AllDependable(schedules) && AllRegistered(schedules, s.jobs) && HpaValid(first)
    requires PassedTo(schedules, now, before, first, s)
    requires job in s.jobs && Due(schedules, job, now) && JobStep(schedules, now, job, s, s')
    ensures AllRegistered(schedules, s'.jobs)
    ensures PassedTo(schedules, now, before || Decisive(schedules, now, job), first, s')
  {
    hide Due, JobStep, Decisive, Governs, Unmoved, Genuine, Registers, Dependable;
    JobEffect(schedules, now, job, s, s');
    RegisteredAfterJob(schedules, now, job, s, s');
    PassesCompose(schedules, now, before, Decisive(schedules, now, job), first, s, s');
  }

  lemma SomeDecisiveMore(schedules: Schedules, now: int, jobs: seq<Job>, job: Job)
    ensures SomeDecisive(schedules, now, jobs + [job])
       <==> SomeDecisive(schedules, now, jobs) || Decisive(schedules, now, job)
  {
    hide Decisive;
  }

  predicate SomeDecisive(schedules: Schedules, now: int, jobs: seq<Job>) {
    exists job :: job in jobs && Decisive(schedules, now, job)
  }

  /** If no edge of this minute is decisive, the state of the previous minute is still right. */
  lemma QuietMinute(schedules: Schedules, now: int, s: State, s': State)
    requires AllDependable(schedules) && Governs(schedules, now - 1, s) && Unmoved(schedules, now, s, s')
    requires HpaValid(s')
    requires forall name :: name in schedules && StartFires(schedules[name], now) ==>
               !IsTop(schedules, WithinAt(schedules, now), name)
    requires forall name :: name in schedules && EndFires(schedules[name], now) ==>
               exists other :: other in WithinAt(schedules, now) &&
                   Priority(schedules[other]) > Priority(schedules[name])
    ensures Governs(schedules, now, s')
  {
    var before, open := WithinAt(schedules, now - 1), WithinAt(schedules, now);
    forall name | name in schedules
      ensures name in open && name !in before ==> StartFires(schedules[name], now)
      ensures name in before && name !in open ==> EndFires(schedules[name], now)
    {
      WellScheduledEdges(schedules[name], now);
    }
    if open != {} {
      var top := TopExists(schedules, open);
      assert top in before;
    }
  }

  /** From a state right for the previous minute, any order and any repetition of the due
      callbacks, with refreshes in between, ends in a state right for this one. */
  lemma MinuteSettles(schedules: Schedules, now: int, minute: Minute)
    requires AllDependable(schedules) && MinuteRun(schedules, now, minute) && NoneMissed(schedules, now, minute)
    requires AllRegistered(schedules, First(minute).jobs) && Governs(schedules, now - 1, First(minute))
    ensures Governs(schedules, now, Last(minute)) && AllRegistered(schedules, Last(minute).jobs)
  {
    hide EntryMatches, CronEntry, IsWithin;
    var n := |minute.fired|;
    MinutePrefix(schedules, now, minute, n);
    assert minute.fired[..n] == minute.fired;
    if !SomeDecisive(schedules, now, minute.fired) {
      var open := WithinAt(schedules, now);
      forall name | name in schedules && StartFires(schedules[name], now) ensures !IsTop(schedules, open, name) {
        var job := StartJob(name, CronEntry(schedules[name], schedules[name].startTime).value);
        assert Registers(schedules[name], First(minute).jobs);
        assert job in minute.fired && !Decisive(schedules, now, job);
      }
      forall name | name in schedules && EndFires(schedules[name], now)
        ensures exists other :: other in open && Priority(schedules[other]) > Priority(schedules[name])
      {
        var job := EndJob(name, CronEntry(schedules[name], schedules[name].endTime).value);
        assert Registers(schedules[name], First(minute).jobs);
        WellScheduledEdges(schedules[name], now);
        assert job in minute.fired && !Decisive(schedules, now, job);
      }
      QuietMinute(schedules, now, First(minute), Last(minute));
    }
  }

  // ---------- Whole runs ----------

  lemma FirstMinuteSettles(schedules: Schedules, start: int, hpa: Option<Hpa>, minute: Minute)
    requires AllDependable(schedules) && (hpa.Some? ==> ValidHpa(hpa.value))
    requires FirstMinute(schedules, start, hpa, minute)
    ensures Settled(schedules, start, Last(minute))
  {
    var s0 := First(minute);
    ExecuteEffect(schedules, start, State("", hpa, []), s0);
    ExecuteRegisters(schedules, start, State("", hpa, []), s0);
    MinutePrefix(schedules, start, minute, |minute.fired|);
    PassesCompose(schedules, start, true, SomeDecisive(schedules, start, minute.fired[..|minute.fired|]), s0, s0,
                  Last(minute));
  }

  /** Right after a minute, and right for the next one. */
  predicate Settled(schedules: Schedules, now: int, s: State) {
    Governs(schedules, now, s) && AllRegistered(schedules, s.jobs)
  }

  lemma NextMinuteSettles(schedules: Schedules, start: int, minutes: seq<Minute>, i: nat)
    requires AllDependable(schedules) && 0 < i < |minutes| && Continues(schedules, start, minutes, i)
    requires Settled(schedules, start + (i - 1), Last(minutes[i - 1]))
    ensures Settled(schedules, start + i, Last(minutes[i]))
  {
    hide Governs, AllRegistered;
    assert start + (i - 1) == start + i - 1;
    MinuteSettles(schedules, start + i, minutes[i]);
  }

  lemma {:induction false} RunSettles(schedules: Schedules, start: int, hpa: Option<Hpa>, minutes: seq<Minute>, i: nat)
    requires AllDependable(schedules) && (hpa.Some? ==> ValidHpa(hpa.value))
    requires Run(schedules, start, hpa, minutes) && i < |minutes|
    ensures Settled(schedules, start + i, Last(minutes[i]))
  {
    hide Settled;
    if i == 0 {
      FirstMinuteSettles(schedules, start, hpa, minutes[0]);
    } else {
      RunSettles(schedules, start, hpa, minutes, i - 1);
      NextMinuteSettles(schedules, start, minutes, i);
    }
  }

  /** Whole-run refinement: however the callbacks of each minute are ordered and repeated,
      after every minute the edge-triggered context agrees with the level-triggered rule. */
  lemma RunRefinesRule(schedules: Schedules, start: int, hpa: Option<Hpa>, minutes: seq<Minute>)
    requires AllDependable(schedules) && (hpa.Some? ==> ValidHpa(hpa.value))
    requires Run(schedules, start, hpa, minutes)
    ensures forall i :: 0 <= i < |minutes| ==> Governs(schedules, start + i, Last(minutes[i]))
    ensures "" !in schedules ==>
              forall i :: 0 <= i < |minutes| ==>
                  (Last(minutes[i]).active == "" <==> WithinAt(schedules, start + i) == {})
  {
    forall i | 0 <= i < |minutes| ensures Governs(schedules, start + i, Last(minutes[i])) {
      RunSettles(schedules, start, hpa, minutes, i);
    }
  }
}
