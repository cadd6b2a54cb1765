# SmartHPA: a verified model

SmartHPA is a Kubernetes controller that switches the replica bounds of a HorizontalPodAutoscaler (HPA)
by time of day. A custom resource lists triggers, each with days, a time window, a priority and two
replica configurations. This project models three parts of it in Dafny and proves what they promise.

**The scheduler** reacts to edges. For each trigger two cron jobs call back when the window opens and
closes, and a pass over all triggers runs at start-up and on every daily refresh, registering the jobs once
more each time. What it is for is a rule about levels: at every minute the highest-priority trigger whose
window is open governs the HPA. `SchedulerRuns.RunRefinesRule` proves that the one implements the other over
every run, with the callbacks of a minute in any order and repeated at will.

The theorem needs two conditions on each trigger. Cron entries coincide with window edges if and only if the
trigger is *well scheduled* (`CronTab.EdgesExactIff`). For a scheduled trigger on its own, all runs of a fresh
context obey the rule if and only if it is also *robust*, that is, no valid HPA rejects its start configuration
(`SchedulerLaws.RunsObeyRuleIffDependable`). Triggers that are never scheduled, because they have no interval or
a clock text that Go cannot parse, are harmless and allowed.

**The control plane** (reconciler, queue, workers) builds and drops the scheduling contexts. Modules
`Lifecycle` and `ControlPlane` prove that no context outlives its object, that each key has at most one live
context, and that once specs stop changing the contexts of all live objects that want scheduling, and whose
HPA exists, catch up with them. The context of an up-to-date object that is edited to drop its triggers or its
reference does not: it stays outdated until the object is edited again (`Lifecycle.EditedAwayStaysOutdated`).

**The generators** in `ml/` compute triggers from metrics. Their output is shown to meet the hypotheses of the
run theorem. For the first, `TriggerGenerator.SlotsAreServed` goes from clusters of quarter-hours to the running
scheduler: every slot of a cluster that survives refinement, and whose pattern is not cut off by more confident
ones when there are too many, is served by a trigger of at least the right priority, except at 23:59. For the
second, `PostprocessorLaws.HoursAreServed` does the same for the hours of every pattern before 23.

## How it is organised

| file | content |
|---|---|
| Options, Text, Calendar, Sequences | results, text operations, minutes and weekdays, sorting and averages |
| Triggers, CronTab | the trigger type, its day filter, windows, cron entries and when they agree |
| HpaConfig | applying a replica configuration, runs of updates |
| Scheduler | the context object; each callback is tied to a step on its state |
| SchedulerRuns, SchedulerLaws, SchedulerPasses | minutes and runs, the rule, confluence, the need for the hypotheses, what a pass does while no window is open |
| Lifecycle, ControlPlane | atomic steps over objects, queue and contexts; the objects that carry them out |
| PatternAnalyzer, GeneratedTriggers, TriggerGenerator | clusters to patterns to trigger suggestions |
| Postprocessor, PostprocessorLaws, Preprocessor, DataFetcher | the second generator: triggers and their fate in the scheduler, aggregation, merging of series |

A step is a function of the state where the code is deterministic and a relation where Go's map iteration
and unstable sort leave the choice among equal priorities open. Time is an absolute minute; a trigger's zone
is a fixed offset from UTC. The methods of the objects are proved to take these steps, and the theorems
are about the steps.

## Where the code and its documentation differ

- The design document says overnight windows are handled (docs/ANALYSIS_MODULE_DESIGN.md:115, 205). On some but
  not all days they are not: the window is cut off at the midnight after the last listed day with no callback,
  and the trigger stays active (`CronTab.SilentMidnight`, `SchedulerLaws.StaleTrigger`).
- A date range passes no minute of its end date, and its days are those of UTC whatever the zone
  (`Triggers.DateRangePasses`), while the design document speaks of falling within the two (line 122).
- Date ranges are offered as an alternative to weekdays (docs/ANALYSIS_MODULE_DESIGN.md:102), but their cron
  entries fire on every day, also outside the range (`CronTab.StrayStart`).
- The second generator's deduplication announces that it removes overlapping triggers (ml/v2/postprocessor.py:175);
  it removes those with an equal window only.
- A pattern of hours around midnight, such as the night and off-peak patterns of the model (ml/v2/model.py:94, 189),
  is meant for those hours but gets the window of its least and greatest hour, 00:00 to 23:00, and so is open all
  day (`PostprocessorLaws.NightIsAllDay`, `PostprocessorLaws.OffPeakIsAllDay`). With both inferred, off-peak has the
  window of night and is dropped (`PostprocessorLaws.NightDisplacesOffPeak`).
- A pattern of hour 23 alone yields the window from 23:00 to 23:00, which is never open
  (`PostprocessorLaws.WellScheduledIffBefore23`).

Unlike the first generator, the second does not make names unique. That is enough for what its model infers, at most
one pattern of each kind; `PostprocessorLaws.NamesDifferIff` says exactly when it is enough for other patterns.

## Model

| member | source | states |
|---|---|---|
| SchedulerRuns.RunRefinesRule | internal/scheduler/scheduler.go:464-818 | In every run of a context, from its first pass on, with the callbacks of each minute in any order and repeated at will and with refreshes in between, the state after each minute obeys the rule: no open window, no active trigger; otherwise the active trigger has maximum priority among the open ones and an existing HPA carries its start bounds |
| SchedulerRuns.MinuteSettles | internal/scheduler/scheduler.go:581-652 | One minute of the above: from a state right for the minute before, any order and any repetition of the due callbacks ends right for this one, with all jobs still registered |
| SchedulerRuns.JobEffect | internal/scheduler/scheduler.go:581-652 | A due callback either settles the state for its minute or changes nothing that matters, and which of the two does not depend on the state it meets |
| SchedulerRuns.MinutePrefix | internal/scheduler/scheduler.go:581-652 | After any prefix of the callbacks of a minute, the state is settled exactly when one of them was decisive, and otherwise unmoved |
| SchedulerRuns.QuietMinute | internal/scheduler/scheduler.go:531-551 | If no window edge of a minute is decisive, the state of the minute before is still right |
| SchedulerRuns.ExecuteEffect | internal/scheduler/scheduler.go:770-809 | A pass at any minute and from any state puts a top-priority open trigger in charge, so that no end configuration of another trigger survives; with no open window it leaves the active name alone |
| SchedulerRuns.ExecuteRegisters | internal/scheduler/scheduler.go:554-578 | A pass leaves the start and end job of every schedulable trigger registered and only genuine jobs, whatever duplicates there were |
| SchedulerRuns.ScheduleStepEffect | internal/scheduler/scheduler.go:493-529 | Scheduling one trigger settles the state exactly if the trigger is a top-priority open one, and otherwise moves neither the active name nor, while any window is open, the HPA |
| SchedulerPasses.PassWithNoneOpen | internal/scheduler/scheduler.go:513-527 | The other half of a pass: while no window is open it leaves the active name alone, and the HPA comes out updated, in some order of non-increasing priority, by the end configurations of exactly the triggers with readable clock times that the day filter passes and whose end minute is at or before now |
| SchedulerPasses.PassBeforeAnyCloses | internal/scheduler/scheduler.go:493-529 | With no window open and none closed today a pass leaves the HPA alone |
| SchedulerPasses.NotYetOpenLeavesHpa | internal/scheduler/scheduler.go:428-440 | A pass over a trigger whose day is not today, or whose window opens later today, changes neither active name nor HPA |
| SchedulerPasses.ClosedLeavesEndBounds | internal/scheduler/scheduler.go:513-527 | A restart after the window of a trigger on its own leaves its end bounds if these are accepted, and otherwise the HPA as it was |
| SchedulerPasses.UnscheduledIsIdle | api/v1alpha1/smarthorizontalpodautoscaler_types.go:157-163 | A trigger with neither a recurrence nor both dates, or with an unreadable clock time, is never open, fires no entry, and a pass over it only adds a refresh |
| SchedulerPasses.UnsetPriorityIsZero | internal/scheduler/scheduler.go:364-370 | A trigger without a priority gives way exactly to open triggers of positive priority, as one of priority zero does |
| SchedulerLaws.Confluence | internal/scheduler/scheduler.go:581-652 | Two executions of one minute, from states right for the minute before, end with equal active priority; with distinct open priorities with the same active trigger, and with complete configurations, if the HPA exists in both or in neither, with the same HPA |
| SchedulerLaws.RuleIsUnique | docs/ANALYSIS_MODULE_DESIGN.md:129-134 | The priority rule determines the state: active name and HPA are unique when open priorities are distinct and start configurations complete |
| SchedulerLaws.EarlyReturnIsSound | internal/scheduler/scheduler.go:607-652 | When one trigger closes alone in a minute, the end callback with its early return and the plain search for the next highest trigger reach the same state |
| SchedulerLaws.RunsObeyRuleIffDependable | internal/scheduler/scheduler.go:391-461 | For a named trigger that gets cron entries, on its own, every run of a fresh context, over any valid HPA or none, obeys the rule after every minute if and only if the trigger is well scheduled and its start configuration is one that no valid HPA rejects |
| SchedulerLaws.SelectionsObeyRuleIffAllDependable | internal/scheduler/scheduler.go:391-461 | Of a set of named triggers that all get cron entries, every selection obeys the rule in all runs if and only if each trigger is well scheduled with a robust start configuration |
| SchedulerLaws.StaleTrigger | internal/scheduler/scheduler.go:607-652 | A window that closes with no cron entry firing leaves its trigger active: the run that passes the minute before breaks the rule |
| SchedulerLaws.StrayTrigger | internal/scheduler/scheduler.go:581-604 | A start entry that fires outside the window activates its trigger all the same: the run that passes the minute before breaks the rule |
| SchedulerLaws.RejectedStart | internal/scheduler/scheduler.go:598-603 | A start configuration that some valid HPA rejects is lost: the run that starts over such an HPA inside the window breaks the rule |
| SchedulerLaws.OverlapScenarios | docs/ANALYSIS_MODULE_DESIGN.md:138-143 | The first four documented overlap scenarios, from a state that was right the minute before: who was in charge, who is afterwards, and that an existing HPA carries the start bounds of the one in charge |
| SchedulerLaws.OnlyTriggerEnds | docs/ANALYSIS_MODULE_DESIGN.md:144 | The fifth scenario, from such a state: no trigger is active afterwards, and an existing HPA carries the end configuration exactly if that was accepted over the start bounds |
| SchedulerLaws.RegisteredKeepsAllIff | internal/scheduler/scheduler.go:175-200 | The map of schedules keeps every trigger that is not suspended exactly when the names of those are distinct |
| SchedulerLaws.RegisteredComesFrom | internal/scheduler/scheduler.go:175-200 | Every schedule in the map is the last of the given triggers with its name that is not suspended, and a name is missing only if there is none |
| Scheduler.SmartHPAContext.InitializeContext | internal/scheduler/scheduler.go:159-203 | A new context holds, by name, the triggers that are not suspended, the last of several equal names; nothing is active and no job registered |
| Scheduler.SmartHPAContext.HasHigherPriorityActive | internal/scheduler/scheduler.go:532-551 | True exactly when another trigger with strictly higher priority is inside its window |
| Scheduler.SmartHPAContext.GetActiveSchedulesSortedByPriority | internal/scheduler/scheduler.go:743-768 | Exactly the other triggers inside their windows, each once, in non-increasing priority, for any iteration order of the map |
| Scheduler.SmartHPAContext.OnStart | internal/scheduler/scheduler.go:581-604 | The new state is the one that the start step gives |
| Scheduler.SmartHPAContext.OnEnd | internal/scheduler/scheduler.go:607-652 | The new state is one that the end step allows: nothing changes below an open trigger, a top one of the rest takes over, or the end configuration applies |
| Scheduler.SmartHPAContext.ApplyNextHighestPriorityConfig | internal/scheduler/scheduler.go:715-740 | The new state is one that the search for the next highest trigger allows |
| Scheduler.SmartHPAContext.ApplyInitialConfig | internal/scheduler/scheduler.go:493-529 | The new state is the one of the initial step for the trigger and its window state |
| Scheduler.SmartHPAContext.Schedule | internal/scheduler/scheduler.go:464-490 | The initial step, then one start and one end job with the entries of the trigger; nothing if a clock time cannot be read |
| Scheduler.SmartHPAContext.Execute | internal/scheduler/scheduler.go:771-818 | The new state results from scheduling every trigger with a valid interval once, in some non-increasing order of priority, and adding one more refresh job |
| Scheduler.SmartHPAContext.SchedulesInOrder | internal/scheduler/scheduler.go:775-791 | Every schedule with a valid interval, once, in non-increasing priority |
| Scheduler.SortByPriority | internal/scheduler/scheduler.go:762-765 | The same triggers in non-increasing priority |
| Scheduler.SmartHPAContext.UpdateHPAConfig | internal/scheduler/scheduler.go:655-687 | The stored HPA is replaced only by an accepted result; a rejected configuration or a missing HPA changes nothing and is reported |
| CronTab.EdgesExactIff | internal/scheduler/scheduler.go:391-461 | At every minute the start entry fires exactly when the window opens and the end entry exactly when it closes, if and only if the trigger is well scheduled: a recognised weekday, different start and end minutes, and no wrap past midnight unless every day is listed |
| CronTab.WellScheduledEdges | internal/scheduler/scheduler.go:391-461 | One direction of the above at a given minute |
| CronTab.MisannouncedMinute | internal/scheduler/scheduler.go:391-461 | Every trigger that is not well scheduled has a minute outside its window at which its start entry fires or its window has closed silently |
| CronTab.SilentMidnight | internal/scheduler/scheduler.go:453-461 | An overnight window on some but not all days is cut off at a midnight at which no entry fires |
| CronTab.StrayStart | api/v1alpha1/smarthorizontalpodautoscaler_types.go:167-185 | With a date range, no recognised weekday or an empty window, the start entry fires at a minute outside the window |
| CronTab.CronEntryMatches | internal/scheduler/scheduler.go:391-400 | The five-field entry, split and read back (crontab, IEEE Std 1003.1-2017, INPUT FILES), matches exactly its own minute of the day on the cron days of the trigger |
| Triggers.WeekdayRoundTrip | api/v1alpha1/smarthorizontalpodautoscaler_types.go:167-185 | For any text with a recognised code, splitting the cron weekday field gives numbers below 7, exactly those of the days that the day filter passes; with no recognised code the field is the wildcard |
| Triggers.CronNumbersAreListed | api/v1alpha1/smarthorizontalpodautoscaler_types.go:172-179 | The numbers collected from the codes are those of the listed days and no others |
| Triggers.NeedRecurring | api/v1alpha1/smarthorizontalpodautoscaler_types.go:80-140 | True exactly when the local weekday is listed, or without a list when now is strictly between two readable dates |
| Triggers.GetCronWeekdays | api/v1alpha1/smarthorizontalpodautoscaler_types.go:167-185 | The wildcard, or the numbers of the recognised codes in order and separated by commas |
| Triggers.RecurringIsValid | api/v1alpha1/smarthorizontalpodautoscaler_types.go:155-163 | A trigger that the day filter passes has a valid interval, so filtering on validity drops no trigger inside its window |
| Triggers.DateRangePasses | api/v1alpha1/smarthorizontalpodautoscaler_types.go:116-135 | A date range passes all minutes after the first instant of its first day, in UTC, up to but not including its last day |
| Triggers.CodeIsWeekday | api/v1alpha1/smarthorizontalpodautoscaler_types.go:27-40 | Every code of the cron table is a short weekday name, with the number of its position |
| CronTab.ParseClockIff | internal/scheduler/scheduler.go:372-389 | Exactly which texts are read and as what: an hour of one or two digits, minute and second of two, all in range, and possibly a fraction of a second |
| CronTab.ParseClock | internal/scheduler/scheduler.go:372-389 | Clock text that is read gives an hour, minute and second in range |
| Text.SplitJoin | api/v1alpha1/smarthorizontalpodautoscaler_types.go:172-184 | Splitting undoes joining when no piece holds the separator |
| Text.TrimIs | api/v1alpha1/smarthorizontalpodautoscaler_types.go:105 | Trimming takes away all white space at both ends and nothing else |
| Text.DecimalRoundTrip | internal/scheduler/scheduler.go:399 | A number printed in base ten reads back as itself and holds only digits |
| Calendar.PreviousMinute | internal/scheduler/scheduler.go:443-446 | The minute before lies on the same day except at midnight, where it is the last minute of the weekday before |
| Calendar.KnownWeekdays | api/v1alpha1/smarthorizontalpodautoscaler_types.go:27-29 | 1 January 1970 is a Thursday, the day before a Wednesday, 1 January 2000 a Saturday |
| HpaConfig.HpaObject.ApplyHPAConfig | internal/scheduler/scheduler.go:690-712 | Accepts exactly the configurations that keep the bounds in order, and leaves the working copy as the code does in each case of rejection |
| HpaConfig.ValidAfterAnyRun | internal/scheduler/scheduler.go:660-712 | Over every sequence of updates, full, partial or rejected, the bounds of a valid HPA stay valid |
| HpaConfig.CompleteErasesHistory | internal/scheduler/scheduler.go:690-712 | A complete configuration succeeds from any state, and everything after it is the same whatever came before |
| HpaConfig.ErasesHistoryIffComplete | internal/scheduler/scheduler.go:690-712 | The outcome of a configuration is the same from every HPA if and only if it sets both bounds validly |
| HpaConfig.RobustIffNeverRejected | internal/scheduler/scheduler.go:690-712 | Which configurations, partial ones included, no valid HPA rejects |
| Lifecycle.ContextsAreOwned | internal/controller/smarthorizontalpodautoscaler_controller.go:105-139 | Over every run of create, update, delete, reconcile and worker steps in which no absent key is created while still queued, a context exists only for an existing object with the finalizer, and a queued key that exists has it |
| Lifecycle.OwnedStep | internal/controller/smarthorizontalpodautoscaler_controller.go:229-260 | A single step keeps that invariant if and only if it does not create an object whose key is still queued |
| Lifecycle.EarlyReuseOrphansContext | internal/scheduler/scheduler.go:105-156 | The excluded case is real: a key deleted and created again while queued can leave a context with no object |
| Lifecycle.ReconcileEnqueuesIff | internal/controller/smarthorizontalpodautoscaler_controller.go:156-203 | A reconcile appends the key to the queue, and changes it in no other way, exactly if the object exists and is not being deleted, has triggers, its template, if any, names an existing HPA or lies in its own namespace, an HPA of the referenced name and namespace exists after the step, and fewer than 100 keys wait |
| Lifecycle.UnresolvedNeverScheduled | internal/controller/smarthorizontalpodautoscaler_controller.go:329-354 | A key whose object refers to an existing HPA in no world of a run never joins the queue and never gets a context |
| Lifecycle.ReconcileKeeps | internal/controller/smarthorizontalpodautoscaler_controller.go:127-154 | Reconciling a live object adds the finalizer and creates exactly the HPA its template names, if that is allowed; spec, generation, contexts and all other objects and HPAs stay |
| Lifecycle.ReconcileDeletes | internal/controller/smarthorizontalpodautoscaler_controller.go:229-260 | Reconciling an object marked for deletion removes exactly it and its context |
| Lifecycle.WorkSettlesFirst | internal/scheduler/scheduler.go:105-156 | A worker step drops the context of the first key if its object is gone, brings it up to date if the object has a reference, named or not, and otherwise changes no context |
| Lifecycle.Converges | internal/controller/smarthorizontalpodautoscaler_controller.go:156-203 | Once specs stop changing, every run that reconciles an eligible key once with room in the queue and ends with the queue drained leaves its context at the generation of its object |
| Lifecycle.SettlingConverges | internal/controller/smarthorizontalpodautoscaler_controller.go:358-383 | Reconciling the keys one by one and draining the queue in between is such a run, for any number of objects and any queue at the start |
| Lifecycle.UnwantedKeepsContext | internal/controller/smarthorizontalpodautoscaler_controller.go:358-371 | Over every such run, a live key that is not queued and whose spec does not want scheduling is never queued again, and keeps the context it has, or has none |
| Lifecycle.EditedAwayStaysOutdated | internal/scheduler/scheduler.go:121-125 | An up-to-date object edited to drop its triggers or reference is one generation ahead of its context after every such run |
| Lifecycle.EligibleKept | internal/controller/smarthorizontalpodautoscaler_controller.go:263-326 | Reconciles and worker steps keep a key eligible and its generation fixed |
| ControlPlane.Scheduler.RemoveContext | internal/scheduler/scheduler.go:240-253 | Exactly the context of the key leaves the map and stops; among all contexts ever made those running are those in the map |
| ControlPlane.Scheduler.ProcessSmartHPA | internal/scheduler/scheduler.go:105-156 | The contexts become those of the worker step; a replaced context is stopped, so that there is one live context per key |
| ControlPlane.Scheduler.Stop | internal/scheduler/scheduler.go:306-332 | No context is left in the map or running |
| ControlPlane.Reconciler.Reconcile | internal/controller/smarthorizontalpodautoscaler_controller.go:105-226 | The world becomes that of the reconcile step, in every branch |
| ControlPlane.Reconciler.HandleDeletion | internal/controller/smarthorizontalpodautoscaler_controller.go:229-260 | The world becomes that of the deletion step: the context goes before the finalizer |
| ControlPlane.Reconciler.EnsureHPAFromTemplate | internal/controller/smarthorizontalpodautoscaler_controller.go:263-326 | The named HPA exists afterwards, or an owner reference across namespaces failed and nothing changed |
| ControlPlane.Reconciler.EnqueueForScheduling | internal/controller/smarthorizontalpodautoscaler_controller.go:358-383 | The key joins the queue exactly when there are triggers, a named HPA and room; only lack of room is an error |
| ControlPlane.Reconciler.ProcessItem | internal/scheduler/scheduler.go:87-102 | Taking one key from the queue is the worker step |
| ControlPlane.Reconciler.FindSmartHPAsForHPA | internal/controller/smarthorizontalpodautoscaler_controller.go:409-444 | Exactly the objects that refer to the HPA, each once |
| PatternAnalyzer.ExtractedWindowHoldsSlots | ml/pattern_analyzer.py:207-260 | The window extracted from a cluster is proper and holds every minute of every quarter-hour slot on its day, except possibly 23:59 |
| PatternAnalyzer.ExtractedWindow | ml/pattern_analyzer.py:220-234 | In minutes, the window runs from the first slot to the end of the last, cut at 23:59 |
| PatternAnalyzer.MergeSimilarPatterns | ml/pattern_analyzer.py:300-337 | The result is one merged pattern for each group of the partition below |
| PatternAnalyzer.CollectSimilar | ml/pattern_analyzer.py:315-326 | The inner loop gathers the group of its head and marks exactly its members as used |
| PatternAnalyzer.MergingIsPartition | ml/pattern_analyzer.py:308-337 | Every input index is in exactly one group, groups are disjoint and ascending, and there is one output per group |
| PatternAnalyzer.MergedHoldsMembers | ml/pattern_analyzer.py:339-352 | A merged pattern has the days of its members, a window over each of theirs although hours and minutes are bounded separately, the largest of their peaks, and is proper if they are |
| PatternAnalyzer.GroupIs | ml/pattern_analyzer.py:315-326 | The group of a head is the head and the unused later patterns similar to it, in order |
| PatternAnalyzer.GroupGathersExactly | ml/pattern_analyzer.py:315-326 | A group holds its head and exactly the later patterns in no earlier group with the same days, an average less than 2 apart from that of the head, and hours that meet those of the head |
| PatternAnalyzer.MergingLeavesNoGap | ml/pattern_analyzer.py:320-345 | If start and end hour of each pattern are in order, every hour from the merged start hour to the merged end hour lies in some member |
| PatternAnalyzer.MergedAverages | ml/pattern_analyzer.py:349-351 | The merged average and confidence, times the number of members, are the sums of theirs |
| PatternAnalyzer.MatchingIs | ml/pattern_analyzer.py:281-287 | Matching goes row by row, and a row matches exactly if its day is one of the pattern and its slot from the first hour to the end of the last |
| PatternAnalyzer.RefinedFigures | ml/pattern_analyzer.py:291-296 | Refinement changes only the replica figures: the peak becomes the least whole number not below any matching count, and the average times their number their sum |
| PatternAnalyzer.ExtractedFigures | ml/pattern_analyzer.py:236-260 | The same for the figures of an extracted pattern, whose peak is at least 1 |
| PatternAnalyzer.Analyze | ml/pattern_analyzer.py:54-80 | Extraction, refinement and merging of a list of clusters, in this order |
| PatternAnalyzer.ExtractPatterns | ml/pattern_analyzer.py:169-177 | The patterns of the clusters that are not empty, in order |
| PatternAnalyzer.RefinePatterns | ml/pattern_analyzer.py:262-298 | The patterns that survive refinement, in order, with their replica figures taken from the matching data |
| PatternAnalyzer.SurvivesRefinement | ml/pattern_analyzer.py:270-289 | A cluster survives exactly when it is not empty, its window lasts at least the least duration in minutes, and at least ten rows match |
| PatternAnalyzer.AnalyzedAreProper | ml/pattern_analyzer.py:54-80 | Every reported pattern has a window that opens before it closes, on ascending days |
| PatternAnalyzer.SurvivorIsReported | ml/pattern_analyzer.py:54-80 | Every surviving cluster has a reported pattern that holds all minutes of its slots except possibly 23:59 |
| GeneratedTriggers.WithinAsIntended | internal/scheduler/scheduler.go:403-441 | The scheduler is inside the window of a generated trigger exactly at the minutes and on the days that its text says |
| GeneratedTriggers.DaysTextLists | ml/trigger_generator.py:204-207 | The weekday text lists, in the reading of the scheduler, exactly the days it was made from |
| GeneratedTriggers.ClockTextParses | ml/trigger_generator.py:174-175 | The clock text reads back as its hour and minute |
| GeneratedTriggers.SaysIsWellScheduled | internal/scheduler/scheduler.go:391-461 | A generated trigger is scheduled exactly when it has days, and then well scheduled when its window is proper and never when that is empty |
| GeneratedTriggers.RightScheduleIff | internal/scheduler/scheduler.go:175-200 | Of named triggers with complete start configurations, exactly the lists of dependable triggers with distinct names are kept by a context in full and meet the hypotheses of the run theorem |
| GeneratedTriggers.RightPrioritiesIff | internal/scheduler/scheduler.go:532-551 | In such a schedule priorities are distinct exactly when those of the triggers differ |
| GeneratedTriggers.OpenTriggerIsServed | internal/scheduler/scheduler.go:464-818 | In every run over such a schedule, whenever a trigger is open one of at least its priority is active and an existing HPA has exactly that one's bounds |
| GeneratedTriggers.GeneratedConfigsAccepted | ml/config.py:85-102 | Both configurations of a generated trigger are complete and accepted by every HPA |
| GeneratedTriggers.GeneratedBounds | ml/config.py:94-101 | Whatever the HPA, the start configuration gives it exactly the bounds of the trigger, and the end configuration one replica and the larger of the floor and the least |
| TriggerGenerator.SlotsAreServed | ml/trigger_generator.py:107-143 | From clusters to the running scheduler: in every run over what is suggested for a list of clusters, at every minute of every slot of a cluster that survives refinement, except 23:59, the suggestion for its pattern is open, and one of at least its priority is active and sets an existing HPA to the bounds calculated for its own pattern, which, with room for all and a positive step, has at least the load of the cluster's; unless there are more patterns than room and the cluster's lost its place to at least as confident ones |
| TriggerGenerator.LoadDecidesPriority | ml/trigger_generator.py:152-168 | With room for all and a positive step the patterns can be matched one to one with the suggestions, each followed by its own, so that a larger average load has a strictly higher priority |
| TriggerGenerator.SuggestionBounds | ml/config.py:94-101 | The start configuration sets exactly the bounds of the suggestion, the end configuration 1 and the larger of its least and 3 |
| TriggerGenerator.SlotsAreCovered | ml/trigger_generator.py:170-180 | A suggestion that carries a reported pattern holding a cluster says start < end <= 23:59, and the scheduler is within its window at every minute of the cluster's slots except possibly 23:59 |
| TriggerGenerator.Generate | ml/trigger_generator.py:107-143 | From clusters: the suggestions make a right schedule, are as many as there are patterns and room, each follows one of the patterns in window, days and bounds, and every pattern is followed by one unless there are too many and none kept is less confident; with room for all, one for each by falling load, and priorities fall by the step; without patterns, business hours |
| TriggerGenerator.SuggestFor | ml/trigger_generator.py:136-143 | The same for any list of proper patterns |
| TriggerGenerator.GeneratedScheduleIsRight | ml/trigger_generator.py:241-272 | Optimised suggestions that follow patterns under generated names make a right schedule, with distinct priorities exactly when the step is not zero or there is at most one |
| TriggerGenerator.OptimizedNeverCollides | ml/trigger_generator.py:258-272 | Names come out pairwise distinct, optimising twice is optimising once, and priorities fall strictly exactly when the step is positive or there is at most one suggestion |
| TriggerGenerator.PatternsToTriggers | ml/trigger_generator.py:145-184 | One fresh suggestion per pattern, the patterns taken in non-increasing average load |
| TriggerGenerator.OptimizeTriggers | ml/trigger_generator.py:241-272 | The suggestions kept are renumbered and renamed in place and no other is touched |
| TriggerGenerator.AssignPriorities | ml/trigger_generator.py:258-260 | Only the priorities change, to the base less a step for each position |
| TriggerGenerator.MakeNamesUnique | ml/trigger_generator.py:262-270 | Only names change: the first of several equal names stays, the n-th gets the suffix n |
| TriggerGenerator.KeptMembers | ml/trigger_generator.py:249-256 | What is kept are distinct members of what was given, as many as there is room for, and none that is dropped is more confident |
| TriggerGenerator.ReplicasHoldLoad | ml/trigger_generator.py:186-202 | The lower bound is the average less the buffer, rounded down, or 1; the upper bound is the peak plus the buffer, rounded down, or one more than the lower |
| TriggerGenerator.SuggestedFollows | ml/trigger_generator.py:159-182 | A suggestion carries the window, days, confidence and calculated bounds of its pattern under a name that does not end in a digit |
| Postprocessor.Process | ml/v2/postprocessor.py:57-90 | Without patterns the defaults; otherwise the deduplication of the converted patterns in stable order of falling priority |
| Postprocessor.EmittedIsSound | ml/v2/postprocessor.py:57-90 | Every emitted trigger comes from a pattern, windows are distinct and priorities fall, and the window of every pattern is emitted with at least its priority |
| Postprocessor.LeadersAreKept | ml/v2/postprocessor.py:82-86 | Sorting and deduplicating emits exactly the triggers with whose window there is none of higher priority and no earlier one of the same |
| Postprocessor.Deduplicate | ml/v2/postprocessor.py:174-188 | The triggers whose window no earlier one has, in order |
| Postprocessor.DeduplicationIsSound | ml/v2/postprocessor.py:174-188 | What is kept has distinct windows in falling priority, and each trigger shares its window with a kept one of at least its priority |
| PostprocessorLaws.WellScheduledIffBefore23 | ml/v2/postprocessor.py:117-127 | The trigger of a pattern is scheduled if and only if the pattern has days, and meets the hypotheses of the run theorem if and only if it has none or an hour before 23 |
| PostprocessorLaws.OpenOverHull | ml/v2/postprocessor.py:117-127 | The window is open exactly on the days of the pattern, from its least hour to its greatest, except at 23 |
| PostprocessorLaws.OpenAtItsHoursIff | ml/v2/postprocessor.py:117-127 | At every minute the window is open exactly at the hours of the pattern, if and only if these have no gap and 23 is not among them |
| PostprocessorLaws.NightIsAllDay | ml/v2/model.py:188-190 | The hours of the night pattern do not fill its window, which is 00:00 to 23:00 |
| PostprocessorLaws.OffPeakIsAllDay | ml/v2/model.py:93-94 | Nor do those of the off-peak pattern, which has the same window |
| PostprocessorLaws.NightDisplacesOffPeak | ml/v2/model.py:54-62 | With a night pattern on the same days the off-peak pattern is not emitted |
| PostprocessorLaws.EmittedMembers | ml/v2/postprocessor.py:75-86 | Exactly the patterns that prevail are emitted: those with whose window there is no pattern of a kind of higher priority and no earlier one of the same kind |
| PostprocessorLaws.WindowKeyIff | ml/v2/postprocessor.py:183 | Two triggers have the same window key exactly when their patterns have the same days, in any order, and the same start and end |
| Postprocessor.PatternConfigsAccepted | ml/v2/config.py:92-109 | Both configurations of the trigger of a pattern are complete and accepted by every HPA |
| Postprocessor.DefaultConfigsAccepted | ml/v2/postprocessor.py:190-239 | The same for the default triggers |
| Postprocessor.BoundsHoldLoad | ml/v2/postprocessor.py:99-115 | The lower bound is the observed minimum rounded down, or 1; the upper is the largest of two more than that and of the observed maximum with its buffer, and for a volatile peak one and a half times it, rounded down |
| Postprocessor.DefaultBoundsHoldLoad | ml/v2/postprocessor.py:209-212 | The default bounds are the lower quartile less the buffer, or 1, and the greatest load plus the buffer, or one more, rounded down |
| Postprocessor.PeakRanksFirst | ml/v2/postprocessor.py:29-40 | Peaks rank before weekdays, these before morning, evening and afternoon, then weekends, nights, off-peak hours and seasonal patterns |
| Postprocessor.ConfigBounds | ml/v2/config.py:101-108 | The start configuration sets exactly the bounds of the trigger configuration, the end configuration 1 and the larger of its least and 2 |
| PostprocessorLaws.NameIff | ml/v2/postprocessor.py:148-172 | Two patterns get one name exactly when they are of one kind, one day context and one time of day |
| PostprocessorLaws.NamesDifferIff | ml/v2/postprocessor.py:57-90 | What is emitted has distinct names, and the scheduler keeps every trigger, if and only if no two patterns that prevail share kind, day context and time of day |
| PostprocessorLaws.DroppedPatternDoesNotClash | ml/v2/postprocessor.py:174-188 | Two patterns of one kind do not clash, whatever their contexts and windows, if one shares its window with a pattern of higher priority |
| PostprocessorLaws.DistinctKindsSuffice | ml/v2/model.py:47-80 | At most one pattern of each kind, as the model infers them, is enough for distinct names, and gives distinct priorities |
| PostprocessorLaws.EmittedAreRightIff | ml/v2/postprocessor.py:57-90 | What is emitted makes a right schedule if and only if names do not clash and every pattern with days has an hour before 23 |
| PostprocessorLaws.InferredAreRightIff | ml/v2/model.py:47-80 | With at most one pattern of each kind, what is emitted makes a right schedule, then with distinct priorities, if and only if every pattern with days has an hour before 23 |
| PostprocessorLaws.DefaultsAreRight | ml/v2/postprocessor.py:190-239 | The default triggers make a right schedule with different priorities |
| PostprocessorLaws.HoursAreServed | ml/v2/postprocessor.py:57-90 | In every run over a right schedule of what is emitted, at every minute of every hour before 23 of a pattern, on its days, the trigger of a pattern that prevails and is of at least its priority is open and active, and an existing HPA has the bounds calculated for that pattern |
| Preprocessor.BuildHourlyMatrix | ml/v2/preprocessor.py:157-199 | Each cell summarises exactly the values of its day and hour; empty cells report zeros |
| Preprocessor.CellReports | ml/v2/preprocessor.py:174-191 | What is reported for a day and hour, by position in the arrays: the number of values at them, their largest and smallest, and an average that times their number is their sum; zeros if there is none |
| Preprocessor.BuildDailyAggregations | ml/v2/preprocessor.py:201-228 | Each day summarises exactly its values; empty days report zeros |
| Preprocessor.CountsSumToValues | ml/v2/preprocessor.py:174-189 | The hourly counts sum to the number of values that carry an hour and a day |
| Preprocessor.DailyAgreesWithHourly | ml/v2/preprocessor.py:216-220 | The maximum, minimum and mean of every non-empty day are the maximum, minimum and count-weighted mean of its non-empty cells |
| Preprocessor.HoursMakeDay | ml/v2/preprocessor.py:174-189 | The cells of a day hold together as many values as the day, with the same sum |
| Preprocessor.CellsShareValues | ml/v2/preprocessor.py:174-189 | A value is in a day exactly when it is in one of its cells |
| DataFetcher.ParseResponse | ml/v2/data_fetcher.py:108-152 | The merged series is canonical: strictly rising timestamps, exactly those with a number, each with the largest number there or zero |
| DataFetcher.CanonicalIsUnique | ml/v2/data_fetcher.py:138-150 | A canonical series depends on nothing but which samples there are |
| DataFetcher.PermutationsMergeAlike | ml/v2/data_fetcher.py:116-125 | Permuting the series, and the samples within each, leaves the samples the same, and so the merge |
| DataFetcher.MergedValueIsMaximum | ml/v2/data_fetcher.py:143-147 | For samples that are never negative, each merged value is a sample at its timestamp and the maximum there |
| DataFetcher.MergedValueIsSampleIff | ml/v2/data_fetcher.py:145-147 | For any samples, the merged value is one of them exactly when some number at the timestamp is not negative, since accumulation starts at zero |
| DataFetcher.UniqueTimes | ml/v2/data_fetcher.py:144 | Of ascending samples, the distinct times in order and for each sample the index of its time |
| DataFetcher.Aggregate | ml/v2/data_fetcher.py:145-147 | In place, each slot is raised to the largest of the numbers that fall on it |

## Left out

- Triggers.NeedRecurring: dates come as the minute at which they begin in UTC or as unreadable; parsing the date text is not modelled, and now is the first second of its minute.
- Time zones: fixed offsets only. Daylight-saving changes and the zone database are not modelled, nor the fallback to UTC for an unknown name. The daily refresh runs in the zone of the process, so it may fall on any minute.
- Seconds: neither the cron entries nor the window comparison look at them.
- The cron engine: only when an entry matches a minute. Every due start and end job fires at least once in its minute; the engine's own clock, missed ticks and goroutines are not modelled.
- Atomicity: each callback, pass, reconcile and worker step is one step with one reading of the clock. Interleavings inside steps are not modelled: two workers rebuilding one key, a worker between removal of a context and of the finalizer, a pass that is still running after its context was stopped.
- SchedulerRuns.RunRefinesRule: covers triggers that meet the exact conditions above. While no window is open it says nothing of the HPA: which end configuration applies when several windows close in one minute depends on the order. What a pass does then is SchedulerPasses.PassWithNoneOpen, and what a lone closing does SchedulerLaws.OnlyTriggerEnds. The existence of the HPA does not change within a run.
- Scheduler.SmartHPAContext.UpdateHPAConfig: failed or conflicting writes to the API server are not modelled; an HPA that exists can be written.
- SchedulerLaws.SelectionsObeyRuleIffAllDependable: about all selections from a set; in a single set a trigger that misses a condition may be hidden behind others of higher priority.
- HpaConfig.HpaObject.ApplyHPAConfig: the desired replica count of a configuration, which the code ignores too, is not modelled.
- Lifecycle.ContextsAreOwned: our finalizer is the only one of an object, and an object is not created while its key is still queued; the invariant fails otherwise, as shown.
- Lifecycle.Converges: a queue that stays full for the length of the timeout is a full queue at the step; status conditions, events, requeue intervals and errors other than a missing object are not modelled.
- ControlPlane.Reconciler.EnsureHPAFromTemplate: which HPA is created and when, not the labels and bounds it is created with, nor a failing create call.
- ControlPlane.Reconciler.Reconcile: errors of the API server other than a missing object and the writing of status conditions are not modelled.
- ControlPlane.Reconciler.EnqueueForScheduling: a request that is cancelled while it waits for room is not modelled; the source reports an error for it, too.
- RefreshContext, GetSchedules and GetHighestPriorityActiveTrigger: thin wrappers over what is modelled.
- PatternAnalyzer.ExtractedWindow: clustering, silhouette scores and the processor and memory averages are not modelled; confidence is a parameter.
- PatternAnalyzer.MergedHoldsMembers: averages are exact real numbers; rounding of floating-point numbers and infinities are not modelled, here and in all of `ml/`.
- TriggerGenerator.Generate: starts from the clusters; the bounds calculated for the reported patterns fit 32 bits. Fetching metrics, preparing the time series, YAML output and printing are left out.
- PatternAnalyzer.RefinePatterns: patterns are values; that the source updates the replica figures inside the pattern objects is not visible.
- Postprocessor.Process: patterns have at least one hour, since the code raises on an empty list of hours, and bounds that fit 32 bits. How the model infers patterns from the matrices is left out.
- Preprocessor.BuildHourlyMatrix: without the matrix of standard deviations; percentiles and outlier cleaning are left out, so the aggregation is about the arrays actually passed.
- Preprocessor.DailyAgreesWithHourly: for arrays of hours and days of equal length, as the fetcher builds them; otherwise a value can belong to a day and to no hour.
- TriggerGenerator.Generate and Postprocessor.Process: what the parts of a name are called is not stated, only when names agree and that they are distinct.
- DataFetcher.ParseResponse: the query, the authentication and the derived date fields are left out.
- The REST server and its sessions, the wrapper around the Python server, generated deep copies, the user interface and the design of a forecasting scheduler that is not implemented.
