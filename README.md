# AURELIUS scheduler and learning engine: a Dafny model

This project models the bookkeeping core of the AURELIUS autonomous
back-end and proves properties of it:

- **The task scheduler.** It owns a fixed table of periodic tasks: content
  posting, social engagement, sales tasks, daily, weekly and monthly
  analytics, auto-learning and the system health check.
  - Each task runs in its own polling loop.
  - The schedule evaluator decides when a task is due. An interval is
    always required; some tasks are also pinned to an hour of the day and
    guarded against firing twice in that hour.
  - Every invocation is logged at the front of a per-task history that is
    capped at 100 records.
  - A failure raises an alert.
  - The health-check job derives a healthy/degraded/unhealthy snapshot.
  - The scheduler also offers a manual trigger, a status report, and
    start/stop.
- **The learning engine's pure helpers.**
  - Content-length and lead-score buckets.
  - The engagement score.
  - Truncation of content summaries.
  - The high/low quartile split of sorted content.
  - The hashtag report.
  - Per-key conversion counting.
  - The capped insight history (50 entries).
  - The filter that turns high-impact recommendations into active
    optimisations.
- **The process controller.** This covers the system's running flag and
  shutdown event, plus the status rule of the monitoring health check.

Modules, one per file:

- `Schedule` covers the due decision and the next-run estimate.
- `History` covers the newest-first capped list.
- `Health` covers the health snapshot.
- `Scheduler` covers the `TaskScheduler` class and the tick functions that
  specify its loops.
- `Aurelius` covers the `AureliusSystem` class and the monitoring check.
- `OrderedMap` covers insertion-ordered dictionaries (`defaultdict`).
- `Sorting` is a descending sort by key that keeps entries with equal keys
  in their input order.
- `ContentAnalyzer`, `SalesAnalyzer` and `LearningEngine` cover the three
  learning-engine classes.

The model uses these abstractions:

- **Time.** Time is a natural number of minutes since an epoch. The
  wall-clock hour is `(t / 60) % 24` and the calendar date is `t / 1440`.
  `datetime.now()` becomes an explicit `now` argument. "Elapsed seconds
  below `interval * 60`" becomes "elapsed minutes below `interval`".
- **External calls.** These are given as inputs:
  - a task body's outcome (`Ok` or `Err(message)`);
  - whether an alert was delivered;
  - whether the store probe, the store write, store initialisation,
    scheduler initialisation and store closing succeeded.
- **The data store.** The store entries the core writes become fields of
  the classes that write them:
  - `TaskScheduler.history` holds the "task_execution_history:<name>"
    entries.
  - `TaskScheduler.systemHealth` holds "system_health".
  - `Engine.current`, `Engine.snapshots`, `Engine.historyList` and
    `Engine.optimizationParameters` hold the learning-insight keys.
- **Running tasks.** They are a map from task name to a life state
  (`Alive`, `Finished` or `Cancelled`).

Two facts about the scheduler code shape the model:

- **When `last_run` is written.** `last_run` is written only after the
  body returns (`aurelius/modules/scheduler.py:159-160` and `525-527`). A
  failing task therefore keeps its old `last_run`, and a task without a
  target hour is retried on every tick; `FailingTaskRetriesEveryTick`
  proves this.
- **The manual trigger.** The manual trigger records the attempt but sends
  no alert on failure (`aurelius/modules/scheduler.py:533-536`).
  `RunTaskManually` leaves the alerts unchanged.

Consequences of the code as written that the proofs make explicit:

- The hashtag scores are all 1, because only successful interactions are
  searched. Every hashtag's mean performance is therefore 1.0. Since the
  sort keeps equal keys in order, the report is the first ten hashtags used
  at least three times, in order of first use (`HashtagReportOrder`).
- For one to three content items, the low-performing part is everything
  except the first item, because `-q or 1` is 1 when `q` is 0
  (`Quartiles`).
- The monitoring check reports a stored "degraded" snapshot as healthy
  (`StoredDegradedReadsHealthy`).
- The monitoring check never reports the scheduler component as "error"
  (`SchedulerComponentAlwaysOk`).
- A failed store close leaves the system marked running although its
  scheduler is stopped (`StopWithFailedClose`).

## Model

| member | source | states |
|---|---|---|
| Schedule.ShouldRunTask | aurelius/modules/scheduler.py:192-228 | A never-run task is due, or only in its target hour when it has one. A task that has run is not due before its interval elapses, whatever the hour. A due hour-constrained task is in its target hour and did not already run in that hour of the same day. Outside those guards it is due. |
| Schedule.CalculateNextRun | aurelius/modules/scheduler.py:497-512 | The estimate is "immediately" exactly when the task has never run. Otherwise it lies one interval after the last run. |
| Schedule.NextRunIsExactWithoutHour | aurelius/modules/scheduler.py:497-508 | For a task without a target hour, being due is equivalent to the estimate being "immediately" or already reached. |
| Schedule.NextRunIsLowerBound | aurelius/modules/scheduler.py:497-508 | A task that has run is never due before its estimated next run. |
| Schedule.OutOfRangeHourNeverDue | aurelius/modules/scheduler.py:214-218 | A target hour outside 0..23 never matches, so such a task is never due. |
| Schedule.OncePerDayInTargetHour | aurelius/modules/scheduler.py:220-222 | After an hour-constrained task runs when due, it is not due again on the same day. |
| Schedule.DailyExample | aurelius/modules/scheduler.py:207-224 | Interval 60, hour 9, last run today at 09:00: not due at 09:30, due tomorrow at 09:05. |
| Schedule.SameHourGuardExample | aurelius/modules/scheduler.py:220-222 | With a 15-minute interval elapsed at 09:30, the same-day same-hour guard alone keeps the task from firing. |
| History.PushCapped | aurelius/modules/scheduler.py:241-247 | The new record is at index 0. The length is min(old+1, cap). The rest is the old list's prefix in order. |
| History.PushAllNewestFirst | aurelius/modules/scheduler.py:241-247 | Pushing a run of records gives them newest first in front of the old list, cut to the cap. |
| History.KeepsMostRecent | aurelius/modules/scheduler.py:245-246 | From an empty history, the list holds exactly the `cap` most recent records (or all of them), newest first. |
| History.HundredAndFiftyRuns | aurelius/modules/scheduler.py:245-246 | 150 executions leave exactly the 100 most recent, newest first. |
| Health.StatusOf | aurelius/modules/scheduler.py:441-445 | A task's status is "running" iff it is not done. It is "cancelled" iff it was cancelled. Both are never set together. |
| Health.TaskStatuses | aurelius/modules/scheduler.py:440-445 | There is one status per tracked task. It is running iff the task is alive, and cancelled iff the task was cancelled. |
| Health.DeriveOverallStatus | aurelius/modules/scheduler.py:447-456 | The status is healthy iff the store is reachable and every task runs. It is unhealthy iff neither holds, and degraded iff exactly one holds. |
| Health.Snapshot | aurelius/modules/scheduler.py:423-456 | The snapshot carries the time, the store reachability flag and the per-task statuses of `TaskStatuses`, one for every tracked task. It is healthy iff the store is reachable and all tasks are alive, and unhealthy iff the store is unreachable and some task is not alive. |
| Health.NoTasksNeverUnhealthy | aurelius/modules/scheduler.py:447-456 | With no tracked tasks the status is healthy or degraded, never unhealthy. |
| Health.UnreachableStore | aurelius/modules/scheduler.py:447-456 | With the store unreachable: all tasks alive gives degraded, and a dead task gives unhealthy. |
| Scheduler.InitialTaskConfigs | aurelius/modules/scheduler.py:75-129 | The task table has exactly the eight named tasks, all enabled and never run. Exactly the three analytics tasks are pinned to the configured report hour. The intervals are the configured posting interval, 30 minutes, hourly, daily, weekly (7 days), monthly (30 days), the configured learning period in hours, and 15 minutes. |
| Scheduler.Attempt | aurelius/modules/scheduler.py:155-171 | `lastRun` becomes `now` iff the body returned, and is unchanged otherwise. One record is logged at the front (name, time, success iff the body returned, error message iff it raised), and the old history follows, capped. |
| Scheduler.TickEffect | aurelius/modules/scheduler.py:153-171 | A tick changes only `lastRun` of the configuration, and that only to `now` when the task was due and its body returned. A due tick logs the attempt's record at the front of the capped history. A tick that is not due leaves the history unchanged. |
| Scheduler.TickAlertsEffect | aurelius/modules/scheduler.py:166-179 | A tick delivers at most one alert. It delivers one exactly when the task was due, its body raised and the sink accepted the alert. The alert's source is "scheduler". |
| Scheduler.RunTicksEffect | aurelius/modules/scheduler.py:150-180 | Over any run of ticks only `lastRun` of the configuration changes. There are no more alerts than ticks, and every alert's source is "scheduler". |
| Scheduler.FailingTaskRetriesEveryTick | aurelius/modules/scheduler.py:150-190 | A never-run task without a target hour whose body always raises stays unrun and is retried on every tick. Its history is all its failure records, newest first, capped. |
| Scheduler.SucceedingTaskRunsEveryTick | aurelius/modules/scheduler.py:150-164 | On a task without a target hour, ticks at least one interval apart run a succeeding task each time. Every run is logged, and `lastRun` ends at the last tick. |
| Scheduler.TickKeepsSpacing | aurelius/modules/scheduler.py:153-164 | One tick preserves the invariant that successful runs lie at least one interval apart and no later than `lastRun`. |
| Scheduler.TicksKeepSpacing | aurelius/modules/scheduler.py:150-190 | The automatic loop never runs a task successfully twice within one interval, over any run of ticks. |
| Scheduler.TaskScheduler.constructor | aurelius/modules/scheduler.py:25-29 | A new scheduler is not running, has no tasks or configurations, and the store is empty. |
| Scheduler.TaskScheduler.Start | aurelius/modules/scheduler.py:31-52 | Starting while running is a no-op. A failed start leaves it not running. Otherwise it builds the task table and spawns every enabled task. |
| Scheduler.TaskScheduler.Stop | aurelius/modules/scheduler.py:54-73 | Stopping while stopped is a no-op. Otherwise it cancels exactly the alive tasks, clears the running tasks and clears the running flag, without touching configurations or history. |
| Scheduler.StopTwice | aurelius/modules/scheduler.py:54-73 | A second stop cancels nothing, so stopping twice is stopping once. |
| Scheduler.TaskScheduler.LogTaskExecution | aurelius/modules/scheduler.py:230-250 | Only the named task's history changes, becoming its capped push of the new record. |
| Scheduler.TaskScheduler.Execute | aurelius/modules/scheduler.py:158-171 | The attempt path shared by the loop and the manual trigger: the task's configuration and history become those of `Attempt`, and nothing else changes. |
| Scheduler.TaskScheduler.TickTask | aurelius/modules/scheduler.py:150-183 | One loop iteration: the task runs only if due, and an alert is added only for a failed run whose alert was delivered. |
| Scheduler.TaskScheduler.RunPeriodicTask | aurelius/modules/scheduler.py:142-190 | While the scheduler runs, the task's state and the alerts equal those of `RunTicks` over the ticks. A stopped scheduler changes nothing, and other tasks are untouched. |
| Scheduler.TaskScheduler.RunTaskManually | aurelius/modules/scheduler.py:514-536 | An unknown name gives false and writes no history. Otherwise the result is true iff the body returned, and configuration and history change as in `Attempt`. No alert is sent. |
| Scheduler.TaskScheduler.CollectTaskStatus | aurelius/modules/scheduler.py:440-445 | The loop collects exactly the status of every tracked task. |
| Scheduler.TaskScheduler.SystemHealthCheck | aurelius/modules/scheduler.py:420-469 | A successful write stores the derived snapshot. A failed write changes nothing. An alert is raised only for a stored unhealthy snapshot. |
| Scheduler.TaskScheduler.GetTaskStatus | aurelius/modules/scheduler.py:471-495 | There is one entry per configured task, with its enabled flag, interval, last run, liveness and next-run estimate. |
| Aurelius.HealthCheck | aurelius/main.py:209-258 | The report is "down" iff the system is not running, and "error" iff the store read raised. Otherwise: degraded when the ping fails; when it succeeds, unhealthy iff the stored snapshot says unhealthy, else healthy. The data store component is ok iff the ping succeeded. |
| Aurelius.StoredDegradedReadsHealthy | aurelius/main.py:237-241 | A stored "degraded" snapshot is reported as healthy when the ping succeeds. |
| Aurelius.SchedulerComponentAlwaysOk | aurelius/main.py:219-248 | Whenever a component report is produced, the scheduler component is ok. |
| Aurelius.AureliusSystem.constructor | aurelius/main.py:24-26 | A new system is not running and its shutdown event is not set. |
| Aurelius.AureliusSystem.Start | aurelius/main.py:28-92 | Starting while running is a no-op. A failed store initialisation or scheduler start leaves the system not running. Otherwise the system and its scheduler run. |
| Aurelius.AureliusSystem.Stop | aurelius/main.py:94-127 | Stopping while not running is a no-op. Otherwise the scheduler is stopped, `running` is cleared iff the store closed, and the shutdown event is always set. |
| Aurelius.StopWithFailedClose | aurelius/main.py:116-127 | After a failed close, the system still reads as running with a stopped scheduler, and the monitoring check reports the scheduler as ok. |
| Aurelius.StopTwiceSystem | aurelius/main.py:94-97 | With successful closes, stopping twice is stopping once. |
| OrderedMap.Update | aurelius/modules/auto_learning.py:50-55 | A `defaultdict` update gives the key the update of its old value, or of the default when it was missing. Every other key keeps its value. |
| OrderedMap.UpdateKeys | aurelius/modules/auto_learning.py:50-55 | An update keeps the order of the existing keys, and a new key goes last. |
| OrderedMap.UpdateDistinct | aurelius/modules/auto_learning.py:50-55 | An update never duplicates a key. |
| OrderedMap.FirstOccurrences | aurelius/modules/auto_learning.py:50-55 | The first-appearance order of a key sequence holds exactly the keys that occur, each once. |
| OrderedMap.UpdateFirstOccurrences | aurelius/modules/auto_learning.py:50-55 | A dictionary built by updates lists its keys in order of first appearance. |
| Sorting.Insert | aurelius/modules/auto_learning.py:72-73 | Inserting into a sorted list keeps it sorted and adds one element. |
| Sorting.SortDesc | aurelius/modules/auto_learning.py:72-73 | The result is sorted by non-increasing key and has the input's length. |
| Sorting.InsertPermutes | aurelius/modules/auto_learning.py:72-73 | Insertion adds exactly the new element as a multiset. |
| Sorting.SortPermutes | aurelius/modules/auto_learning.py:72-73 | The sort is a permutation of its input. |
| Sorting.SortMembers | aurelius/modules/auto_learning.py:72-73 | Everything the sort returns was in its input. |
| Sorting.SortStable | aurelius/modules/auto_learning.py:72-73 | The sort is stable. For every key value, the entries with that key appear in the result in their input order. |
| Sorting.EqualKeysKeepOrder | aurelius/modules/auto_learning.py:215-216 | With all keys equal, the sort returns its input unchanged. |
| ContentAnalyzer.CategorizeContentLength | aurelius/modules/auto_learning.py:281-292 | Every length is in exactly one bucket: at most 50, 100, 200 or 300 (inclusive), else very long. |
| ContentAnalyzer.LengthCategoryMonotone | aurelius/modules/auto_learning.py:281-292 | Longer content never lands in a shorter bucket. |
| ContentAnalyzer.TypeBonus | aurelius/modules/auto_learning.py:109-116 | The bonus is at most 8, and zero exactly for types outside reply/mention/like/favourite/share/boost. |
| ContentAnalyzer.Points | aurelius/modules/auto_learning.py:104-116 | One interaction adds at most 18, at least 10 when successful, and at most 8 otherwise. |
| ContentAnalyzer.EngagementTotal | aurelius/modules/auto_learning.py:102-116 | The total lies in [0, 18·n], and is at least 10·n when every interaction succeeded. |
| ContentAnalyzer.EngagementTotalAppend | aurelius/modules/auto_learning.py:102-116 | The total of a concatenation is the sum of the totals. |
| ContentAnalyzer.EngagementScore | aurelius/modules/auto_learning.py:99-122 | The mean is 0 for no interactions, always within [0, 18], and at least 10 when all succeeded. |
| ContentAnalyzer.CalculateEngagementScore | aurelius/modules/auto_learning.py:99-122 | The accumulating loop computes exactly the mean score. |
| ContentAnalyzer.Truncate | aurelius/modules/auto_learning.py:65 | Content of at most 100 characters is unchanged. Longer content becomes its first 100 characters plus "...", 103 in all. |
| ContentAnalyzer.TruncateIdempotent | aurelius/modules/auto_learning.py:65 | A summary has at most 103 characters, and truncating twice is truncating once. |
| ContentAnalyzer.Quartiles | aurelius/modules/auto_learning.py:75-79 | An empty list gives two empty parts. For n ≥ 4: the first and last n/4 items. For 1 ≤ n < 4: the first item, and all but the first. The parts are a prefix and a suffix that never overlap. |
| ContentAnalyzer.QuartilesOrdered | aurelius/modules/auto_learning.py:72-79 | On a list sorted best first, everything in the high part scores at least as well as everything in the low part. |
| ContentAnalyzer.Matching | aurelius/modules/auto_learning.py:52-55 | A group holds only successful interactions with that non-empty text. |
| ContentAnalyzer.GroupByContent | aurelius/modules/auto_learning.py:49-55 | The group for every text is exactly its successful interactions in order. Groups exist only for texts that occur, and keys are distinct. |
| ContentAnalyzer.GroupOrder | aurelius/modules/auto_learning.py:49-55 | The groups are listed in order of each text's first successful interaction. |
| ContentAnalyzer.Summary | aurelius/modules/auto_learning.py:60-70 | A summary counts the group's interactions and carries its text (truncated beyond 100 characters, at most 103). Its score lies in [0, 18], and is at least 10 when the group is non-empty and all succeeded. Its platforms are exactly those of the group's interactions. |
| ContentAnalyzer.Performance | aurelius/modules/auto_learning.py:58-70 | Only groups of two or more are summarised. Each summary scores at most 18, and at least 10 when its interactions succeeded. |
| ContentAnalyzer.PerformanceMembers | aurelius/modules/auto_learning.py:58-70 | A summary is reported iff some group of at least two interactions has it as its summary. |
| ContentAnalyzer.ContentPerformance | aurelius/modules/auto_learning.py:72-79 | The two parts together are no longer than the summaries. With no summaries both parts are empty; otherwise the high part is non-empty. |
| ContentAnalyzer.GroupInteractions | aurelius/modules/auto_learning.py:49-55 | The grouping loop builds exactly the groups of `GroupByContent`. |
| ContentAnalyzer.SummarizeGroups | aurelius/modules/auto_learning.py:57-70 | The summary loop builds exactly the summaries of `Performance`, in group order. |
| ContentAnalyzer.GroupsAreSuccessful | aurelius/modules/auto_learning.py:52-55 | Every group consists of successful interactions. |
| ContentAnalyzer.ContentPerformanceBounds | aurelius/modules/auto_learning.py:49-79 | Every reported item had at least two interactions and scores in [10, 18]. Every high item scores at least as well as every low item. |
| ContentAnalyzer.AddTags | aurelius/modules/auto_learning.py:201-202 | Each tag's list grows by its number of occurrences, a tag gains a list iff it occurs, and distinct keys stay distinct. |
| ContentAnalyzer.AddTagsOnes | aurelius/modules/auto_learning.py:199-202 | Appending the score 1 keeps every hashtag's list all ones. |
| ContentAnalyzer.HashtagScores | aurelius/modules/auto_learning.py:189-202 | Each hashtag's list has one entry per use in successful, non-empty interactions, and every entry is 1. Keys are distinct. |
| ContentAnalyzer.HashtagOrder | aurelius/modules/auto_learning.py:189-202 | The score lists are listed by hashtag in order of first use in a successful, non-empty interaction. |
| ContentAnalyzer.Qualifying | aurelius/modules/auto_learning.py:206-207 | The qualifying entries are exactly the entries with at least three scores. |
| ContentAnalyzer.QualifyingKeys | aurelius/modules/auto_learning.py:205-207 | The qualifying hashtags keep their dictionary order, and they are those used at least three times. |
| ContentAnalyzer.Effective | aurelius/modules/auto_learning.py:204-212 | There is one entry per qualifying hashtag, in order, with its name and a usage count (at least 3) equal to its number of scores. |
| ContentAnalyzer.AnalyzeHashtags | aurelius/modules/auto_learning.py:214-218 | The report has min(10, qualifying) entries, sorted by mean, and each is one of the qualifying entries. |
| ContentAnalyzer.HashtagReport | aurelius/modules/auto_learning.py:204-218 | The report has at most 10 entries, sorted by mean. Each entry is used at least 3 times, with usage equal to the occurrences, and every mean is 1.0. The report is the first ten qualifying entries in their order. |
| ContentAnalyzer.HashtagReportOrder | aurelius/modules/auto_learning.py:189-218 | The reported hashtags are the first ten of those used at least three times, in order of first use. |
| ContentAnalyzer.HashtagReportComplete | aurelius/modules/auto_learning.py:206-218 | When at most ten qualify, every hashtag used at least three times is reported. |
| ContentAnalyzer.AnalyzeContentPerformance | aurelius/modules/auto_learning.py:24-97 | The method gives the high and low parts of `ContentPerformance` and the hashtag report of `AnalyzeHashtags`. No high item scores below a low one. |
| SalesAnalyzer.CategorizeLeadScore | aurelius/modules/auto_learning.py:476-487 | Every score is in exactly one range, with thresholds 80/60/40/20 and inclusive lower bounds. |
| SalesAnalyzer.LeadScoreMonotone | aurelius/modules/auto_learning.py:476-487 | A higher score never falls in a lower range. |
| SalesAnalyzer.RangeLabelsDistinct | aurelius/modules/auto_learning.py:476-487 | The five range labels are pairwise distinct. |
| SalesAnalyzer.ConvertedUnder | aurelius/modules/auto_learning.py:426-430 | The conversions under a key never exceed the leads under it. |
| SalesAnalyzer.TallyOf | aurelius/modules/auto_learning.py:412-430 | Every key's counter is (leads under it, converted leads under it), and a key exists iff some lead has it. Keys are distinct. |
| SalesAnalyzer.ConvertedAtMostTotal | aurelius/modules/auto_learning.py:421-430 | In each breakdown, converted ≤ total for every key. |
| SalesAnalyzer.TallySums | aurelius/modules/auto_learning.py:412-430 | The totals of a breakdown sum to the number of leads, and its conversions sum to the number of converted leads. |
| SalesAnalyzer.NoConversionWithoutStatus | aurelius/modules/auto_learning.py:426-427 | Only status "converted" counts: without it, every conversion counter is zero. |
| SalesAnalyzer.ConversionRate | aurelius/modules/auto_learning.py:461-463 | The rate is 0 for no leads, within [0, 100] when conversions do not exceed leads, and 100 when all converted. |
| SalesAnalyzer.Rows | aurelius/modules/auto_learning.py:459-468 | There is one row per key, carrying its totals and a rate within [0, 100]. |
| SalesAnalyzer.TallyOrder | aurelius/modules/auto_learning.py:412-424 | A breakdown and its report list the keys in order of first appearance among the leads. |
| SalesAnalyzer.RatesArePercentages | aurelius/modules/auto_learning.py:459-463 | Every reported conversion rate lies within [0, 100]. |
| SalesAnalyzer.AnalyzeConversionPatterns | aurelius/modules/auto_learning.py:402-470 | The counting loop builds the three breakdowns by platform, qualification and score range. The result is the report rows of each. |
| LearningEngine.HighImpact | aurelius/modules/auto_learning.py:775-781 | There are never more optimisations than recommendations, and every one is pending implementation. |
| LearningEngine.HighImpactAppend | aurelius/modules/auto_learning.py:775-781 | Filtering a concatenation filters each part, so the original order is kept. |
| LearningEngine.HighImpactMembers | aurelius/modules/auto_learning.py:775-781 | An optimisation is active iff some high-impact recommendation gave rise to it. |
| LearningEngine.HighImpactCount | aurelius/modules/auto_learning.py:775-781 | There is exactly one optimisation per high-impact recommendation. |
| LearningEngine.Engine.StoreLearningInsights | aurelius/modules/auto_learning.py:738-762 | The insights become current and the snapshot for `now`. Their entry is at index 0 of the history list, followed by the old prefix and capped at 50. Optimisations are untouched. |
| LearningEngine.Engine.ApplyLearningInsights | aurelius/modules/auto_learning.py:764-783 | The loop records exactly the high-impact recommendations, in order, as pending optimisations stamped `now`. |
| LearningEngine.Engine.RunLearningCycle | aurelius/modules/auto_learning.py:627-667 | The insights carry the time, the recommendations and the next cycle one learning period later. They become current and the snapshot for `now`, their entry heads the capped history list, and their high-impact recommendations become the pending optimisations. |

## Left out

- Concurrency is not modelled:
  - asyncio task creation, cancellation, awaiting a cancelled task, and the one-minute `asyncio.sleep` between ticks;
  - signal handlers, and waiting on the shutdown event in `AureliusSystem.start`;
  - a manual trigger running at the same time as the automatic loop of the same task.

  A loop is modelled over a finite, given sequence of ticks, and tasks are a map from name to life state.
- The clock is not modelled; `now` is an argument. The source reads the clock separately for the due decision, for `last_run` and for the record's timestamp. The model uses one `now` per attempt.
- ISO-8601 formatting and parsing, and `strftime` keys and day names, are not modelled; timestamps are integers. The exception path of `_should_run_task` and `_calculate_next_run` (an unparsable `last_run`) cannot arise with integer times.
- The task bodies (`_post_scheduled_content` … `_run_auto_learning`) and every external client (Discord, Twitter, Mastodon, AI content generation, analytics reports, payments) are not modelled. Only their outcome, or whether delivery succeeded, is given as input.
- Discord start-up, ready and shutdown announcements are not modelled; their failures are logged and ignored by the source.
- Store expiry and the other store keys are not modelled: "health_check", "health_ping", "optimal_posting_schedule", "recommended_hashtags" and "effective_content_themes".
- Scheduler.TaskScheduler.LogTaskExecution: the history write is taken to succeed. The source logs and swallows a failing write.
- The loop's outer `except Exception` retry (`aurelius/modules/scheduler.py:188-190`) is not modelled: with the history write taken to succeed, no tick of the model raises.
- LearningEngine.Engine.StoreLearningInsights: the store writes are taken to succeed. In the source a failing write aborts the rest of the method and is only logged.
- LearningEngine.Engine.RunLearningCycle: the recommendations are an input. `_generate_optimization_recommendations` builds them from floating-point analysis results and formatted strings, and is not modelled.
- `_apply_content_optimizations` and `_apply_sales_optimizations` are not modelled; they only copy analysis results into other store keys.
- These analyses are not modelled, because they rest on floating-point means, wall-clock parsing or a language-model call:
  - `_analyze_posting_times`, `_analyze_engagement_patterns` and `_analyze_content_themes`;
  - `_calculate_avg_response_time`;
  - `_analyze_customer_behavior`, `_analyze_sales_timing`, `_analyze_lead_quality` and `_analyze_follow_up_patterns`;
  - the date filter of `analyze_sales_patterns`;
  - the `time_to_conversion` statistics.
- Extracting hashtags with a regular expression is not modelled; each interaction carries its hashtags as a given list.
- ContentAnalyzer.Platforms: the platform list is modelled as a set. The source builds a list from a set, in unspecified order.
- Floating point is not modelled: scores, means and conversion rates are exact reals.
- SalesAnalyzer.Lead: a field present with a null value is not distinguished from an absent one. Both read as the default, whereas `dict.get` would return `None`.
- The `except` fallbacks that return `{}` or `[]` on an unexpected error are not modelled, for the analysis functions whose modelled parts cannot raise.
- Logging decorators, the start-up banner, the Python version check and `run()` are not modelled.
- The part of `auto_learning.py` after line 814 is not part of this model.
