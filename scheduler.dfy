/** The periodic task scheduler: per-task configuration and execution
    history, one polling tick of a task's loop, the manual trigger, the
    health-check job, the status report, and the start/stop lifecycle.

    A task's body is not modelled; each invocation is given as an `Outcome`
    (it returned, or it raised with a message).  The clock is the `now`
    argument, in minutes. */
module Scheduler {
  import opened Wrappers
  import opened Schedule
  import opened History
  import opened Health

  /** At most this many records are kept per task. */
  const HistoryCap: nat := 100

  datatype Outcome = Ok | Err(message: string)

  datatype ExecutionRecord = ExecutionRecord(
    taskName: string,
    timestamp: nat,
    success: bool,
    error: Option<string>)

  datatype Alert = Alert(message: string, source: string)

  /** The state one task's loop works on: its configuration entry (whose
      `lastRun` the loop updates) and its execution history. */
  datatype Job = Job(config: TaskConfig, history: seq<ExecutionRecord>)

  /** What the environment supplies to one tick: the clock, the result of
      the body should it be invoked, and whether an alert would be delivered. */
  datatype TickInput = TickInput(now: nat, outcome: Outcome, alertDelivered: bool)

  /** The settings the task table is built from. */
  datatype Settings = Settings(
    postIntervalMinutes: int,
    analyticsReportHour: int,
    learningUpdateHours: int)

  /** The fixed task table built at start-up; every task starts enabled and
      never run, and only the three analytics reports are hour-constrained. */
  function InitialTaskConfigs(s: Settings): (m: map<string, TaskConfig>)
    ensures m.Keys == {"content_posting", "social_engagement", "sales_tasks", "daily_analytics",
                       "weekly_analytics", "monthly_analytics", "auto_learning", "system_health_check"}
    ensures forall n :: n in m ==> m[n].enabled && m[n].lastRun.None?
    ensures forall n :: n in m ==>
              (m[n].runAtHour.Some? <==> n in {"daily_analytics", "weekly_analytics", "monthly_analytics"})
    ensures forall n :: n in m && m[n].runAtHour.Some? ==> m[n].runAtHour.value == s.analyticsReportHour
    ensures m["content_posting"].intervalMinutes == s.postIntervalMinutes
    ensures m["social_engagement"].intervalMinutes == 30
    ensures m["sales_tasks"].intervalMinutes == 60
    ensures m["daily_analytics"].intervalMinutes == 24 * 60
    ensures m["weekly_analytics"].intervalMinutes == 7 * 24 * 60
    ensures m["monthly_analytics"].intervalMinutes == 30 * 24 * 60
    ensures m["auto_learning"].intervalMinutes == s.learningUpdateHours * 60
    ensures m["system_health_check"].intervalMinutes == 15
  {
    map[
      "content_posting" := TaskConfig(s.postIntervalMinutes, true, None, None),
      "social_engagement" := TaskConfig(30, true, None, None),
      "sales_tasks" := TaskConfig(60, true, None, None),
      "daily_analytics" := TaskConfig(1440, true, None, Some(s.analyticsReportHour)),
      "weekly_analytics" := TaskConfig(10080, true, None, Some(s.analyticsReportHour)),
      "monthly_analytics" := TaskConfig(43200, true, None, Some(s.analyticsReportHour)),
      "auto_learning" := TaskConfig(s.learningUpdateHours * 60, true, None, None),
      "system_health_check" := TaskConfig(15, true, None, None)
    ]
  }

  function RecordOf(name: string, now: nat, outcome: Outcome): ExecutionRecord
  {
    match outcome
    case Ok => ExecutionRecord(name, now, true, None)
    case Err(msg) => ExecutionRecord(name, now, false, Some(msg))
  }

  /** One invocation and its bookkeeping, shared by the automatic loop and the
      manual trigger: `lastRun` moves to `now` only when the body returned,
      and either way one record is logged at the front of the history. */
  function Attempt(name: string, job: Job, now: nat, outcome: Outcome): (r: Job)
    ensures outcome.Ok? ==> r.config == job.config.(lastRun := Some(now))
    ensures outcome.Err? ==> r.config == job.config
    ensures |r.history| == Min(|job.history| + 1, HistoryCap)
    ensures r.history[0].taskName == name && r.history[0].timestamp == now
    ensures r.history[0].success <==> outcome.Ok?
    ensures r.history[0].error == (if outcome.Ok? then None else Some(outcome.message))
    ensures r.history[1..] == job.history[..|r.history| - 1]
  {
    var config := if outcome.Ok? then job.config.(lastRun := Some(now)) else job.config;
    var h := PushCapped(job.history, RecordOf(name, now, outcome), HistoryCap);
    assert h[1..] == job.history[..|h| - 1];
    Job(config, h)
  }

  function FailureAlert(name: string, message: string): Alert
  {
    Alert("Scheduled task '" + name + "' failed: " + message, "scheduler")
  }

  /** One tick of a task's loop: invoke the body only when the task is due. */
  function Tick(name: string, job: Job, t: TickInput): Job
  {
    if ShouldRunTask(job.config, t.now) then Attempt(name, job, t.now, t.outcome) else job
  }

  /** The alert a tick delivers: one for a failed invocation, when the alert
      sink accepts it; a failing sink is ignored. */
  function TickAlerts(name: string, job: Job, t: TickInput): seq<Alert>
  {
    if ShouldRunTask(job.config, t.now) && t.outcome.Err? && t.alertDelivered
    then [FailureAlert(name, t.outcome.message)]
    else []
  }

  /** A run of ticks for one task: its final state and the alerts delivered. */
  function RunTicks(name: string, job: Job, ticks: seq<TickInput>): (Job, seq<Alert>)
    decreases |ticks|
  {
    if ticks == [] then (job, [])
    else
      var (j, alerts) := RunTicks(name, job, ticks[..|ticks| - 1]);
      var t := ticks[|ticks| - 1];
      (Tick(name, j, t), alerts + TickAlerts(name, j, t))
  }

  /** A tick changes only `lastRun`, and that only to `now` when the task
      was due and its body returned; a due tick logs one record at the front
      of the history, a tick that is not due leaves the history alone. */
  lemma TickEffect(name: string, job: Job, t: TickInput)
    ensures Tick(name, job, t).config.(lastRun := job.config.lastRun) == job.config
    ensures Tick(name, job, t).config.lastRun ==
              if ShouldRunTask(job.config, t.now) && t.outcome.Ok? then Some(t.now) else job.config.lastRun
    ensures ShouldRunTask(job.config, t.now) ==>
              var h := Tick(name, job, t).history;
              |h| == Min(|job.history| + 1, HistoryCap) &&
              h[0] == RecordOf(name, t.now, t.outcome) && h[1..] == job.history[..|h| - 1]
    ensures !ShouldRunTask(job.config, t.now) ==> Tick(name, job, t).history == job.history
  {
  }

  /** A tick delivers at most one alert, exactly when the task was due, its
      body raised and the sink accepted it; it comes from the scheduler. */
  lemma TickAlertsEffect(name: string, job: Job, t: TickInput)
    ensures |TickAlerts(name, job, t)| <= 1
    ensures TickAlerts(name, job, t) != [] <==>
              ShouldRunTask(job.config, t.now) && t.outcome.Err? && t.alertDelivered
    ensures forall a :: a in TickAlerts(name, job, t) ==> a.source == "scheduler"
  {
  }

  /** Over a run of ticks only `lastRun` of the configuration changes, at
      most one alert is delivered per tick, and every alert is the
      scheduler's. */
  lemma {:induction false} RunTicksEffect(name: string, job: Job, ticks: seq<TickInput>)
    ensures RunTicks(name, job, ticks).0.config.(lastRun := job.config.lastRun) == job.config
    ensures |RunTicks(name, job, ticks).1| <= |ticks|
    ensures forall a :: a in RunTicks(name, job, ticks).1 ==> a.source == "scheduler"
    decreases |ticks|
  {
    if ticks != [] {
      var front := ticks[..|ticks| - 1];
      var t := ticks[|ticks| - 1];
      RunTicksEffect(name, job, front);
      var (j, alerts) := RunTicks(name, job, front);
      TickEffect(name, j, t);
      TickAlertsEffect(name, j, t);
    }
  }

  lemma RunTicksStep(name: string, job: Job, ticks: seq<TickInput>, i: nat)
    requires i < |ticks|
    ensures var (j, alerts) := RunTicks(name, job, ticks[..i]);
            RunTicks(name, job, ticks[..i + 1]) == (Tick(name, j, ticks[i]), alerts + TickAlerts(name, j, ticks[i]))
  {
    assert ticks[..i + 1][..i] == ticks[..i];
  }

  function RecordsOf(name: string, ticks: seq<TickInput>): (r: seq<ExecutionRecord>)
    ensures |r| == |ticks|
    decreases |ticks|
  {
    if ticks == [] then []
    else
      var t := ticks[|ticks| - 1];
      RecordsOf(name, ticks[..|ticks| - 1]) + [RecordOf(name, t.now, t.outcome)]
  }

  /** A task whose body always raises keeps `lastRun` absent, so a task
      without an hour constraint is due, and retried, on every tick: after N
      ticks its history holds its N failures, newest first, cut to the cap. */
  lemma {:induction false} FailingTaskRetriesEveryTick(name: string, job: Job, ticks: seq<TickInput>)
    requires job.config.lastRun.None? && job.config.runAtHour.None?
    requires forall k :: 0 <= k < |ticks| ==> ticks[k].outcome.Err?
    ensures RunTicks(name, job, ticks).0 == Job(job.config, PushAll(job.history, RecordsOf(name, ticks), HistoryCap))
    decreases |ticks|
  {
    if ticks != [] {
      var front := ticks[..|ticks| - 1];
      assert forall k :: 0 <= k < |front| ==> front[k] == ticks[k];
      FailingTaskRetriesEveryTick(name, job, front);
      assert RecordsOf(name, ticks)[..|ticks| - 1] == RecordsOf(name, front);
    }
  }

  /** Ticks at least one interval apart, on a task without an hour constraint
      whose body always returns: every tick runs it and logs a success. */
  lemma {:induction false} SucceedingTaskRunsEveryTick(name: string, job: Job, ticks: seq<TickInput>)
    requires job.config.runAtHour.None?
    requires forall k :: 0 <= k < |ticks| ==> ticks[k].outcome.Ok?
    requires forall k :: 0 < k < |ticks| ==> ticks[k].now - ticks[k - 1].now >= job.config.intervalMinutes
    requires |ticks| > 0 && job.config.lastRun.Some? ==>
               ticks[0].now - job.config.lastRun.value >= job.config.intervalMinutes
    ensures RunTicks(name, job, ticks).0.history == PushAll(job.history, RecordsOf(name, ticks), HistoryCap)
    ensures |ticks| > 0 ==> RunTicks(name, job, ticks).0.config == job.config.(lastRun := Some(ticks[|ticks| - 1].now))
    ensures ticks == [] ==> RunTicks(name, job, ticks).0 == job
    decreases |ticks|
  {
    if ticks != [] {
      var front := ticks[..|ticks| - 1];
      var t := ticks[|ticks| - 1];
      assert forall k :: 0 <= k < |front| ==> front[k] == ticks[k];
      SucceedingTaskRunsEveryTick(name, job, front);
      var j := RunTicks(name, job, front).0;
      assert j.config.lastRun.Some? ==> t.now - j.config.lastRun.value >= job.config.intervalMinutes;
      assert ShouldRunTask(j.config, t.now);
      assert RunTicks(name, job, ticks).0 == Attempt(name, j, t.now, Ok);
      assert RecordsOf(name, ticks) == RecordsOf(name, front) + [RecordOf(name, t.now, Ok)];
      assert RecordsOf(name, ticks)[..|ticks| - 1] == RecordsOf(name, front);
    }
  }

  /** Any two successful records of a history lie at least `interval` apart. */
  ghost predicate SuccessesSpaced(history: seq<ExecutionRecord>, interval: int)
  {
    forall i, j :: 0 <= i < j < |history| && history[i].success && history[j].success ==>
      history[i].timestamp - history[j].timestamp >= interval
  }

  /** `lastRun` is no earlier than any successful record (and absent only if
      there is none). */
  ghost predicate AnchoredBy(lastRun: Option<nat>, history: seq<ExecutionRecord>)
  {
    forall i :: 0 <= i < |history| && history[i].success ==>
      lastRun.Some? && history[i].timestamp <= lastRun.value
  }

  lemma TickKeepsSpacing(name: string, job: Job, t: TickInput)
    requires job.config.intervalMinutes >= 0
    requires SuccessesSpaced(job.history, job.config.intervalMinutes)
    requires AnchoredBy(job.config.lastRun, job.history)
    ensures Tick(name, job, t).config.intervalMinutes == job.config.intervalMinutes
    ensures SuccessesSpaced(Tick(name, job, t).history, job.config.intervalMinutes)
    ensures AnchoredBy(Tick(name, job, t).config.lastRun, Tick(name, job, t).history)
  {
    if ShouldRunTask(job.config, t.now) {
      var r := Attempt(name, job, t.now, t.outcome);
      assert forall i :: 1 <= i < |r.history| ==> r.history[i] == job.history[i - 1];
    }
  }

  /** The automatic loop never runs a task successfully twice within one
      interval: the spacing survives any run of ticks. */
  lemma {:induction false} TicksKeepSpacing(name: string, job: Job, ticks: seq<TickInput>)
    requires job.config.intervalMinutes >= 0
    requires SuccessesSpaced(job.history, job.config.intervalMinutes)
    requires AnchoredBy(job.config.lastRun, job.history)
    ensures RunTicks(name, job, ticks).0.config.intervalMinutes == job.config.intervalMinutes
    ensures SuccessesSpaced(RunTicks(name, job, ticks).0.history, job.config.intervalMinutes)
    ensures AnchoredBy(RunTicks(name, job, ticks).0.config.lastRun, RunTicks(name, job, ticks).0.history)
    decreases |ticks|
  {
    if ticks != [] {
      TicksKeepSpacing(name, job, ticks[..|ticks| - 1]);
      TickKeepsSpacing(name, RunTicks(name, job, ticks[..|ticks| - 1]).0, ticks[|ticks| - 1]);
    }
  }

  /** The status report entry of one task. */
  datatype TaskReport = TaskReport(
    enabled: bool,
    intervalMinutes: int,
    lastRun: Option<nat>,
    running: bool,
    nextRun: NextRun)

  datatype StatusReport = StatusReport(schedulerRunning: bool, tasks: map<string, TaskReport>)

  function HealthAlert(): Alert
  {
    Alert("System health check failed - multiple components are down", "health_monitor")
  }

  function SpawnedTasks(configs: map<string, TaskConfig>): map<string, TaskState>
  {
    map n | n in configs && configs[n].enabled :: Alive
  }

  function AliveTasks(tasks: map<string, TaskState>): set<string>
  {
    set n | n in tasks && tasks[n].Alive?
  }

  /** Two maps that agree on every key other than `name`. */
  ghost predicate AgreeExcept<V>(m1: map<string, V>, m2: map<string, V>, name: string)
  {
    forall n :: n != name ==> (n in m1 <==> n in m2) && (n in m1 ==> m1[n] == m2[n])
  }

  class TaskScheduler {
    var isRunning: bool
    var runningTasks: map<string, TaskState>
    var taskConfigs: map<string, TaskConfig>
    /** The store's "task_execution_history:<name>" lists. */
    var history: map<string, seq<ExecutionRecord>>
    /** The store's "system_health" entry. */
    var systemHealth: Option<HealthSnapshot>
    /** Alerts the alert sink has accepted, oldest first. */
    var alerts: seq<Alert>

    ghost predicate Valid()
      reads this
    {
      && (!isRunning ==> runningTasks == map[])
      && runningTasks.Keys <= taskConfigs.Keys
    }

    constructor ()
      ensures Valid() && !isRunning
      ensures runningTasks == map[] && taskConfigs == map[] && history == map[]
      ensures systemHealth == None && alerts == []
    {
      isRunning := false;
      runningTasks := map[];
      taskConfigs := map[];
      history := map[];
      systemHealth := None;
      alerts := [];
    }

    function HistoryOf(name: string): seq<ExecutionRecord>
      reads this
    {
      if name in history then history[name] else []
    }

    function JobOf(name: string): Job
      requires name in taskConfigs
      reads this
    {
      Job(taskConfigs[name], HistoryOf(name))
    }

    /** Start the scheduler: a no-op when it is already running; when building
        the task table fails (`initOk` false) the scheduler stays stopped and
        the error is reported (`ok` false); otherwise the table is rebuilt and
        one task is spawned per enabled entry. */
    method Start(settings: Settings, initOk: bool) returns (ok: bool)
      requires Valid()
      modifies this
      ensures Valid()
      ensures history == old(history) && systemHealth == old(systemHealth) && alerts == old(alerts)
      ensures old(isRunning) ==>
                ok && isRunning && taskConfigs == old(taskConfigs) && runningTasks == old(runningTasks)
      ensures !old(isRunning) && !initOk ==>
                !ok && !isRunning && taskConfigs == old(taskConfigs) && runningTasks == old(runningTasks)
      ensures !old(isRunning) && initOk ==>
                ok && isRunning && taskConfigs == InitialTaskConfigs(settings) &&
                runningTasks == SpawnedTasks(taskConfigs)
    {
      if isRunning {
        return true;
      }
      isRunning := true;
      if !initOk {
        isRunning := false;
        return false;
      }
      taskConfigs := InitialTaskConfigs(settings);
      var spawned := runningTasks;
      var pending := taskConfigs.Keys;
      while pending != {}
        invariant pending <= taskConfigs.Keys
        invariant spawned == map n | n in taskConfigs && n !in pending && taskConfigs[n].enabled :: Alive
        decreases pending
      {
        var n :| n in pending;
        if taskConfigs[n].enabled {
          spawned := spawned[n := Alive];
        }
        pending := pending - {n};
      }
      runningTasks := spawned;
      ok := true;
    }

    /** Stop the scheduler: a no-op when it is stopped; otherwise every task
        that is still alive is cancelled (`cancelled` names them), the task
        set is cleared and the scheduler is marked stopped. */
    method Stop() returns (cancelled: set<string>)
      requires Valid()
      modifies this
      ensures Valid()
      ensures taskConfigs == old(taskConfigs) && history == old(history)
      ensures systemHealth == old(systemHealth) && alerts == old(alerts)
      ensures !old(isRunning) ==>
                !isRunning && runningTasks == old(runningTasks) && cancelled == {}
      ensures old(isRunning) ==>
                !isRunning && runningTasks == map[] && cancelled == AliveTasks(old(runningTasks))
    {
      if !isRunning {
        return {};
      }
      cancelled := {};
      var pending := runningTasks.Keys;
      while pending != {}
        invariant pending <= runningTasks.Keys
        invariant cancelled == set n | n in runningTasks && n !in pending && runningTasks[n].Alive?
        decreases pending
      {
        var n :| n in pending;
        if runningTasks[n].Alive? {
          cancelled := cancelled + {n};
        }
        pending := pending - {n};
      }
      runningTasks := map[];
      isRunning := false;
    }

    /** Log one execution at the front of the task's history, keeping at most
        `HistoryCap` records. */
    method LogTaskExecution(name: string, now: nat, success: bool, error: Option<string>)
      modifies this
      ensures history == old(history)[name := PushCapped(old(HistoryOf(name)), ExecutionRecord(name, now, success, error), HistoryCap)]
      ensures isRunning == old(isRunning) && runningTasks == old(runningTasks) && taskConfigs == old(taskConfigs)
      ensures systemHealth == old(systemHealth) && alerts == old(alerts)
    {
      var previous := if name in history then history[name] else [];
      var h := [ExecutionRecord(name, now, success, error)] + previous;
      if |h| > HistoryCap {
        h := h[..HistoryCap];
      }
      assert h == ([ExecutionRecord(name, now, success, error)] + previous)[..Min(|previous| + 1, HistoryCap)];
      history := history[name := h];
    }

    /** The attempt/record sequence with the body's outcome given. */
    method Execute(name: string, now: nat, outcome: Outcome)
      requires name in taskConfigs
      modifies this
      ensures taskConfigs == old(taskConfigs)[name := Attempt(name, old(JobOf(name)), now, outcome).config]
      ensures history == old(history)[name := Attempt(name, old(JobOf(name)), now, outcome).history]
      ensures isRunning == old(isRunning) && runningTasks == old(runningTasks)
      ensures systemHealth == old(systemHealth) && alerts == old(alerts)
    {
      match outcome
      case Ok =>
        taskConfigs := taskConfigs[name := taskConfigs[name].(lastRun := Some(now))];
        LogTaskExecution(name, now, true, None);
      case Err(msg) =>
        LogTaskExecution(name, now, false, Some(msg));
    }

    /** One pass of a task's polling loop. */
    method TickTask(name: string, t: TickInput)
      requires Valid() && name in taskConfigs
      modifies this
      ensures Valid()
      ensures taskConfigs == old(taskConfigs)[name := Tick(name, old(JobOf(name)), t).config]
      ensures history == (if ShouldRunTask(old(taskConfigs[name]), t.now)
                          then old(history)[name := Tick(name, old(JobOf(name)), t).history]
                          else old(history))
      ensures alerts == old(alerts) + TickAlerts(name, old(JobOf(name)), t)
      ensures isRunning == old(isRunning) && runningTasks == old(runningTasks)
      ensures systemHealth == old(systemHealth)
      ensures name in taskConfigs && JobOf(name) == Tick(name, old(JobOf(name)), t)
      ensures taskConfigs.Keys == old(taskConfigs.Keys)
      ensures AgreeExcept(taskConfigs, old(taskConfigs), name) && AgreeExcept(history, old(history), name)
    {
      var due := ShouldRunTask(taskConfigs[name], t.now);
      if due {
        Execute(name, t.now, t.outcome);
        if t.outcome.Err? && t.alertDelivered {
          alerts := alerts + [FailureAlert(name, t.outcome.message)];
        }
      }
    }

    /** A task's polling loop over a finite run of ticks; the loop only runs
        while the scheduler is running. */
    method RunPeriodicTask(name: string, ticks: seq<TickInput>)
      requires Valid() && name in taskConfigs
      modifies this
      ensures Valid()
      ensures name in taskConfigs && taskConfigs.Keys == old(taskConfigs.Keys)
      ensures old(isRunning) ==> JobOf(name) == RunTicks(name, old(JobOf(name)), ticks).0
      ensures old(isRunning) ==> alerts == old(alerts) + RunTicks(name, old(JobOf(name)), ticks).1
      ensures !old(isRunning) ==> taskConfigs == old(taskConfigs) && history == old(history) && alerts == old(alerts)
      ensures forall n :: n != name && n in old(taskConfigs) ==> taskConfigs[n] == old(taskConfigs[n])
      ensures forall n :: n != name ==> HistoryOf(n) == old(HistoryOf(n))
      ensures isRunning == old(isRunning) && runningTasks == old(runningTasks)
      ensures systemHealth == old(systemHealth)
    {
      ghost var job0 := JobOf(name);
      ghost var configs0 := taskConfigs;
      ghost var history0 := history;
      ghost var alerts0 := alerts;
      var i := 0;
      while i < |ticks| && isRunning
        invariant 0 <= i <= |ticks|
        invariant Valid() && name in taskConfigs
        invariant isRunning == old(isRunning) && runningTasks == old(runningTasks)
        invariant systemHealth == old(systemHealth)
        invariant !isRunning ==> i == 0
        invariant i == 0 ==> taskConfigs == configs0 && history == history0 && alerts == alerts0
        invariant taskConfigs.Keys == configs0.Keys && AgreeExcept(taskConfigs, configs0, name)
        invariant AgreeExcept(history, history0, name)
        invariant JobOf(name) == RunTicks(name, job0, ticks[..i]).0
        invariant alerts == alerts0 + RunTicks(name, job0, ticks[..i]).1
        decreases |ticks| - i
      {
        RunTicksStep(name, job0, ticks, i);
        TickTask(name, ticks[i]);
        i := i + 1;
      }
      assert isRunning ==> ticks[..i] == ticks;
    }

    /** Run a task outside its cadence: an unknown name fails and logs
        nothing; otherwise the same attempt/record sequence as a due tick, and
        the result says whether the body returned.  No alert is sent. */
    method RunTaskManually(name: string, now: nat, outcome: Outcome) returns (ok: bool)
      requires Valid()
      modifies this
      ensures Valid()
      ensures name !in old(taskConfigs) ==> !ok && taskConfigs == old(taskConfigs) && history == old(history)
      ensures name in old(taskConfigs) ==>
                ok == outcome.Ok? &&
                taskConfigs == old(taskConfigs)[name := Attempt(name, old(JobOf(name)), now, outcome).config] &&
                history == old(history)[name := Attempt(name, old(JobOf(name)), now, outcome).history]
      ensures isRunning == old(isRunning) && runningTasks == old(runningTasks)
      ensures systemHealth == old(systemHealth) && alerts == old(alerts)
    {
      if name !in taskConfigs {
        return false;
      }
      Execute(name, now, outcome);
      ok := outcome.Ok?;
    }

    /** The per-task liveness entries of a health snapshot. */
    method CollectTaskStatus() returns (status: map<string, TaskStatus>)
      ensures status == TaskStatuses(runningTasks)
    {
      status := map[];
      var pending := runningTasks.Keys;
      while pending != {}
        invariant pending <= runningTasks.Keys
        invariant status == map n | n in runningTasks && n !in pending :: StatusOf(runningTasks[n])
        decreases pending
      {
        var n :| n in pending;
        status := status[n := StatusOf(runningTasks[n])];
        pending := pending - {n};
      }
    }

    /** The health-check job: probe the store (`probeOk`), snapshot task
        liveness, store the snapshot when the write succeeds (`writeOk`), and
        then alert if the system is unhealthy (a failing alert is ignored). */
    method SystemHealthCheck(now: nat, probeOk: bool, writeOk: bool, alertDelivered: bool)
      modifies this
      ensures writeOk ==> systemHealth == Some(Snapshot(now, probeOk, runningTasks))
      ensures !writeOk ==> systemHealth == old(systemHealth)
      ensures alerts == old(alerts) +
                (if writeOk && alertDelivered && Snapshot(now, probeOk, runningTasks).overallStatus == Unhealthy
                 then [HealthAlert()] else [])
      ensures isRunning == old(isRunning) && runningTasks == old(runningTasks)
      ensures taskConfigs == old(taskConfigs) && history == old(history)
    {
      var status := CollectTaskStatus();
      var overall := DeriveOverallStatus(probeOk, status);
      if writeOk {
        systemHealth := Some(HealthSnapshot(now, probeOk, status, overall));
        if overall == Unhealthy && alertDelivered {
          alerts := alerts + [HealthAlert()];
        }
      }
    }

    /** The status report: one entry per configured task. */
    method GetTaskStatus() returns (report: StatusReport)
      ensures report.schedulerRunning == isRunning
      ensures report.tasks.Keys == taskConfigs.Keys
      ensures forall n :: n in report.tasks ==>
                && report.tasks[n].enabled == taskConfigs[n].enabled
                && report.tasks[n].intervalMinutes == taskConfigs[n].intervalMinutes
                && report.tasks[n].lastRun == taskConfigs[n].lastRun
                && (report.tasks[n].running <==> n in runningTasks && runningTasks[n].Alive?)
                && report.tasks[n].nextRun == CalculateNextRun(taskConfigs[n])
    {
      var tasks: map<string, TaskReport> := map[];
      var pending := taskConfigs.Keys;
      while pending != {}
        invariant pending <= taskConfigs.Keys
        invariant tasks.Keys == taskConfigs.Keys - pending
        invariant forall n :: n in tasks ==> tasks[n] == ReportOf(n)
        decreases pending
      {
        var n :| n in pending;
        tasks := tasks[n := ReportOf(n)];
        pending := pending - {n};
      }
      report := StatusReport(isRunning, tasks);
    }

    function ReportOf(n: string): TaskReport
      requires n in taskConfigs
      reads this
    {
      var c := taskConfigs[n];
      TaskReport(c.enabled, c.intervalMinutes, c.lastRun,
                 n in runningTasks && runningTasks[n].Alive?, CalculateNextRun(c))
    }
  }

  /** Stopping twice is stopping once: the second call cancels nothing and
      changes nothing. */
  method StopTwice(s: TaskScheduler) returns (first: set<string>, second: set<string>)
    requires s.Valid()
    modifies s
    ensures s.Valid() && !s.isRunning && second == {}
    ensures first == (if old(s.isRunning) then AliveTasks(old(s.runningTasks)) else {})
    ensures s.runningTasks == (if old(s.isRunning) then map[] else old(s.runningTasks))
    ensures s.taskConfigs == old(s.taskConfigs) && s.history == old(s.history)
  {
    first := s.Stop();
    second := s.Stop();
  }
}
