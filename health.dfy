/** The health snapshot written by the scheduler's health-check job: store
    reachability, the liveness of every tracked task, and the derived overall
    status. */
module Health {

  /** The life state of one spawned task. */
  datatype TaskState = Alive | Finished | Cancelled

  /** The per-task entry of the snapshot: `running` is "not done",
      `cancelled` is only ever true for a finished task. */
  datatype TaskStatus = TaskStatus(running: bool, cancelled: bool)

  datatype OverallStatus = Healthy | Degraded | Unhealthy

  datatype HealthSnapshot = HealthSnapshot(
    timestamp: nat,
    redisConnection: bool,
    taskStatus: map<string, TaskStatus>,
    overallStatus: OverallStatus)

  function StatusOf(t: TaskState): (s: TaskStatus)
    ensures s.running <==> t.Alive?
    ensures s.cancelled <==> t.Cancelled?
    ensures !(s.running && s.cancelled)
  {
    var done := !t.Alive?;
    TaskStatus(!done, if done then t.Cancelled? else false)
  }

  function TaskStatuses(tasks: map<string, TaskState>): (m: map<string, TaskStatus>)
    ensures m.Keys == tasks.Keys
    ensures forall n :: n in m ==> (m[n].running <==> tasks[n].Alive?)
    ensures forall n :: n in m ==> (m[n].cancelled <==> tasks[n].Cancelled?)
  {
    map n | n in tasks :: StatusOf(tasks[n])
  }

  predicate AllRunning(status: map<string, TaskStatus>)
  {
    forall n :: n in status ==> status[n].running
  }

  /** The three-way derivation from store reachability and task liveness. */
  function DeriveOverallStatus(redisOk: bool, status: map<string, TaskStatus>): (r: OverallStatus)
    ensures r == Healthy <==> redisOk && AllRunning(status)
    ensures r == Unhealthy <==> !redisOk && !AllRunning(status)
    ensures r == Degraded <==> (redisOk != AllRunning(status))
  {
    var tasksOk := AllRunning(status);
    if redisOk && tasksOk then Healthy
    else if redisOk || tasksOk then Degraded
    else Unhealthy
  }

  function Snapshot(now: nat, redisOk: bool, tasks: map<string, TaskState>): (s: HealthSnapshot)
    ensures s.timestamp == now && s.redisConnection == redisOk
    ensures s.taskStatus == TaskStatuses(tasks)
    ensures s.taskStatus.Keys == tasks.Keys
    ensures s.overallStatus == Healthy <==> redisOk && forall n :: n in tasks ==> tasks[n].Alive?
    ensures s.overallStatus == Unhealthy <==> !redisOk && exists n :: n in tasks && !tasks[n].Alive?
  {
    var status := TaskStatuses(tasks);
    HealthSnapshot(now, redisOk, status, DeriveOverallStatus(redisOk, status))
  }

  /** With no tracked tasks (the scheduler is stopped) the task side is
      vacuously fine: the status is healthy or degraded, never unhealthy. */
  lemma NoTasksNeverUnhealthy(now: nat, redisOk: bool)
    ensures Snapshot(now, redisOk, map[]).overallStatus == (if redisOk then Healthy else Degraded)
  {
  }

  /** The three cases spelled out for a store that is unreachable. */
  lemma UnreachableStore(now: nat, tasks: map<string, TaskState>, dead: string)
    ensures (forall n :: n in tasks ==> tasks[n].Alive?) ==> Snapshot(now, false, tasks).overallStatus == Degraded
    ensures dead in tasks && !tasks[dead].Alive? ==> Snapshot(now, false, tasks).overallStatus == Unhealthy
  {
  }
}
