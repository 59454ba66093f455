/** The process controller and the monitoring entry point: starting and
    stopping the whole system around the scheduler, and the status the
    monitoring check reports. */
module Aurelius {
  import opened Wrappers
  import opened Health
  import opened Scheduler

  /** The result of reading a key from the data store: the value (absent when
      the key is missing), or the error the read raised. */
  datatype StoreRead<T> = Read(value: T) | ReadFailed(message: string)

  /** What the monitoring check returns.  `Up` carries the status and the
      per-component flags (true meaning "ok", false meaning "error"). */
  datatype MonitorReport =
    | Down
    | Failed(message: string)
    | Up(status: OverallStatus, dataStoreOk: bool, schedulerOk: bool, systemHealth: Option<HealthSnapshot>)

  /** The monitoring check, given whether the system is running, whether the
      ping write to the store succeeded, and the read of the stored snapshot. */
  function HealthCheck(running: bool, pingOk: bool, stored: StoreRead<Option<HealthSnapshot>>): (r: MonitorReport)
    ensures !running <==> r == Down
    ensures running ==> (r.Failed? <==> stored.ReadFailed?)
    ensures r.Up? ==> r.dataStoreOk == pingOk && r.schedulerOk
    ensures r.Up? && !pingOk ==> r.status == Degraded
    ensures r.Up? && pingOk ==>
              r.status != Degraded &&
              (r.status == Unhealthy <==> stored.value.Some? && stored.value.value.overallStatus == Unhealthy)
  {
    if !running then Down
    else
      match stored
      case ReadFailed(msg) => Failed(msg)
      case Read(snapshot) =>
        var status :=
          if !pingOk then Degraded
          else if snapshot.Some? && snapshot.value.overallStatus == Unhealthy then Unhealthy
          else Healthy;
        Up(status, pingOk, running, snapshot)
  }

  /** A stored "degraded" snapshot is reported as healthy while the store
      answers the ping. */
  lemma StoredDegradedReadsHealthy(s: HealthSnapshot)
    requires s.overallStatus == Degraded
    ensures HealthCheck(true, true, Read(Some(s))).status == Healthy
  {
  }

  /** The scheduler component is never reported as "error": when the system
      is not running the check answers `Down` before building components. */
  lemma SchedulerComponentAlwaysOk(running: bool, pingOk: bool, stored: StoreRead<Option<HealthSnapshot>>)
    ensures HealthCheck(running, pingOk, stored).Up? ==> HealthCheck(running, pingOk, stored).schedulerOk
  {
  }

  class AureliusSystem {
    var running: bool
    /** Whether the shutdown event has been set. */
    var shutdownRequested: bool
    const scheduler: TaskScheduler

    ghost predicate Valid()
      reads this, scheduler
    {
      scheduler.Valid()
    }

    constructor ()
      ensures Valid() && fresh(scheduler)
      ensures !running && !shutdownRequested && !scheduler.isRunning
    {
      running := false;
      shutdownRequested := false;
      scheduler := new TaskScheduler();
    }

    /** Start the system: a no-op when it is running.  The store is
        initialised (`storeInitOk` false: it raised), then the scheduler is
        started; only when both succeed is the system running.  On failure
        the handler's call to `stop` finds the system not running and does
        nothing, and the error is reported (`ok` false).  Waiting on the
        shutdown event is not modelled. */
    method Start(settings: Settings, storeInitOk: bool, schedulerInitOk: bool) returns (ok: bool)
      requires Valid()
      modifies this, scheduler
      ensures Valid()
      ensures shutdownRequested == old(shutdownRequested)
      ensures old(running) ==> ok && running && unchanged(scheduler)
      ensures !old(running) && !storeInitOk ==> !ok && !running && unchanged(scheduler)
      ensures !old(running) && storeInitOk ==>
                ok == (old(scheduler.isRunning) || schedulerInitOk) && running == ok &&
                (ok ==> scheduler.isRunning) && (!ok ==> !scheduler.isRunning)
    {
      if running {
        return true;
      }
      if !storeInitOk {
        return false;
      }
      ok := scheduler.Start(settings, schedulerInitOk);
      if !ok {
        return false;
      }
      running := true;
    }

    /** Stop the system: a no-op when it is not running.  Otherwise the
        scheduler is stopped and the store closed; `running` is cleared only
        when closing succeeds (`closeOk`), and the shutdown event is set in
        every case. */
    method Stop(closeOk: bool)
      requires Valid()
      modifies this, scheduler
      ensures Valid()
      ensures !old(running) ==> unchanged(this) && unchanged(scheduler)
      ensures old(running) ==>
                && shutdownRequested
                && running == !closeOk
                && !scheduler.isRunning && scheduler.runningTasks == map[]
                && scheduler.taskConfigs == old(scheduler.taskConfigs)
                && scheduler.history == old(scheduler.history)
    {
      if !running {
        return;
      }
      var _ := scheduler.Stop();
      if closeOk {
        running := false;
      }
      shutdownRequested := true;
    }
  }

  /** A failed close leaves the system marked running although its scheduler
      has stopped, so the monitoring check still reports the scheduler as ok. */
  method StopWithFailedClose(sys: AureliusSystem, pingOk: bool) returns (report: MonitorReport)
    requires sys.Valid() && sys.running
    modifies sys, sys.scheduler
    ensures sys.running && !sys.scheduler.isRunning && sys.shutdownRequested
    ensures report.Up? && report.schedulerOk
  {
    sys.Stop(false);
    report := HealthCheck(sys.running, pingOk, Read(sys.scheduler.systemHealth));
  }

  /** With a successful close, stopping twice is stopping once. */
  method StopTwiceSystem(sys: AureliusSystem)
    requires sys.Valid()
    modifies sys, sys.scheduler
    ensures old(sys.running) ==> !sys.running && sys.shutdownRequested && !sys.scheduler.isRunning
    ensures !old(sys.running) ==> sys.running == old(sys.running) && sys.shutdownRequested == old(sys.shutdownRequested)
    ensures sys.scheduler.taskConfigs == old(sys.scheduler.taskConfigs) && sys.scheduler.history == old(sys.scheduler.history)
  {
    sys.Stop(true);
    sys.Stop(true);
  }
}
