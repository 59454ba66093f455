/** The schedule evaluator of the task scheduler: the pure decision whether a
    periodic task is due, and the "next run" estimate shown in the status
    report.  Time is an integer count of minutes since an epoch; the local
    wall-clock hour and calendar date are derived from it. */
module Schedule {
  import opened Wrappers

  /** The part of a task's configuration the evaluator reads.  `lastRun` is
      absent until the first successful run. */
  datatype TaskConfig = TaskConfig(
    intervalMinutes: int,
    enabled: bool,
    lastRun: Option<nat>,
    runAtHour: Option<int>)

  /** Hour of the day (0..23) at minute `t`. */
  function Hour(t: nat): (h: nat)
    ensures h < 24
  {
    (t / 60) % 24
  }

  /** Calendar day number of minute `t`. */
  function Date(t: nat): nat
  {
    t / 1440
  }

  /** Whether the task described by `config` is due at minute `now`. */
  function ShouldRunTask(config: TaskConfig, now: nat): (due: bool)
    // never run: due at once, or only in the target hour when one is set
    ensures config.lastRun.None? && config.runAtHour.None? ==> due
    ensures config.lastRun.None? && config.runAtHour.Some? ==>
              (due <==> Hour(now) == config.runAtHour.value)
    // the interval guard wins over everything else
    ensures config.lastRun.Some? && now - config.lastRun.value < config.intervalMinutes ==> !due
    // an hour-constrained task fires only in its hour ...
    ensures due && config.runAtHour.Some? ==> Hour(now) == config.runAtHour.value
    // ... and not again in the same hour of the same day
    ensures due && config.lastRun.Some? && config.runAtHour.Some? ==>
              !(Date(config.lastRun.value) == Date(now) && Hour(config.lastRun.value) == config.runAtHour.value)
    // once the interval has elapsed and no hour guard blocks it, it is due
    ensures (config.lastRun.Some? && now - config.lastRun.value >= config.intervalMinutes &&
             config.runAtHour.None?) ==> due
    ensures (config.lastRun.Some? && now - config.lastRun.value >= config.intervalMinutes &&
             config.runAtHour.Some? && Hour(now) == config.runAtHour.value &&
             !(Date(config.lastRun.value) == Date(now) && Hour(config.lastRun.value) == config.runAtHour.value))
            ==> due
  {
    match config.lastRun
    case None =>
      (match config.runAtHour
       case None => true
       case Some(h) => Hour(now) == h)
    case Some(last) =>
      if now - last < config.intervalMinutes then
        false
      else
        match config.runAtHour
        case None => true
        case Some(h) =>
          if Hour(now) != h then false
          else if Date(last) == Date(now) && Hour(last) == h then false
          else true
  }

  /** The status report's estimate of the next run. */
  datatype NextRun = Immediately | At(minute: int)

  function CalculateNextRun(config: TaskConfig): (r: NextRun)
    ensures r == Immediately <==> config.lastRun.None?
    ensures r.At? ==> r.minute - config.lastRun.value == config.intervalMinutes
  {
    match config.lastRun
    case None => Immediately
    case Some(last) => At(last + config.intervalMinutes)
  }

  /** For a task without an hour constraint the estimate is exact: the task
      is due precisely from the estimated minute on. */
  lemma NextRunIsExactWithoutHour(config: TaskConfig, now: nat)
    requires config.runAtHour.None?
    ensures ShouldRunTask(config, now) <==>
              (CalculateNextRun(config).Immediately? || now >= CalculateNextRun(config).minute)
  {
  }

  /** With an hour constraint the estimate is a lower bound: a task that has
      run is never due before it. */
  lemma NextRunIsLowerBound(config: TaskConfig, now: nat)
    requires ShouldRunTask(config, now) && config.lastRun.Some?
    ensures now >= CalculateNextRun(config).minute
  {
  }

  /** A target hour outside 0..23 can never match, so such a task never runs. */
  lemma OutOfRangeHourNeverDue(config: TaskConfig, now: nat)
    requires config.runAtHour.Some? && !(0 <= config.runAtHour.value < 24)
    ensures !ShouldRunTask(config, now)
  {
  }

  /** An hour-constrained task that ran when it was due cannot become due
      again on the same day. */
  lemma OncePerDayInTargetHour(config: TaskConfig, ranAt: nat, later: nat)
    requires config.runAtHour.Some? && ShouldRunTask(config, ranAt)
    requires Date(later) == Date(ranAt)
    ensures !ShouldRunTask(config.(lastRun := Some(ranAt)), later)
  {
  }

  /** Wall-clock helpers: minute `m` of hour `h` on day `d`. */
  function Clock(d: nat, h: nat, m: nat): nat
  {
    d * 1440 + h * 60 + m
  }

  lemma ClockOf(d: nat, h: nat, m: nat)
    requires h < 24 && m < 60
    ensures Hour(Clock(d, h, m)) == h && Date(Clock(d, h, m)) == d
  {
    var t := Clock(d, h, m);
    assert t == (d * 24 + h) * 60 + m;
    assert t / 60 == d * 24 + h;
    assert (d * 24 + h) % 24 == h;
    assert t == d * 1440 + (h * 60 + m);
    assert h * 60 + m < 1440;
  }

  /** The worked example: interval 60, target hour 9, last run today at
      09:00.  Not due at 09:30 today; due at 09:05 tomorrow. */
  lemma DailyExample(day: nat)
    ensures !ShouldRunTask(TaskConfig(60, true, Some(Clock(day, 9, 0)), Some(9)), Clock(day, 9, 30))
    ensures ShouldRunTask(TaskConfig(60, true, Some(Clock(day, 9, 0)), Some(9)), Clock(day + 1, 9, 5))
  {
    ClockOf(day, 9, 0);
    ClockOf(day + 1, 9, 5);
  }

  /** The same-hour guard on its own: with a 15-minute interval the interval
      has elapsed at 09:30, but the task already ran in today's 9 o'clock hour. */
  lemma SameHourGuardExample(day: nat)
    ensures !ShouldRunTask(TaskConfig(15, true, Some(Clock(day, 9, 0)), Some(9)), Clock(day, 9, 30))
  {
    ClockOf(day, 9, 0);
    ClockOf(day, 9, 30);
  }
}
