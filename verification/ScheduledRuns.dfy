/** One scheduled job: when it runs next, and how often it is triggered over a run of ticks. */
module ScheduledRuns {
  import opened Prelude

  type Time = real

  /** The cron search at a moment: the next run time, or nothing when it raises. */
  type CronSearch = (string, Time) -> Option<Time>

  datatype Target = Text(text: string) | Function(module_: Option<string>, name: Option<string>) | Other

  /** What stays the same about a scheduled job. */
  datatype Plan = Plan(
    id: string, name: string, target: Target, arguments: seq<string>, keywords: map<string, string>,
    priority: int, retries: int, timeout: Option<real>,
    interval: Option<real>, delay: Option<real>, cron: Option<string>, maxRuns: Option<int>, createdAt: Time)

  datatype JobState = JobState(plan: Plan, runCount: int, lastRun: Option<Time>, nextRun: Option<Time>, cancelled: bool)

  predicate Exhausted(s: JobState) {
    s.plan.maxRuns.Some? && s.runCount >= s.plan.maxRuns.value
  }

  predicate Active(s: JobState) {
    !s.cancelled && s.nextRun.Some?
  }

  /** `calculate_next_run`; nothing when the cron search raises. */
  function Calculated(s: JobState, now: Time, cron: CronSearch): Option<JobState> {
    if s.cancelled || Exhausted(s) then Some(s.(nextRun := None))
    else if s.runCount == 0 && s.plan.delay.Some? then Some(s.(nextRun := Some(now + s.plan.delay.value)))
    else if s.plan.cron.Some? then
      match cron(s.plan.cron.value, now)
      case Some(t) => Some(s.(nextRun := Some(t)))
      case None => None
    else if s.plan.interval.Some? then Some(s.(nextRun := Some(now + s.plan.interval.value)))
    else Some(s.(nextRun := if s.runCount == 0 then Some(now) else None))
  }

  function Cancelled(s: JobState): JobState {
    s.(cancelled := true, nextRun := None)
  }

  predicate Due(s: JobState, now: Time) {
    s.nextRun.Some? && s.nextRun.value <= now && !s.cancelled
  }

  /** The job counted as run at `ran`, before its next run is calculated. */
  function Counted(s: JobState, ran: Time): JobState {
    s.(runCount := s.runCount + 1, lastRun := Some(ran))
  }

  /** The end of a trigger: counted, then recalculated, and whether that raised. */
  function Triggered(s: JobState, ran: Time, now: Time, cron: CronSearch): (JobState, bool) {
    match Calculated(Counted(s, ran), now, cron)
    case Some(after) => (after, false)
    case None => (Counted(s, ran), true)
  }

  // ---------------------------------------------------------------- a job over a run of ticks

  /** `Skip`: the tick that collected the job does not get to it, or finds no engine. */
  datatype Event = Collect(now: Time) | Fire(ran: Time, now: Time) | Skip | Cancel

  /** `fired` holds the time of each trigger so far; `collected` is set between the two halves of a tick. */
  datatype JobRun = JobRun(job: JobState, collected: bool, clock: Time, fired: seq<Time>)

  /** The clock does not go back, and only a collected job is triggered. */
  predicate Enabled(r: JobRun, e: Event) {
    match e
    case Collect(now) => !r.collected && r.clock <= now
    case Fire(ran, now) => r.collected && r.clock <= ran <= now
    case Skip => r.collected
    case Cancel => true
  }

  function After(r: JobRun, e: Event, cron: CronSearch): JobRun {
    match e
    case Collect(now) => r.(collected := Due(r.job, now), clock := now)
    case Fire(ran, now) => JobRun(Triggered(r.job, ran, now, cron).0, false, now, r.fired + [ran])
    case Skip => r.(collected := false)
    case Cancel => r.(job := Cancelled(r.job))
  }

  function Run(r: JobRun, events: seq<Event>, cron: CronSearch): JobRun
    decreases |events|
  {
    if events == [] then r else Run(After(r, events[0], cron), events[1..], cron)
  }

  predicate Legal(r: JobRun, events: seq<Event>, cron: CronSearch)
    decreases |events|
  {
    events == [] || (Enabled(r, events[0]) && Legal(After(r, events[0], cron), events[1..], cron))
  }

  predicate OneShot(p: Plan) {
    p.interval.None? && p.cron.None?
  }

  /** What a freshly made job satisfies, and so does one restored from the image of an active one. */
  predicate Sane(s: JobState) {
    s.nextRun.Some? ==> !s.cancelled && !Exhausted(s) && (OneShot(s.plan) ==> s.runCount == 0)
  }

  /** The invariant, with the number of runs before the first event. */
  predicate Inv(r: JobRun, before: int) {
    && Sane(r.job)
    && (r.collected ==> !Exhausted(r.job) && (OneShot(r.job.plan) ==> r.job.runCount == 0))
    && r.job.runCount == before + |r.fired|
  }

  lemma StepKeepsInv(r: JobRun, e: Event, cron: CronSearch, before: int)
    requires Inv(r, before) && before >= 0 && Enabled(r, e)
    ensures Inv(After(r, e, cron), before)
  {
  }

  lemma {:induction false} RunKeepsInv(r: JobRun, events: seq<Event>, cron: CronSearch, before: int)
    requires Inv(r, before) && before >= 0 && Legal(r, events, cron)
    ensures Inv(Run(r, events, cron), before)
    ensures Run(r, events, cron).job.plan == r.job.plan
    decreases |events|
  {
    if events != [] {
      StepKeepsInv(r, events[0], cron, before);
      RunKeepsInv(After(r, events[0], cron), events[1..], cron, before);
    }
  }

  /** Nothing fired yet, nothing collected. */
  predicate Starts(r: JobRun) {
    Sane(r.job) && r.job.runCount >= 0 && !r.collected && r.fired == []
  }

  /** Over every run a set next run time means: not cancelled, and below the maximum number of runs. */
  lemma NextRunMeansLive(r: JobRun, events: seq<Event>, cron: CronSearch)
    requires Starts(r) && Legal(r, events, cron)
    ensures var s := Run(r, events, cron).job; s.nextRun.Some? ==> !s.cancelled && !Exhausted(s)
  {
    RunKeepsInv(r, events, cron, r.job.runCount);
  }

  /** The triggers of a job never exceed the runs it is allowed. */
  lemma {:induction false} TriggersBounded(r: JobRun, events: seq<Event>, cron: CronSearch)
    requires Starts(r) && Legal(r, events, cron) && r.job.plan.maxRuns.Some?
    ensures var left := r.job.plan.maxRuns.value - r.job.runCount;
      |Run(r, events, cron).fired| <= if left > 0 then left else 0
    decreases |events|
  {
    if events != [] {
      var front, e := events[..|events| - 1], events[|events| - 1];
      LastEvent(r, front, e, cron);
      assert events == front + [e];
      TriggersBounded(r, front, cron);
      RunKeepsInv(r, front, cron, r.job.runCount);
    }
  }

  lemma {:induction false} LastEvent(r: JobRun, front: seq<Event>, e: Event, cron: CronSearch)
    ensures Run(r, front + [e], cron) == After(Run(r, front, cron), e, cron)
    ensures Legal(r, front + [e], cron) <==> Legal(r, front, cron) && Enabled(Run(r, front, cron), e)
    decreases |front|
  {
    if front == [] {
      assert [e][1..] == [];
    } else {
      assert (front + [e])[1..] == front[1..] + [e];
      LastEvent(After(r, front[0], cron), front[1..], e, cron);
    }
  }

  /** A job with neither interval nor cron is triggered at most once. */
  lemma {:induction false} OneShotFiresOnce(r: JobRun, events: seq<Event>, cron: CronSearch)
    requires Starts(r) && Legal(r, events, cron) && OneShot(r.job.plan)
    ensures |Run(r, events, cron).fired| <= 1
    ensures r.job.runCount > 0 ==> Run(r, events, cron).fired == []
    decreases |events|
  {
    if events != [] {
      var front, e := events[..|events| - 1], events[|events| - 1];
      LastEvent(r, front, e, cron);
      assert events == front + [e];
      OneShotFiresOnce(r, front, cron);
      RunKeepsInv(r, front, cron, r.job.runCount);
    }
  }

  /** Once cancelled, only a trigger already collected can still happen, and the job stays cancelled without a next run. */
  lemma {:induction false} CancelledForGood(r: JobRun, events: seq<Event>, cron: CronSearch)
    requires r.job.cancelled && r.job.nextRun.None? && Legal(r, events, cron)
    ensures |Run(r, events, cron).fired| <= |r.fired| + if r.collected then 1 else 0
    ensures Run(r, events, cron).job.nextRun.None? && Run(r, events, cron).job.cancelled
    decreases |events|
  {
    if events != [] {
      CancelledForGood(After(r, events[0], cron), events[1..], cron);
    }
  }

  /** After a cancel only a trigger already collected can still happen, and there is no next run any more. */
  lemma CancelStopsTriggers(r: JobRun, events: seq<Event>, cron: CronSearch)
    requires Legal(r, [Cancel] + events, cron)
    ensures var after := Run(r, [Cancel] + events, cron);
      && |after.fired| <= |r.fired| + (if r.collected then 1 else 0)
      && after.job.cancelled && after.job.nextRun.None?
  {
    assert ([Cancel] + events)[1..] == events;
    CancelledForGood(After(r, Cancel, cron), events, cron);
  }

  // ---------------------------------------------------------------- jobs with an interval

  /** Each trigger comes at least `gap` after the one before. */
  predicate Spaced(fired: seq<Time>, gap: real) {
    forall k | 0 <= k < |fired| - 1 :: fired[k] + gap <= fired[k + 1]
  }

  predicate OnInterval(p: Plan) {
    p.interval.Some? && p.cron.None?
  }

  /** Between triggers the next run time, and a collection, lie an interval after the last one. */
  predicate Paced(r: JobRun, gap: real) {
    && Spaced(r.fired, gap)
    && (r.fired != [] ==>
          && r.job.runCount > 0
          && (r.job.nextRun.Some? ==> r.fired[|r.fired| - 1] + gap <= r.job.nextRun.value)
          && (r.collected ==> r.fired[|r.fired| - 1] + gap <= r.clock))
  }

  lemma StepKeepsPace(r: JobRun, e: Event, cron: CronSearch)
    requires OnInterval(r.job.plan) && Enabled(r, e) && r.job.runCount >= 0
    requires Paced(r, r.job.plan.interval.value)
    ensures Paced(After(r, e, cron), r.job.plan.interval.value) && After(r, e, cron).job.runCount >= 0
  {
    var gap := r.job.plan.interval.value;
    if e.Fire? {
      var fired := After(r, e, cron).fired;
      forall k | 0 <= k < |fired| - 1 ensures fired[k] + gap <= fired[k + 1] {
        if k + 1 < |r.fired| {
          assert r.fired[k] + gap <= r.fired[k + 1];
        }
      }
    }
  }

  lemma {:induction false} RunKeepsPace(r: JobRun, events: seq<Event>, cron: CronSearch)
    requires OnInterval(r.job.plan) && Legal(r, events, cron) && r.job.runCount >= 0
    requires Paced(r, r.job.plan.interval.value)
    ensures Paced(Run(r, events, cron), r.job.plan.interval.value)
    decreases |events|
  {
    if events != [] {
      StepKeepsPace(r, events[0], cron);
      RunKeepsPace(After(r, events[0], cron), events[1..], cron);
    }
  }

  lemma {:induction false} SpacedSum(fired: seq<Time>, gap: real)
    requires fired != [] && Spaced(fired, gap)
    ensures (|fired| - 1) as real * gap <= fired[|fired| - 1] - fired[0]
  {
    if |fired| > 1 {
      var front := fired[..|fired| - 1];
      SpacedSum(front, gap);
      assert fired[|fired| - 2] + gap <= fired[|fired| - 2 + 1];
      OneGapMore(|front| - 1, gap);
    }
  }

  lemma OneGapMore(n: int, gap: real)
    ensures (n + 1) as real * gap == n as real * gap + gap
  {
    assert (n + 1) as real == n as real + 1.0;
  }

  lemma WholeGaps(n: int, gap: real, elapsed: real)
    requires gap > 0.0 && n as real * gap <= elapsed
    ensures n <= (elapsed / gap).Floor
  {
    assert n as real <= elapsed / gap by {
      assert elapsed / gap * gap == elapsed;
    }
  }

  /** A job on an interval only is triggered at most 1 + floor(elapsed / interval) times from its first trigger to its last. */
  lemma IntervalBound(r: JobRun, events: seq<Event>, cron: CronSearch)
    requires Starts(r) && Legal(r, events, cron) && OnInterval(r.job.plan) && r.job.plan.interval.value > 0.0
    ensures var fired := Run(r, events, cron).fired;
      fired != [] ==> |fired| <= 1 + ((fired[|fired| - 1] - fired[0]) / r.job.plan.interval.value).Floor
  {
    RunKeepsPace(r, events, cron);
    var fired := Run(r, events, cron).fired;
    if fired != [] {
      SpacedSum(fired, r.job.plan.interval.value);
      WholeGaps(|fired| - 1, r.job.plan.interval.value, fired[|fired| - 1] - fired[0]);
    }
  }

  // ---------------------------------------------------------------- when it runs next

  /** The last trigger of a run: when it was, and the later reading from which the next run is calculated. */
  function LastFire(events: seq<Event>): Option<Event>
    ensures LastFire(events).Some? ==> LastFire(events).value.Fire?
    decreases |events|
  {
    if events == [] then None
    else if events[|events| - 1].Fire? then Some(events[|events| - 1])
    else LastFire(events[..|events| - 1])
  }

  /** What a trigger, with `after` read later, leaves as next run time; `before` was there already. */
  predicate NextAfterTrigger(s: JobState, before: Option<Time>, after: Time, cron: CronSearch) {
    if s.plan.maxRuns.Some? && s.runCount >= s.plan.maxRuns.value then s.nextRun == None
    else if s.plan.cron.Some? then
      s.nextRun == if cron(s.plan.cron.value, after).Some? then cron(s.plan.cron.value, after) else before
    else if s.plan.interval.Some? then s.nextRun == Some(after + s.plan.interval.value)
    else s.nextRun == None
  }

  /** The job as a run without a cancellation leaves it. */
  ghost predicate LeftBy(r: JobRun, events: seq<Event>, cron: CronSearch) {
    var s := Run(r, events, cron).job;
    && s.plan == r.job.plan && !s.cancelled && s.runCount >= r.job.runCount
    && match LastFire(events)
       case None => s == r.job
       case Some(fire) =>
         && s.lastRun == Some(fire.ran) && s.runCount > r.job.runCount
         && exists before :: NextAfterTrigger(s, before, fire.now, cron)
  }

  /**
   Over every run without a cancellation: before the first trigger the job is as it was; after one its
   last run is that of the last trigger, and its next run is the interval after that trigger's later
   reading, or what the cron search finds from there, or none for a job that runs once or has had its runs.
   */
  lemma {:induction false} NextRunFollowsTheLastTrigger(r: JobRun, events: seq<Event>, cron: CronSearch)
    requires !r.job.cancelled && r.job.runCount >= 0 && forall e | e in events :: !e.Cancel?
    ensures LeftBy(r, events, cron)
    decreases |events|
  {
    if events != [] {
      var front, e := events[..|events| - 1], events[|events| - 1];
      LastEvent(r, front, e, cron);
      assert events == front + [e];
      NextRunFollowsTheLastTrigger(r, front, cron);
      if e.Fire? {
        TriggerLeaves(Run(r, front, cron).job, e.ran, e.now, cron);
      }
    }
  }

  lemma TriggerLeaves(s: JobState, ran: Time, now: Time, cron: CronSearch)
    requires !s.cancelled && s.runCount >= 0
    ensures var r := Triggered(s, ran, now, cron).0;
      && r.plan == s.plan && !r.cancelled && r.runCount == s.runCount + 1 && r.lastRun == Some(ran)
      && NextAfterTrigger(r, s.nextRun, now, cron)
  {
  }

  /** A job on an interval or cron expression has a next run as long as it is not cancelled and has runs left. */
  predicate Going(s: JobState) {
    !OneShot(s.plan) && !s.cancelled && !(s.plan.maxRuns.Some? && s.runCount >= s.plan.maxRuns.value) ==> s.nextRun.Some?
  }

  /** Over every run whatsoever a recurring job goes on. */
  lemma {:induction false} RecurringGoesOn(r: JobRun, events: seq<Event>, cron: CronSearch)
    requires Going(r.job) && r.job.runCount >= 0
    ensures Going(Run(r, events, cron).job) && Run(r, events, cron).job.runCount >= 0
    decreases |events|
  {
    if events != [] {
      RecurringGoesOn(After(r, events[0], cron), events[1..], cron);
    }
  }

  predicate LastRunTold(r: JobRun) {
    r.fired != [] ==> r.job.lastRun == Some(r.fired[|r.fired| - 1])
  }

  /** Over every run whatsoever the last run is the last trigger. */
  lemma {:induction false} RunKeepsLastRun(r: JobRun, events: seq<Event>, cron: CronSearch)
    requires LastRunTold(r)
    ensures LastRunTold(Run(r, events, cron))
    decreases |events|
  {
    if events != [] {
      RunKeepsLastRun(After(r, events[0], cron), events[1..], cron);
    }
  }

  /** A collected job that was not cancelled is due by the clock. */
  predicate Waiting(r: JobRun) {
    r.collected && !r.job.cancelled ==> r.job.nextRun.Some? && r.job.nextRun.value <= r.clock
  }

  lemma {:induction false} RunKeepsWaiting(r: JobRun, events: seq<Event>, cron: CronSearch)
    requires Waiting(r) && Legal(r, events, cron)
    ensures Waiting(Run(r, events, cron))
    decreases |events|
  {
    if events != [] {
      RunKeepsWaiting(After(r, events[0], cron), events[1..], cron);
    }
  }

  /**
   A collection takes the job exactly when its next run time has come and it was not cancelled, and no
   job that is not cancelled meanwhile is triggered before that time.
   */
  lemma TriggeredInTime(r: JobRun, events: seq<Event>, e: Event, cron: CronSearch)
    requires Starts(r) && Legal(r, events + [e], cron)
    ensures var before, after := Run(r, events, cron), Run(r, events + [e], cron);
      && (e.Collect? ==>
            (after.collected <==> before.job.nextRun.Some? && before.job.nextRun.value <= e.now && !before.job.cancelled))
      && (e.Fire? ==>
            && after.fired == before.fired + [e.ran]
            && (!before.job.cancelled ==> before.job.nextRun.Some? && before.job.nextRun.value <= e.ran))
  {
    LastEvent(r, events, e, cron);
    RunKeepsWaiting(r, events, cron);
  }
}
